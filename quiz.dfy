/**
 The piano quiz driven from `__main__`: the `--octave` flag, the random test
 note, the rule that decides whether a round is correct, and the loop that
 keeps `score` and `counter`.
 */
module Quiz {
  import opened NoteNaming
  import opened ToneDetection

  // ---------------------------------------------------------------------------
  // The --octave flag
  // ---------------------------------------------------------------------------

  /** The value argparse gives for `--octave`: absent (None) or the text given. */
  datatype OctaveArg = Absent | Given(text: string)

  /** Lower-case one character (ASCII letters; every other character is kept). */
  function LowerChar(c: char): char
  {
    if 'A' <= c <= 'Z' then (c as int + 32) as char else c
  }

  /** `str.lower()`, character by character. */
  function Lower(s: string): (t: string)
    ensures |t| == |s|
  {
    seq(|s|, i requires 0 <= i < |s| => LowerChar(s[i]))
  }

  /** `s` spells the lower-case word `w` with any letters capitalised. */
  predicate SpellsIgnoringCase(s: string, w: string)
  {
    |s| == |w| && forall i :: 0 <= i < |s| ==> s[i] == w[i] || s[i] as int == w[i] as int - 32
  }

  /** Lower-casing yields a lower-case word exactly when the text spells it in some mix of cases. */
  lemma LowerIsWord(s: string, w: string)
    requires forall i :: 0 <= i < |w| ==> 'a' <= w[i] <= 'z'
    ensures Lower(s) == w <==> SpellsIgnoringCase(s, w)
  {
    if Lower(s) == w {
      forall i | 0 <= i < |s| ensures s[i] == w[i] || s[i] as int == w[i] as int - 32 {
        assert LowerChar(s[i]) == w[i];
      }
    }
    if SpellsIgnoringCase(s, w) {
      forall i | 0 <= i < |s| ensures Lower(s)[i] == w[i] {
        assert LowerChar(s[i]) == w[i];
      }
    }
  }

  /** Lines 76-79: octave mode is off when the flag is absent or reads "no"
      or "false" in any letter case, and on otherwise. (The comparison
      `args.octave == 0` that the source also makes compares a string with an
      integer and is never true.) */
  function UsingOctave(arg: OctaveArg): (r: bool)
    ensures !r <==>
      arg.Absent? || SpellsIgnoringCase(arg.text, "no") || SpellsIgnoringCase(arg.text, "false")
  {
    if arg.Absent? then false
    else
      LowerIsWord(arg.text, "no");
      LowerIsWord(arg.text, "false");
      !(Lower(arg.text) == "no" || Lower(arg.text) == "false")
  }

  /** Because the integer comparison never holds, the text "0" turns octave mode on. */
  lemma ZeroTextMeansOctave()
    ensures UsingOctave(Given("0"))
    ensures UsingOctave(Given("yes")) && UsingOctave(Given("true"))
    ensures !UsingOctave(Given("No")) && !UsingOctave(Given("FALSE")) && !UsingOctave(Absent)
  {
    assert Lower("No") == "no";
    assert Lower("FALSE") == "false";
  }

  // ---------------------------------------------------------------------------
  // The test note
  // ---------------------------------------------------------------------------

  /** The note the player is asked to play. */
  datatype Target = Target(name: string, octave: int)

  /** What `generate_random_note` can produce: a name from the table and an
      octave drawn by `randint(2, 6)`, that is 2 to 5. */
  predicate ValidTarget(t: Target)
  {
    t.name in NoteNames && 2 <= t.octave <= 5
  }

  /** `generate_random_note`, with the random draws as arbitrary choices. */
  method GenerateRandomNote() returns (t: Target)
    ensures ValidTarget(t)
  {
    assert NoteNames[0] in NoteNames;
    var name :| name in NoteNames;
    var octave :| 2 <= octave < 6;
    t := Target(name, octave);
  }

  // ---------------------------------------------------------------------------
  // One round
  // ---------------------------------------------------------------------------

  /** Line 96: the round is correct when the names agree and, in octave mode,
      the octaves agree too. */
  function Correct(target: Target, note: NoteResult, usingOctave: bool): (r: bool)
    ensures r <==> note.Note? && target.name == note.name && (!usingOctave || target.octave == note.octave)
  {
    (usingOctave && note.Note? && target.name == note.name && target.octave == note.octave) ||
    (!usingOctave && note.Note? && target.name == note.name)
  }

  /** Octave mode only ever turns a correct round into a wrong one. */
  lemma OctaveModeIsStricter(target: Target, note: NoteResult)
    ensures Correct(target, note, true) ==> Correct(target, note, false)
  {
  }

  /** Line 95, `if frequency:`: a round counts only when a tone was detected
      and its frequency is not 0.0 (which Python treats as false). */
  predicate Tested(d: Detection)
  {
    d.Tone? && d.frequency != 0.0
  }

  /** The number of rounds that were scored at all. */
  function TestedRounds(ds: seq<Detection>): (n: nat)
    ensures n <= |ds|
  {
    if |ds| == 0 then 0
    else TestedRounds(ds[..|ds| - 1]) + (if Tested(ds[|ds| - 1]) then 1 else 0)
  }

  /** The number of rounds that were scored and correct. */
  function Hits(ts: seq<Target>, ds: seq<Detection>, usingOctave: bool): (n: nat)
    requires |ts| == |ds|
    ensures n <= TestedRounds(ds)
  {
    if |ds| == 0 then 0
    else
      var last := |ds| - 1;
      Hits(ts[..last], ds[..last], usingOctave) +
        (if Tested(ds[last]) && Correct(ts[last], ds[last].note, usingOctave) then 1 else 0)
  }

  /** One more round: the score rises by one exactly when the round is tested
      and correct, the tested count by one exactly when it is tested. */
  lemma RoundEffect(ts: seq<Target>, ds: seq<Detection>, t: Target, d: Detection, usingOctave: bool)
    requires |ts| == |ds|
    ensures Hits(ts + [t], ds + [d], usingOctave) ==
      Hits(ts, ds, usingOctave) + (if Tested(d) && Correct(t, d.note, usingOctave) then 1 else 0)
    ensures TestedRounds(ds + [d]) == TestedRounds(ds) + (if Tested(d) then 1 else 0)
  {
    assert (ts + [t])[..|ts|] == ts;
    assert (ds + [d])[..|ds|] == ds;
  }

  /** A session in octave mode never scores more than the same session without it. */
  lemma {:induction false} OctaveModeScoresNoMore(ts: seq<Target>, ds: seq<Detection>)
    requires |ts| == |ds|
    ensures Hits(ts, ds, true) <= Hits(ts, ds, false)
  {
    if |ds| > 0 {
      var last := |ds| - 1;
      OctaveModeScoresNoMore(ts[..last], ds[..last]);
      if ds[last].Tone? {
        OctaveModeIsStricter(ts[last], ds[last].note);
      }
    }
  }

  /** Rounds without a tone (or with a 0.0 Hz peak) change neither count. */
  lemma {:induction false} UntestedRoundsChangeNothing(ts: seq<Target>, ds: seq<Detection>, usingOctave: bool)
    requires |ts| == |ds|
    requires forall i :: 0 <= i < |ds| ==> !Tested(ds[i])
    ensures Hits(ts, ds, usingOctave) == 0 && TestedRounds(ds) == 0
  {
    if |ds| > 0 {
      var last := |ds| - 1;
      assert forall i :: 0 <= i < last ==> ds[..last][i] == ds[i];
      UntestedRoundsChangeNothing(ts[..last], ds[..last], usingOctave);
    }
  }

  // ---------------------------------------------------------------------------
  // The session loop
  // ---------------------------------------------------------------------------

  /** Lines 82-112: the `while True` loop, run for as many rounds as there are
      detection outcomes (the source loops until interrupted). Each round draws
      a test note and then looks at what `detect_tone` reported. */
  method QuizSession(usingOctave: bool, detections: seq<Detection>)
    returns (targets: seq<Target>, score: int, counter: int)
    ensures |targets| == |detections|
    ensures forall i :: 0 <= i < |targets| ==> ValidTarget(targets[i])
    ensures score == Hits(targets, detections, usingOctave)
    ensures counter == 1 + TestedRounds(detections)
    ensures 0 <= score < counter
  {
    score := 0;
    counter := 1;
    targets := [];
    var i := 0;
    while i < |detections|
      invariant 0 <= i <= |detections|
      invariant |targets| == i
      invariant forall j :: 0 <= j < i ==> ValidTarget(targets[j])
      invariant score == Hits(targets, detections[..i], usingOctave)
      invariant counter == 1 + TestedRounds(detections[..i])
    {
      var target := GenerateRandomNote();
      var detection := detections[i];
      if Tested(detection) {
        if Correct(target, detection.note, usingOctave) {
          score := score + 1;
        }
        counter := counter + 1;
      }
      RoundEffect(targets, detections[..i], target, detection, usingOctave);
      assert detections[..i] + [detection] == detections[..i + 1];
      targets := targets + [target];
      i := i + 1;
    }
    assert detections[..i] == detections;
  }
}
