/**
 Equal-tempered note naming: the discrete part of `frequency_to_note`.

 A frequency is turned into a count of semitones above C0 (C0 = 440 Hz * 2^-4.75);
 that count is rounded to the nearest integer `h` with Python's `round`, and
 `h` is split into an octave `h // 12` and a note index `h % 12`, both with
 Python's floor semantics.
 */
module NoteNaming {

  /** The twelve note names, indexed by semitone above C. */
  const NoteNames: seq<string> := ["C", "C#", "D", "D#", "E", "F", "F#", "G", "G#", "A", "A#", "B"]

  /** What `frequency_to_note` returns: the sentinel for a non-positive
      frequency, or a note name with its octave. */
  datatype NoteResult = InvalidFrequency | Note(name: string, octave: int)

  // ---------------------------------------------------------------------------
  // Python's `round` on a float (no digits argument): nearest integer, ties to even
  // ---------------------------------------------------------------------------

  /** True when `n` is a nearest integer to `x`, with a tie settled towards the even one. */
  predicate IsRoundedHalfEven(x: real, n: int)
  {
    n as real - 0.5 <= x <= n as real + 0.5 &&
    ((x == n as real - 0.5 || x == n as real + 0.5) ==> n % 2 == 0)
  }

  function RoundHalfEven(x: real): (n: int)
    ensures IsRoundedHalfEven(x, n)
  {
    var f := x.Floor;
    var d := x - f as real;
    if d < 0.5 then f
    else if d > 0.5 then f + 1
    else if f % 2 == 0 then f
    else f + 1
  }

  /** Rounding half to even has exactly one answer. */
  lemma RoundHalfEvenUnique(x: real, m: int)
    requires IsRoundedHalfEven(x, m)
    ensures m == RoundHalfEven(x)
  {
  }

  /** A value strictly within half a unit of `n` rounds to `n`. */
  lemma RoundNearest(x: real, n: int)
    requires n as real - 0.5 < x < n as real + 0.5
    ensures RoundHalfEven(x) == n
  {
    RoundHalfEvenUnique(x, n);
  }

  /** Shifting the input by twelve (an even count) shifts the rounded result by twelve. */
  lemma RoundShiftTwelve(x: real)
    ensures RoundHalfEven(x + 12.0) == RoundHalfEven(x) + 12
  {
    var n := RoundHalfEven(x);
    assert (n + 12) % 2 == n % 2;
    assert (n + 12) as real == n as real + 12.0;
    RoundHalfEvenUnique(x + 12.0, n + 12);
  }

  // ---------------------------------------------------------------------------
  // Python's `h // 12` and `h % 12`
  // ---------------------------------------------------------------------------

  /** `h // 12`: the floor of h / 12. (For a positive divisor, Dafny's
      Euclidean division is floor division.) */
  function FloorDiv12(h: int): (q: int)
    ensures 12 * q <= h < 12 * q + 12
  {
    h / 12
  }

  /** `h % 12`: the remainder that goes with floor division, never negative. */
  function FloorMod12(h: int): (m: int)
    ensures 0 <= m < 12
    ensures 12 * FloorDiv12(h) + m == h
  {
    h % 12
  }

  /** Floor division and remainder recover the parts of 12 * q + m. */
  lemma FloorSplit(q: int, m: int)
    requires 0 <= m < 12
    ensures FloorDiv12(12 * q + m) == q && FloorMod12(12 * q + m) == m
  {
  }

  // ---------------------------------------------------------------------------
  // Semitone count to (name, octave)
  // ---------------------------------------------------------------------------

  /** The integer half of `frequency_to_note`: `h` semitones above C0 is
      `note_names[h % 12]` in octave `h // 12`. */
  function SemitoneToNote(h: int): (r: NoteResult)
    ensures r.Note? && r.name in NoteNames
    ensures 12 * r.octave <= h < 12 * r.octave + 12
    ensures r.name == NoteNames[h - 12 * r.octave]
  {
    Note(NoteNames[FloorMod12(h)], FloorDiv12(h))
  }

  /** The position of a name in a sequence, the first one if it occurs twice. */
  function IndexOf(s: seq<string>, x: string): (i: nat)
    requires x in s
    ensures i < |s| && s[i] == x
    ensures forall j :: 0 <= j < i ==> s[j] != x
  {
    if s[0] == x then 0 else 1 + IndexOf(s[1..], x)
  }

  /** The semitone index 0..11 of a note name. */
  function NoteIndex(name: string): (i: int)
    requires name in NoteNames
    ensures 0 <= i < 12 && NoteNames[i] == name
  {
    IndexOf(NoteNames, name)
  }

  /** The inverse of SemitoneToNote on well-formed notes. */
  function SemitoneOf(n: NoteResult): int
    requires n.Note? && n.name in NoteNames
  {
    12 * n.octave + NoteIndex(n.name)
  }

  /** No two entries of the name table coincide. */
  lemma NoteNamesDistinct(i: int, j: int)
    requires 0 <= i < 12 && 0 <= j < 12 && i != j
    ensures NoteNames[i] != NoteNames[j]
  {
    assert NoteNames[0] == "C" && NoteNames[1] == "C#" && NoteNames[2] == "D" && NoteNames[3] == "D#";
    assert NoteNames[4] == "E" && NoteNames[5] == "F" && NoteNames[6] == "F#" && NoteNames[7] == "G";
    assert NoteNames[8] == "G#" && NoteNames[9] == "A" && NoteNames[10] == "A#" && NoteNames[11] == "B";
  }

  /** The index of the name at position i is i. */
  lemma NoteIndexOfName(i: int)
    requires 0 <= i < 12
    ensures NoteIndex(NoteNames[i]) == i
  {
    var k := NoteIndex(NoteNames[i]);
    if k != i {
      NoteNamesDistinct(k, i);
    }
  }

  /** Decoding a semitone count and encoding it again gives the count back. */
  lemma SemitoneRoundTrip(h: int)
    ensures SemitoneOf(SemitoneToNote(h)) == h
  {
    NoteIndexOfName(FloorMod12(h));
  }

  /** Encoding a note and decoding it again gives the note back: the note
      with index i in octave q lies 12 * q + i semitones above C0. */
  lemma NoteRoundTrip(i: int, octave: int)
    requires 0 <= i < 12
    ensures SemitoneToNote(12 * octave + i) == Note(NoteNames[i], octave)
  {
    FloorSplit(octave, i);
  }

  /** One octave up: the same name, the octave raised by exactly one. */
  lemma SemitoneOctaveShift(h: int)
    ensures SemitoneToNote(h + 12).name == SemitoneToNote(h).name
    ensures SemitoneToNote(h + 12).octave == SemitoneToNote(h).octave + 1
  {
    var r, s := SemitoneToNote(h), SemitoneToNote(h + 12);
    assert 12 * (r.octave + 1) <= h + 12 < 12 * (r.octave + 1) + 12;
    assert s.octave == r.octave + 1;
  }

  /** Floor division also for counts below C0: one semitone below C0 is B in octave -1. */
  lemma SemitoneBelowC0()
    ensures SemitoneToNote(-1) == Note("B", -1)
  {
  }

  // ---------------------------------------------------------------------------
  // frequency_to_note
  // ---------------------------------------------------------------------------

  /** `frequency_to_note`. The parameter `semitonesAboveC0` stands for the
      floating-point expression `12 * log2(frequency / C0)`; it is only
      applied to a positive frequency. */
  function FrequencyToNote(frequency: real, semitonesAboveC0: real -> real): (r: NoteResult)
    ensures r.InvalidFrequency? <==> frequency <= 0.0
    ensures r.Note? ==> r.name in NoteNames
  {
    if frequency <= 0.0 then InvalidFrequency
    else SemitoneToNote(RoundHalfEven(semitonesAboveC0(frequency)))
  }

  /** A frequency lying strictly within half a semitone of `n` semitones above
      C0 is named after semitone `n`. */
  lemma FrequencyToNoteNearest(frequency: real, semitonesAboveC0: real -> real, n: int)
    requires frequency > 0.0
    requires n as real - 0.5 < semitonesAboveC0(frequency) < n as real + 0.5
    ensures FrequencyToNote(frequency, semitonesAboveC0) == SemitoneToNote(n)
  {
    RoundNearest(semitonesAboveC0(frequency), n);
  }

  /** Doubling the frequency adds twelve semitones (a property of the logarithm),
      so it keeps the name and raises the octave by one. */
  lemma FrequencyOctaveDoubling(frequency: real, semitonesAboveC0: real -> real)
    requires frequency > 0.0
    requires semitonesAboveC0(2.0 * frequency) == semitonesAboveC0(frequency) + 12.0
    ensures FrequencyToNote(2.0 * frequency, semitonesAboveC0).Note?
    ensures FrequencyToNote(2.0 * frequency, semitonesAboveC0).name == FrequencyToNote(frequency, semitonesAboveC0).name
    ensures FrequencyToNote(2.0 * frequency, semitonesAboveC0).octave == FrequencyToNote(frequency, semitonesAboveC0).octave + 1
  {
    var x := semitonesAboveC0(frequency);
    RoundShiftTwelve(x);
    SemitoneOctaveShift(RoundHalfEven(x));
  }

  /** 440 Hz lies 12 * 4.75 = 57 semitones above C0, which names A4; the
      floating-point offset need only land within half a semitone of 57. */
  lemma ConcertA(semitonesAboveC0: real -> real)
    requires 56.5 < semitonesAboveC0(440.0) < 57.5
    ensures FrequencyToNote(440.0, semitonesAboveC0) == Note("A", 4)
  {
    RoundNearest(semitonesAboveC0(440.0), 57);
  }

  /** Middle C (261.63 Hz, within a cent of 48 semitones above C0) names C4. */
  lemma MiddleC(semitonesAboveC0: real -> real)
    requires 47.5 < semitonesAboveC0(261.63) < 48.5
    ensures FrequencyToNote(261.63, semitonesAboveC0) == Note("C", 4)
  {
    RoundNearest(semitonesAboveC0(261.63), 48);
  }
}
