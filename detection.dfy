/**
 The discrete part of `detect_tone`: given the magnitude spectrum of one
 recorded block (N magnitudes), keep the non-negative-frequency half, gate on
 its maximum against the threshold, and report the first bin holding that
 maximum together with its frequency and its note.
 */
module ToneDetection {
  import opened NoteNaming

  /** What peak picking yields: no peak above the threshold, or the chosen
      bin with its frequency in Hz. */
  datatype Peak = NoPeak | Peak(bin: nat, frequency: real)

  /** What `detect_tone` returns: `(None, None, None)`, or the dominant
      frequency with what `frequency_to_note` made of it. */
  datatype Detection = NoTone | Tone(frequency: real, note: NoteResult)

  /** `fftfreq(n, 1 / sampleRate)`: bins 0 .. (n-1)/2 are the non-negative
      frequencies k * sampleRate / n, the rest the negative ones (k - n) * sampleRate / n. */
  function FftFreq(n: nat, sampleRate: int): (xf: seq<real>)
    requires n > 0
    ensures |xf| == n
  {
    seq(n, k requires 0 <= k < n =>
      (if k < (n - 1) / 2 + 1 then k else k - n) as real * (sampleRate as real) / (n as real))
  }

  /** `s[:len(s) // 2]`: the first half, rounded down, of the entries. */
  function PositiveHalf(s: seq<real>): (h: seq<real>)
    ensures |h| == |s| / 2
    ensures forall k :: 0 <= k < |h| ==> h[k] == s[k]
  {
    s[..|s| / 2]
  }

  /** `np.max`: the largest element. */
  function Max(s: seq<real>): (m: real)
    requires |s| > 0
    ensures forall j :: 0 <= j < |s| ==> s[j] <= m
    ensures exists j :: 0 <= j < |s| && s[j] == m
  {
    if |s| == 1 then s[0]
    else
      var m := Max(s[..|s| - 1]);
      assert forall j :: 0 <= j < |s| - 1 ==> s[..|s| - 1][j] == s[j];
      if s[|s| - 1] > m then s[|s| - 1] else m
  }

  /** `np.argmax`: the FIRST index holding the largest element. */
  function ArgMax(s: seq<real>): (k: nat)
    requires |s| > 0
    ensures k < |s|
    ensures forall j :: 0 <= j < |s| ==> s[j] <= s[k]
    ensures forall j :: 0 <= j < k ==> s[j] < s[k]
  {
    if |s| == 1 then 0
    else
      var k := ArgMax(s[..|s| - 1]);
      assert forall j :: 0 <= j < |s| - 1 ==> s[..|s| - 1][j] == s[j];
      if s[|s| - 1] > s[k] then |s| - 1 else k
  }

  /** Any index that holds the maximum and has only smaller elements before it is ArgMax. */
  lemma ArgMaxUnique(s: seq<real>, k: nat)
    requires k < |s|
    requires forall j :: 0 <= j < |s| ==> s[j] <= s[k]
    requires forall j :: 0 <= j < k ==> s[j] < s[k]
    ensures k == ArgMax(s)
  {
  }

  /** The maximum and the element at the arg-max agree. */
  lemma MaxAtArgMax(s: seq<real>)
    requires |s| > 0
    ensures Max(s) == s[ArgMax(s)]
  {
    var j :| 0 <= j < |s| && s[j] == Max(s);
    assert s[j] <= s[ArgMax(s)];
  }

  /** The maximum exceeds a threshold exactly when some element does. */
  lemma MaxAboveThreshold(s: seq<real>, threshold: real)
    requires |s| > 0
    ensures Max(s) > threshold <==> exists j :: 0 <= j < |s| && s[j] > threshold
  {
    var j :| 0 <= j < |s| && s[j] == Max(s);
  }

  /** Frequency of bin k of an n-point transform at the given sample rate. */
  function BinFrequency(k: nat, n: nat, sampleRate: int): (f: real)
    requires n > 0
  {
    (k as real) * (sampleRate as real) / (n as real)
  }

  /** f is the frequency of bin k of an n-point transform: k / n of the sample rate. */
  predicate IsBinFrequency(f: real, k: nat, n: nat, sampleRate: int)
  {
    f * (n as real) == (k as real) * (sampleRate as real)
  }

  /** Bin k of n lies k / n of the way up to the sample rate. */
  lemma BinFrequencyScaled(k: nat, n: nat, sampleRate: int)
    requires n > 0
    ensures IsBinFrequency(BinFrequency(k, n, sampleRate), k, n, sampleRate)
  {
    var x, nr := (k as real) * (sampleRate as real), n as real;
    assert x / nr * nr == x;
  }

  /** A bin of the lower half lies at or above 0 Hz and below half the sample rate. */
  lemma BinBelowNyquist(k: nat, n: nat, sampleRate: int)
    requires k < n / 2 && sampleRate > 0
    ensures 0.0 <= BinFrequency(k, n, sampleRate)
    ensures 2.0 * BinFrequency(k, n, sampleRate) < sampleRate as real
  {
    var kr, nr, sr := k as real, n as real, sampleRate as real;
    var f := BinFrequency(k, n, sampleRate);
    BinFrequencyScaled(k, n, sampleRate);
    assert f * nr == kr * sr;
    assert 2.0 * kr < nr;
    assert 2.0 * kr * sr < nr * sr;
    assert 2.0 * f * nr < sr * nr;
  }

  /** The positive-frequency axis: the first n / 2 entries of fftfreq are the bin frequencies. */
  lemma PositiveFrequencies(n: nat, sampleRate: int, k: nat)
    requires n > 0 && k < n / 2
    ensures PositiveHalf(FftFreq(n, sampleRate))[k] == BinFrequency(k, n, sampleRate)
  {
  }

  /** Lines 29-37 of `detect_tone`: the gate on the maximum of the positive half
      and the first bin holding it. */
  function PickPeak(spectrum: seq<real>, sampleRate: int, threshold: real): (p: Peak)
    requires |spectrum| >= 2 && sampleRate > 0
    ensures p.Peak? <==> exists j :: 0 <= j < |spectrum| / 2 && spectrum[j] > threshold
    ensures p.Peak? ==> p.bin < |spectrum| / 2
    ensures p.Peak? ==> forall j :: 0 <= j < |spectrum| / 2 ==> spectrum[j] <= spectrum[p.bin]
    ensures p.Peak? ==> forall j :: 0 <= j < p.bin ==> spectrum[j] < spectrum[p.bin]
    ensures p.Peak? ==> spectrum[p.bin] > threshold
    ensures p.Peak? ==> IsBinFrequency(p.frequency, p.bin, |spectrum|, sampleRate)
    ensures p.Peak? ==> 0.0 <= p.frequency && 2.0 * p.frequency < sampleRate as real
  {
    var positiveFrequencies := PositiveHalf(FftFreq(|spectrum|, sampleRate));
    var positiveMagnitude := PositiveHalf(spectrum);
    MaxAboveThreshold(positiveMagnitude, threshold);
    if Max(positiveMagnitude) > threshold then
      var k := ArgMax(positiveMagnitude);
      PositiveFrequencies(|spectrum|, sampleRate, k);
      BinFrequencyScaled(k, |spectrum|, sampleRate);
      BinBelowNyquist(k, |spectrum|, sampleRate);
      Peak(k, positiveFrequencies[k])
    else
      NoPeak
  }

  /** No bin of the upper half is ever chosen, and the chosen bin is the one a
      direct search for the first maximum finds. */
  lemma PeakIsFirstMaximum(spectrum: seq<real>, sampleRate: int, threshold: real)
    requires |spectrum| >= 2 && sampleRate > 0
    requires PickPeak(spectrum, sampleRate, threshold).Peak?
    ensures PickPeak(spectrum, sampleRate, threshold).bin == ArgMax(PositiveHalf(spectrum))
  {
    var p := PickPeak(spectrum, sampleRate, threshold);
    ArgMaxUnique(PositiveHalf(spectrum), p.bin);
  }

  /** `detect_tone` after the transform: the peak, named by `frequency_to_note`.
      `semitonesAboveC0` stands for `12 * log2(f / C0)`. */
  function DetectTone(spectrum: seq<real>, sampleRate: int, threshold: real,
                      semitonesAboveC0: real -> real): (d: Detection)
    requires |spectrum| >= 2 && sampleRate > 0
    ensures d.NoTone? <==> forall j :: 0 <= j < |spectrum| / 2 ==> spectrum[j] <= threshold
    ensures d.Tone? ==> exists k :: 0 <= k < |spectrum| / 2 && spectrum[k] > threshold &&
                          IsBinFrequency(d.frequency, k, |spectrum|, sampleRate)
    ensures d.Tone? ==> IsBinFrequency(d.frequency, ArgMax(PositiveHalf(spectrum)), |spectrum|, sampleRate)
    ensures d.Tone? ==> d.note == FrequencyToNote(d.frequency, semitonesAboveC0)
    ensures d.Tone? ==> (d.note.InvalidFrequency? <==> d.frequency == 0.0)
  {
    match PickPeak(spectrum, sampleRate, threshold)
    case NoPeak => NoTone
    case Peak(_, f) =>
      PeakIsFirstMaximum(spectrum, sampleRate, threshold);
      Tone(f, FrequencyToNote(f, semitonesAboveC0))
  }

  /** The sentinel note appears exactly when the dominant bin is bin 0 (DC). */
  lemma InvalidNoteOnlyAtDc(spectrum: seq<real>, sampleRate: int, threshold: real,
                            semitonesAboveC0: real -> real)
    requires |spectrum| >= 2 && sampleRate > 0
    requires PickPeak(spectrum, sampleRate, threshold).Peak?
    ensures DetectTone(spectrum, sampleRate, threshold, semitonesAboveC0).note.InvalidFrequency?
            <==> PickPeak(spectrum, sampleRate, threshold).bin == 0
  {
    var p := PickPeak(spectrum, sampleRate, threshold);
    var nr, sr := |spectrum| as real, sampleRate as real;
    if p.frequency == 0.0 {
      assert (p.bin as real) * sr == 0.0;
    } else {
      assert p.frequency * nr != 0.0;
    }
  }
}
