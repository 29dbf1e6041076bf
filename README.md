# Piano tester: note detection and quiz scoring

This project models the discrete core of the piano tester `notetester.py`. The
program listens to one block of audio and picks the strongest bin of its
spectrum. If that bin beats a threshold, it names the note with
equal-tempered tuning (A4 = 440 Hz). It also runs a quiz loop that compares
the detected note with a randomly drawn test note and keeps a score.

The model has three modules, one per part of the program:

- `NoteNaming` (`notes.dfy`) is `frequency_to_note`. It holds the 12-name
  table, Python's `round` (round half to even) on reals, and Python's floor
  `//` and `%` by 12. It maps a semitone count to a name and an octave and
  keeps the `"Invalid Frequency"` sentinel for frequencies `<= 0`. The
  floating-point expression `12 * log2(frequency / C0)` is a parameter
  `semitonesAboveC0: real -> real`. Lemmas that need a property of the
  logarithm (doubling the frequency adds 12 semitones, 440 Hz is 57 semitones
  above C0) take it as a precondition on that parameter.
- `ToneDetection` (`detection.dfy`) is the part of `detect_tone` after the
  transform. It takes the magnitude spectrum as a `seq<real>` of length N. It
  models `fftfreq` and the `[:N // 2]` slices, and it models `np.max` and
  `np.argmax` (first index of the maximum). The gate is
  `max > threshold`, and the result is the chosen bin's frequency together
  with the note made from it.
- `Quiz` (`quiz.dfy`) is the `__main__` block. It covers the `--octave` flag,
  `generate_random_note` (random draws become nondeterministic choices), the
  correctness rule, and the `while True` loop that updates `score` and
  `counter`. The loop is a method with a `while` loop over a finite sequence
  of detection outcomes, because the source loop only stops on Ctrl+C.

Facts about the code that shape the model:

- The code has no RMS energy gate and no retry loop for silent blocks.
- `round` sends ties to the even integer.
- There is one threshold (default 0.01), compared with the FFT magnitude.
- A failure inside `detect_tone` is caught and returns a 2-tuple, which
  crashes the caller when it unpacks three values.

`str.lower()` is modelled as ASCII lower-casing. For the two comparisons the
flag makes this gives the same answer. The only non-ASCII characters that
Python lower-cases into ASCII are U+212A (to `k`) and U+0130 (to `i` plus a
combining dot). Neither `k` nor `i` occurs in "no" or "false".

## Model

| member | source | states |
|---|---|---|
| `NoteNaming.RoundHalfEven` | notetester.py:56 | `round(x)` is an integer within 1/2 of x, and it is even when x lies exactly halfway |
| `NoteNaming.RoundHalfEvenUnique` | notetester.py:56 | exactly one integer is a nearest integer with ties to even, so the result of `round` is determined |
| `NoteNaming.RoundNearest` | notetester.py:56 | a value strictly within 1/2 of n rounds to n |
| `NoteNaming.RoundShiftTwelve` | notetester.py:56 | `round(x + 12) == round(x) + 12`; a tie stays a tie and keeps its parity |
| `NoteNaming.FloorDiv12` | notetester.py:57 | `h // 12` is the floor q with 12q <= h < 12q + 12, negative h included |
| `NoteNaming.FloorMod12` | notetester.py:58 | `h % 12` lies in [0, 11] and `12 * (h // 12) + h % 12 == h`, negative h included |
| `NoteNaming.FloorSplit` | notetester.py:57-58 | `(12q + m) // 12 == q` and `(12q + m) % 12 == m` for m in [0, 11] |
| `NoteNaming.SemitoneToNote` | notetester.py:57-60 | h semitones above C0 gives one of the 12 table names; the octave is the floor of h/12, and the name is the table entry at h minus 12 times the octave |
| `NoteNaming.NoteNamesDistinct` | notetester.py:51 | the 12 names of the table are pairwise different |
| `NoteNaming.NoteIndexOfName` | notetester.py:51 | looking up the name at index i gives back i |
| `NoteNaming.SemitoneRoundTrip` | notetester.py:57-60 | turning h into (name, octave) and back into 12 * octave + index gives h |
| `NoteNaming.NoteRoundTrip` | notetester.py:57-60 | the note with index i in octave q is what 12q + i semitones gives |
| `NoteNaming.SemitoneOctaveShift` | notetester.py:57-60 | h + 12 gives the same name as h and an octave exactly one higher |
| `NoteNaming.SemitoneBelowC0` | notetester.py:57-60 | with floor semantics, h = -1 gives B in octave -1 |
| `NoteNaming.FrequencyToNote` | notetester.py:47-60 | the sentinel is returned exactly when frequency <= 0; otherwise the name is one of the 12 table names |
| `NoteNaming.FrequencyToNoteNearest` | notetester.py:56-60 | a positive frequency strictly within half a semitone of n semitones above C0 gets the note of semitone n |
| `NoteNaming.FrequencyOctaveDoubling` | notetester.py:56-60 | if doubling a positive frequency adds 12 semitones, the double has the same name and an octave one higher |
| `NoteNaming.ConcertA` | notetester.py:49-60 | 440 Hz, whose offset lies within half a semitone of 57 above C0 = 440 * 2^-4.75, is A4 |
| `NoteNaming.MiddleC` | notetester.py:49-60 | 261.63 Hz, within half a semitone of 48 above C0, is C4 |
| `ToneDetection.FftFreq` | notetester.py:29 | `fftfreq(N, 1/samplerate)` has N entries; `PositiveFrequencies` states that its first N // 2 entries are k * samplerate / N |
| `ToneDetection.PositiveHalf` | notetester.py:32-33 | `s[:len(s) // 2]` has \|s\| // 2 entries, and each equals the entry of s at the same index |
| `ToneDetection.BinFrequency` | notetester.py:29 | the frequency of bin k of an N-point transform; `BinFrequencyScaled` states f * N == k * samplerate |
| `ToneDetection.Max` | notetester.py:35 | `np.max` is at least every element and equals some element |
| `ToneDetection.ArgMax` | notetester.py:37 | `np.argmax` gives an index holding the maximum; every earlier element is strictly smaller, so it is the first such index |
| `ToneDetection.ArgMaxUnique` | notetester.py:37 | any index with those two properties is the arg-max |
| `ToneDetection.MaxAtArgMax` | notetester.py:35-37 | the maximum is the element at the arg-max |
| `ToneDetection.MaxAboveThreshold` | notetester.py:35-36 | the maximum is above the threshold exactly when some element is |
| `ToneDetection.BinFrequencyScaled` | notetester.py:29 | bin k of an N-point transform has frequency f with f * N == k * samplerate |
| `ToneDetection.BinBelowNyquist` | notetester.py:32 | a bin below N/2 has a frequency in [0, samplerate / 2) |
| `ToneDetection.PositiveFrequencies` | notetester.py:29-32 | the first N // 2 entries of `fftfreq(N, 1/samplerate)` are k * samplerate / N |
| `ToneDetection.PickPeak` | notetester.py:29-41 | a peak is reported exactly when some bin below N/2 is above the threshold; then the bin is below N/2, holds the maximum of that half, every earlier bin is strictly smaller, its frequency is bin * samplerate / N, and that frequency is in [0, samplerate / 2) |
| `ToneDetection.PeakIsFirstMaximum` | notetester.py:33-37 | the chosen bin is `argmax` of the first N // 2 magnitudes |
| `ToneDetection.DetectTone` | notetester.py:35-41 | "no tone" exactly when every bin below N/2 is at most the threshold; otherwise the frequency is that of the first bin holding the maximum of the lower half (`np.argmax`), which is above the threshold; the note is `frequency_to_note` of that frequency, and the note is the sentinel exactly when the frequency is 0 |
| `ToneDetection.InvalidNoteOnlyAtDc` | notetester.py:37-38 | the sentinel note comes up exactly when the dominant bin is bin 0 |
| `Quiz.LowerIsWord` | notetester.py:76 | `s.lower()` equals a lower-case word exactly when s spells that word with any letters capitalised |
| `Quiz.Lower` | notetester.py:76 | `str.lower()` keeps the length; `LowerIsWord` states when it yields a given lower-case word |
| `Quiz.UsingOctave` | notetester.py:76-79 | octave mode is off exactly when `--octave` is absent or spells "no" or "false" ignoring case, and on otherwise |
| `Quiz.ZeroTextMeansOctave` | notetester.py:76-79 | "0", "yes" and "true" turn octave mode on, because `== 0` never holds for a string; "No", "FALSE" and an absent flag turn it off |
| `Quiz.GenerateRandomNote` | notetester.py:62-67 | the test note has a name from the table and an octave in [2, 5] |
| `Quiz.Correct` | notetester.py:96 | a round is correct exactly when the names are equal and, in octave mode, the octaves are equal |
| `Quiz.OctaveModeIsStricter` | notetester.py:96 | a round correct in octave mode is also correct without it |
| `Quiz.Tested` | notetester.py:95 | `if frequency:` holds for a detected tone whose frequency is not 0.0; `RoundEffect` and `UntestedRoundsChangeNothing` state what that means for score and counter |
| `Quiz.TestedRounds` | notetester.py:95-109 | helper count of the rounds that change `counter`, bounded by the number of rounds; the per-round facts about it are in `RoundEffect` |
| `Quiz.Hits` | notetester.py:95-97 | the number of rounds that raise `score` is at most the number that raise `counter` |
| `Quiz.RoundEffect` | notetester.py:95-112 | one more round raises the score by exactly 1 when it has a non-zero detected frequency and is correct, and by 0 otherwise; it raises the tested count by exactly 1 when the frequency is non-zero, and by 0 for no tone or 0.0 |
| `Quiz.OctaveModeScoresNoMore` | notetester.py:96-97 | for the same rounds, octave mode never scores more |
| `Quiz.UntestedRoundsChangeNothing` | notetester.py:95-112 | rounds with no tone or a 0.0 Hz frequency leave both score and counter as they were |
| `Quiz.QuizSession` | notetester.py:82-112 | after the rounds, every drawn test note is valid, score is the number of tested correct rounds, counter is 1 plus the number of tested rounds, and 0 <= score < counter |

## Left out

- Audio capture (`sd.rec`, line 22) is device I/O. The magnitude spectrum is an input sequence, and its length N stands for `int(samplerate * duration)`.
- The Hann window, the FFT and `np.abs` (lines 25-31) are floating-point numerics in library code. The frequency axis is exact real arithmetic, not floats.
- `np.log2` and the constant C0 (lines 50, 56) are irrational and use floats. `12 * log2(f / C0)` is the parameter `semitonesAboveC0`. Only the rounding after it is modelled exactly.
- NaN and infinite magnitudes or offsets have no counterpart in `real`. This includes `np.argmax` returning the first NaN and a NaN frequency being truthy.
- `ToneDetection.PickPeak`, `ToneDetection.DetectTone`: they require N >= 2 and a positive sample rate. With an empty positive half, `np.max` raises. With a zero sample rate, `1 / samplerate` raises. Both exceptions are caught at lines 43-45, which return a 2-tuple that crashes the unpacking at line 93. That crash is not modelled as a result.
- When bin 0 wins, `frequency_to_note(0.0)` returns the string `"Invalid Frequency"`. Unpacking that string at line 38 raises, which leads to the same 2-tuple crash. The model keeps the value `Tone(0.0, InvalidFrequency)` in its place and does not model the crash. The scoring loop treats the 0.0 frequency as "no tone".
- `generate_random_note` draws with `np.random.choice` and `np.random.randint`. These are nondeterministic choices in the model, and uniformity is not modelled.
- `argparse` is not modelled. The flag arrives as `Absent` or `Given(text)`.
- Printing is not modelled. This includes the final message at line 116, which prints `counter` as the number of tests. `counter` starts at 1, so that number is one more than the tests scored (`Quiz.QuizSession` states counter == 1 + tested rounds).
- Ctrl+C handling (lines 114-116) is not modelled. A session is modelled as a finite sequence of rounds.
- `Quiz.Lower`: lower-cases ASCII letters only, unlike Python's Unicode `str.lower`. The introduction explains why the flag gives the same answer either way.
