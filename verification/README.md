# Overtone calculator: a Dafny model

`overtoneCalculator.py` works with the harmonic series of a sound frequency.
It lists the odd multiples (n, 3n, 5n, …) and the even multiples (2n, 4n, 6n, …) of a base frequency
up to 20000 Hz. It counts how many of those multiples two frequencies share. It scans every hundredth
of a hertz from 20.00 Hz to 8372.02 Hz for frequencies that share more than five multiples with the
base, and ranks them by how many they share. It also names the equal-tempered note nearest to a
frequency, with a sign marker for the deviation in cents.

The model is split into six modules:

- `Results` (results.dfy): the `Result` type. Its errors are `NotPositive`, the `ValueError` raised for
  a non-positive base, and `MathDomain`, the `ValueError` that `math.log2` raises for a non-positive
  argument.
- `Multiples` (multiples.dfy): `calculate_multiples`. It is modelled twice:
  - a recursive generator, characterised by `IsSeries`;
  - the source's `while True` loop as a method, proved equal to the generator.
- `Overlap` (overlap.dfy): `count_common_multiples`, as the sizes of the set intersections of the
  two series.
- `Ranking` (ranking.dfy): the scan's tuples, and the stable sort by descending total that
  `list.sort(key=…, reverse=True)` performs.
- `Scanner` (scanner.dfy): `find_all_common_numbers`. The scan is written over an arbitrary scoring
  function and then instantiated with `count_common_multiples`.
- `Notes` (notes.dfy): the `note_frequencies` table, the nearest-note argmin and the sign rule of
  `calculate_note`.

Some choices follow from the arithmetic the source relies on:

- Frequencies are exact `real`s, so a product `n * k` equals another exactly when the two values are
  equal. This is the intended meaning of the source's float set intersection.
- The multiple `n * k` is written `Times(n, k)`, a repeated sum, and `TimesIsProduct` proves it
  equal to the product.
- The step `num = round(num + 0.01, 2)` keeps every scan candidate at the double nearest a hundredth,
  so the scan does not drift. The model takes each candidate to be that hundredth exactly. Candidates
  are integers `c` in hundredths of a hertz, 2000 ≤ c ≤ 837202, with frequency `Hz(c) = c / 100`.
- The note table is a sequence of (name, frequency) pairs in the order of the source's dict literal.
  Python dicts iterate in insertion order, so this is the order the argmin visits. The table is
  written one octave per row.

## Model

| member | source | states |
|---|---|---|
| Multiples.CalculateMultiples | overtoneCalculator.py:37-52 | fails with NotPositive exactly when n <= 0; otherwise returns the series: element i is n times the i-th multiplier (1, 3, 5, … or 2, 4, 6, …), every element is at most 20000, and the next multiple is above 20000 |
| Multiples.CalculateMultiplesLoop | overtoneCalculator.py:39-52 | the while-loop with its break yields the same outcome as the generator: the same error for n <= 0 and the same list otherwise |
| Multiples.SeriesFrom | overtoneCalculator.py:45-50 | from multiplier index i on, each element is the next multiple, all are within 20000, and the multiple after the last is above 20000, which is where the loop breaks |
| Multiples.SeriesUnique | overtoneCalculator.py:43-50 | the element formula, the 20000 bound and the stopping rule leave only one possible list for each base and parity |
| Multiples.SeriesIsResult | overtoneCalculator.py:43-52 | any list meeting that characterisation is exactly what calculate_multiples returns |
| Multiples.IndexInSeries | overtoneCalculator.py:45-48 | the i-th multiple is in the list exactly when it is at most 20000 |
| Multiples.SeriesElements | overtoneCalculator.py:43-50 | every element is n*k for an odd k >= 1 (odd series) or an even k >= 2 (even series), and is at most 20000 |
| Multiples.SeriesIncreasing | overtoneCalculator.py:43-50 | for a positive base the series is strictly increasing |
| Multiples.SeriesComplete | overtoneCalculator.py:45-48 | no multiple n*k of the series' parity that is at most 20000 is missing from the series |
| Multiples.SeriesEmptyIff | overtoneCalculator.py:43-48 | the series is empty exactly when its first multiple (n for odd, 2n for even) is above 20000 |
| Multiples.TimesIsProduct | overtoneCalculator.py:46 | the repeated sum `Times(n, k)`, in which every series contract is phrased, equals the product n * k that the loop computes |
| Multiples.TimesMonotone | overtoneCalculator.py:46 | arithmetic helper for the repeated-sum encoding: for a positive base, a larger multiplier gives a strictly larger product |
| Multiples.TimesCancel | overtoneCalculator.py:46 | arithmetic helper for the repeated-sum encoding: equal products of one positive base come from equal multipliers |
| Multiples.TimesDouble | overtoneCalculator.py:46 | arithmetic helper for the repeated-sum encoding: the k-th multiple of 2n is the 2k-th multiple of n |
| Overlap.CountCommon | overtoneCalculator.py:65-77 | fails with NotPositive exactly when either base is not positive, because calculate_multiples raises; otherwise the total is the odd count plus the even count |
| Overlap.CountCommonCountsCommon | overtoneCalculator.py:67-77 | for any set holding exactly the values up to 20000 that are multiples of one parity of both bases, the count of that parity equals its size |
| Overlap.CommonIsSharedMultiples | overtoneCalculator.py:67-74 | a value is in the common set exactly when it is at most 20000 and is a multiple of the right parity of both bases |
| Overlap.CountCommonSymmetric | overtoneCalculator.py:65-77 | swapping the two bases changes neither the counts nor the error |
| Overlap.CountCommonBounded | overtoneCalculator.py:67-77 | each count is at most the length of either base's series of that parity |
| Overlap.CountCommonSelf | overtoneCalculator.py:67-77 | a base compared with itself shares its whole odd series and its whole even series |
| Overlap.SeriesElementsDistinct | overtoneCalculator.py:67-71 | converting a series to a set loses no element |
| Overlap.CountCommonOctave | overtoneCalculator.py:65-77 | a base and the base an octave below it share no odd multiple, and they share every even multiple of the higher base |
| Overlap.OctaveNoOddCommon | overtoneCalculator.py:67-73 | no odd multiple of 2b is an odd multiple of b |
| Overlap.OctaveEvenContained | overtoneCalculator.py:70-74 | every even multiple of 2b up to 20000 is an even multiple of b |
| Ranking.Insert | overtoneCalculator.py:91 | inserting one tuple yields a permutation of the list plus that tuple |
| Ranking.SortByTotal | overtoneCalculator.py:91 | the sort returns a permutation of its input, ordered by non-increasing total |
| Ranking.SortStable | overtoneCalculator.py:91 | for every total, the tuples with that total keep their original relative order |
| Ranking.SortTiesAscending | overtoneCalculator.py:91 | a list in ascending frequency, once sorted, keeps tuples with equal totals in ascending frequency |
| Ranking.InsertNonIncreasing | overtoneCalculator.py:91 | inserting into a list ordered by non-increasing total keeps that order |
| Ranking.InsertWithTotal | overtoneCalculator.py:91 | insertion puts the new tuple before every existing tuple with the same total |
| Ranking.InsertTiesAscending | overtoneCalculator.py:91 | inserting a tuple of lower frequency than all others keeps equal totals in ascending frequency |
| Scanner.ScanFrom | overtoneCalculator.py:83-89 | the scan succeeds exactly when every candidate other than n scores; the first failure is the error of some candidate's scoring; the kept candidates lie in the range in ascending frequency, each passes (not n, total above 5) and carries its own counts, and no passing candidate is missing |
| Scanner.Rank | overtoneCalculator.py:83-91 | the scan then the sort: the result is ordered by non-increasing total with ties in ascending frequency, and it is exactly the passing candidates with their counts |
| Scanner.FindAllCommonNumbers | overtoneCalculator.py:79-92 | fails with NotPositive exactly when n <= 0; otherwise the result is sorted by non-increasing total, with ties in ascending frequency, and holds exactly the passing candidates of 20.00 to 8372.02 Hz |
| Scanner.FindAllIsRankedScan | overtoneCalculator.py:83-88 | returning NotPositive early for n <= 0 gives the same outcome as scanning, since scoring the first candidate raises |
| Scanner.FindAllCounts | overtoneCalculator.py:85-88 | each kept tuple lies in the range, differs from n, has a total above 5, and holds exactly the counts count_common_multiples gives for its own frequency |
| Scanner.FindAllExactly | overtoneCalculator.py:83-89 | a candidate c of the range appears in the result exactly when c/100 differs from n and it shares more than 5 multiples with n |
| Notes.NearestFrom | overtoneCalculator.py:26-30 | the strict-less argmin over the remaining entries ends on an entry that no entry is strictly closer than, and every earlier entry is strictly farther |
| Notes.Nearest | overtoneCalculator.py:23-30 | the chosen note is in the table, no note is strictly closer to the frequency, and among equally close notes it is the first listed |
| Notes.CalculateNote | overtoneCalculator.py:21-35 | fails with MathDomain exactly when the frequency is not positive (log2 of a non-positive ratio); otherwise names a closest note, the first of any ties |
| Notes.TableAscending | overtoneCalculator.py:4-19 | the table's frequencies are positive and strictly increasing in source order |
| Notes.NearestLowestOfTies | overtoneCalculator.py:26-30 | since the table ascends, a tie between two notes goes to the lower one |
| Notes.NearestTieGoesFirst | overtoneCalculator.py:28 | 16.835 Hz, exactly halfway between C0 and C#0, resolves to C0 |
| Notes.CalculateNoteA4 | overtoneCalculator.py:21-35 | 440 Hz resolves to A4 with zero cents and sign "0" |
| Notes.Sign | overtoneCalculator.py:33 | the marker is "+" exactly when the cents are positive, "" exactly when negative, and "0" exactly when zero |
| Notes.SignOfRatio | overtoneCalculator.py:32-33 | for a log2 that is positive above 1 and negative below 1, the sign is "+" exactly when f is above the note, "" exactly when below, and "0" exactly when equal |
| Notes.SignMatchesPitch | overtoneCalculator.py:21-35 | the sign of calculate_note's result tells whether the frequency is above, below or on its nearest note |

## Left out

- Console input, printing and the program entry (`display_multiple_series` and the script body,
  overtoneCalculator.py:54-63 and 94-107) are input and output, not logic. The caller's cut to the
  first 200 results and its `.2f` formatting are presentation.
- The logarithm is a parameter `log2` of `CalculateNote`. Cents are `1200 * log2(f / note)` with that
  function. Facts about the sign assume only that log2 is positive above 1 and negative below 1
  (`PreservesSign`). Floating-point transcendental accuracy is not modelled.
- Notes.CalculateNote: the contract names the closest note and the error case. The cents value is
  related to the note only through `SignMatchesPitch`, because log2 is a parameter.
- Float behaviour is idealised:
  - Multiples are exact reals, so the set intersections compare exact values, not float products.
  - The scan uses exact hundredths rather than the doubles nearest them, so the drift that `round(…, 2)` corrects does not arise.
  - The comparison `num != n` compares exact values.
  - The nearest-note search compares exact distances to the table's decimal frequencies. The source
    compares float differences of the binary approximations of those values, which can differ at near-ties.
- NaN and infinity are not modelled, because a `real` cannot hold them. The script's `float(input())`
  accepts both. With NaN, neither `n <= 0` nor `result > 20000` holds, so `calculate_multiples` never
  ends. With infinity, it returns an empty list. `calculate_note(inf)` never finds a closer note, so
  reading the note's frequency raises `KeyError`. The model's inputs are finite, and the termination
  measure of `SeriesFrom` relies on that.
- The `kind` argument of `calculate_multiples` is the two-valued `Parity`. In the source any string
  other than `"odd"` selects the even series; the source itself only passes `"odd"` and `"even"`.
- The source never checks `calculate_note`'s frequency itself. A non-positive one makes `math.log2`
  raise `ValueError`, modelled as `MathDomain`. The argmin before it is still computed.
- The scan's cost (835 203 candidates, each building four series) is not modelled; it is a
  performance matter.
