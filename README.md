# Invoice field post-processing, modelled in Dafny

`utils/processing.py` holds a few fail-soft normalizers that clean the raw
fields of an extracted invoice record (a cost, a horsepower figure, a
bounding box) and turn per-token scores into a confidence value. This
project models them and proves what they guarantee:

- **`clean_cost`** turns a cost of unknown shape into an integer. A number
  passes through. Text is read as the number spelled by its decimal digits,
  in order, with everything else dropped. Any other shape gives 0.
- **`sanity_check_hp`** accepts a horsepower candidate only when it is
  truthy, converts to an integer, and lies in 15..100. A failed conversion
  is a rejection, not an error.
- **`smart_extract_hp`** has two strategies. It first takes the first run
  of digits in a text `horse_power` field. Only when that fails to
  validate does it scan `model_name` for a two-digit number followed by an
  `HP` or `H.P.` mark, in either case, and return the first match that
  validates.
- **`calculate_confidence`**, from the per-token maximum probabilities on.
  It sorts them ascending in place, keeps the lowest quarter (at least one
  value), and averages them.
- **`validate_bbox`** coerces a bounding-box field to the record
  `{present, bbox}`. A non-empty dict is filled in place and returned
  itself, so callers see the mutation.

Files and modules:

- `values.dfy` (`Values`): raw field values as a tagged union (`Absent`
  stands for `None` and for a missing key, `Bool`, `Int`, `Text`, `List`,
  `Dict`). It also holds Python truthiness and decimal digits, with the
  value a digit string spells and the shortest spelling of a number.
- `normalizers.dfy` (`Normalizers`): Python's `int()` on those values,
  `clean_cost` and `sanity_check_hp`.
- `hp_extract.dfy` (`HpExtract`): `smart_extract_hp`, with a hand-written
  matcher for the regular expression and for `findall`'s left-to-right,
  non-overlapping scan.
- `confidence.dfy` (`Confidence`): a specification function (mean of the
  lowest `Cutoff` values of the sorted input) and the imperative
  `calculate_confidence` over an array. The array is sorted in place by
  insertion sort and averaged in a loop.
- `bbox.dfy` (`BBox`): a `DictObject` class for the mutable Python dict and
  the `ValidateBBox` method that fills it in place.

A reader of the docstring ("normalizes asset cost to integer") may expect a
non-negative result. The code passes an integer through unchanged, so a
negative integer stays negative, and the model follows the code:
`Normalizers.CleanCost` proves that a negative result comes only from an
integer input.

## Model

| member | source | states |
|---|---|---|
| Values.Truthy | utils/processing.py:19 | the falsy values are exactly `None`, `False`, 0 and the empty text, list and dict (the `not` tests of lines 19, 39 and 84) |
| Values.Get | utils/processing.py:29 | a present key gives its entry, a missing key gives `None` |
| Values.GetOr | utils/processing.py:38 | a present key gives the same as `Get`, a missing key gives the default |
| Values.DecimalValue | utils/processing.py:12 | the value a digit string spells, below 10^length (the `int()` of a digit string at lines 12, 21, 33 and 44) |
| Values.Digits | utils/processing.py:11 | the digits of the text in order; empty exactly when the text has no digit |
| Values.DecimalRoundTrip | utils/processing.py:12 | reading back the decimal spelling of a number gives the number (what `int(str)` relies on) |
| Normalizers.PyInt | utils/processing.py:21 | an integer converts to itself, `True`/`False` to 1/0; text converts exactly when it is non-empty and all digits, to the value the digits spell; absent, list and dict values fail |
| Normalizers.PyIntOfDecimal | utils/processing.py:21 | the decimal spelling of any number converts back to that number |
| Normalizers.CleanCost | utils/processing.py:6-13 | integers pass through, booleans give 1/0, text gives a value below 10^(number of its digits) and 0 when it has none, other shapes give 0; a negative result only comes from an integer |
| Normalizers.CleanCostReadsSpelledNumber | utils/processing.py:10-12 | a number written between digit-free text (currency signs, separators) is read back exactly |
| Normalizers.CleanCostAppend | utils/processing.py:11-12 | the digits of a concatenation are read as the left part's digits shifted past the right part's |
| Normalizers.CleanCostExamples | utils/processing.py:6-13 | "$12,345" gives 12345, empty text 0, an absent value 0, `True` 1, -7 stays -7 |
| Normalizers.SanityCheckHp | utils/processing.py:16-24 | accepted iff truthy, convertible and in 15..100; an accepted value is the converted one |
| Normalizers.SanityCheckHpInt | utils/processing.py:19-22 | on integers the validator is exactly the range test 15..100 |
| Normalizers.SanityCheckHpDecimal | utils/processing.py:19-22 | the decimal spelling of n is accepted iff 15 <= n <= 100, with value n |
| Normalizers.SanityCheckHpLeadingZero | utils/processing.py:21 | a leading zero on a digit string does not change the verdict |
| Normalizers.SanityCheckHpRejectsNonDigitText | utils/processing.py:21-24 | text with any non-digit character is rejected, not an error |
| Normalizers.SanityCheckHpExamples | utils/processing.py:16-24 | 50, 15 and 100 are accepted, 14, 101 and 0 rejected; "abc", absent and `True` are rejected, "75" gives 75 |
| HpExtract.LeadingDigits | utils/processing.py:31 | the maximal digit prefix: all digits, a prefix, followed by a non-digit or the end |
| HpExtract.FirstDigitRun | utils/processing.py:31 | the search yields a non-empty digit run, and finds none exactly when the text has no digit |
| HpExtract.FirstDigitRunLocated | utils/processing.py:31-33 | the run found is the one after the digit-free prefix, extending as far as the digits go |
| HpExtract.DirectCandidate | utils/processing.py:29-33 | non-text and digit-free text are left as they are; otherwise the field becomes a non-negative integer |
| HpExtract.SkipSpace | utils/processing.py:41 | the `\s*` run: everything skipped is whitespace, and it stops at a non-blank or the end |
| HpExtract.UnitEnd | utils/processing.py:40-41 | a unit mark starts with an H in either case, contains no digit and ends within the text |
| HpExtract.MatchEnd | utils/processing.py:40-41 | a match at p has two digits at p, no digit after them, and ends within the text at least four characters on |
| HpExtract.MatchEndIsPattern | utils/processing.py:40-41 | the greedy matcher finds a match at p exactly when two digits, possibly no whitespace and `HP`/`H.P.` in either case occur there |
| HpExtract.ValidMatchAtMeans | utils/processing.py:40-44 | a position is valid exactly when the pattern occurs there and its two digits spell a number in 15..100; the captured group's value is ten times the first digit plus the second |
| HpExtract.FindAll | utils/processing.py:40-41 | the reported positions are matches, strictly increasing |
| HpExtract.NoMatchInsideMatch | utils/processing.py:41 | no match starts inside another match |
| HpExtract.FindAllReportsEveryMatch | utils/processing.py:40-41 | `findall` reports a position iff the pattern matches there |
| HpExtract.FirstValid | utils/processing.py:42-44 | what the loop returns lies in 15..100 |
| HpExtract.Group | utils/processing.py:42-44 | the captured group is two digits |
| HpExtract.ScanFindsEarliest | utils/processing.py:40-44 | the loop returns the verdict at the earliest valid match |
| HpExtract.ScanFindsNothing | utils/processing.py:40-45 | without a valid match the loop returns nothing |
| HpExtract.ScanFindsSome | utils/processing.py:40-44 | any valid match makes the loop return a value |
| HpExtract.ModelNameHpEarliest | utils/processing.py:40-44 | strategy 2 returns the two digits at the earliest position whose match validates |
| HpExtract.ModelNameHpNone | utils/processing.py:40-45 | strategy 2 returns nothing iff no position validates |
| HpExtract.ModelNameHp | utils/processing.py:40-44 | strategy 2 on a text: any result lies in 15..100 |
| HpExtract.Fallback | utils/processing.py:38-39 | an absent, empty or non-text `model_name` gives nothing; a result lies in 15..100 |
| HpExtract.SmartExtractHp | utils/processing.py:27-45 | every result lies in 15..100 |
| HpExtract.DirectRunWins | utils/processing.py:29-36 | a validating first digit run of `horse_power` is the result, whatever `model_name` holds |
| HpExtract.OnlyFirstRunTried | utils/processing.py:29-35 | the result is as if `horse_power` held only the number of its first digit run |
| HpExtract.DigitlessFieldFallsBack | utils/processing.py:30-38 | a digit-free text `horse_power` hands the decision to `model_name` |
| HpExtract.DirectResult | utils/processing.py:35-36 | when the strategy-1 candidate passes the validator, it is the result, whatever its shape |
| HpExtract.FallbackResult | utils/processing.py:35-45 | when strategy 1 fails the result is strategy 2 on non-empty text and nothing otherwise |
| HpExtract.ExtractExampleDirect | utils/processing.py:29-36 | "75 HP engine" in `horse_power` gives 75 |
| HpExtract.ExtractExampleModelName | utils/processing.py:38-44 | "Model X 60HP Turbo" in `model_name` gives 60 |
| HpExtract.ExtractExampleThreeDigits | utils/processing.py:40-44 | in "120HP" the match starts at the second digit and gives 20 |
| HpExtract.ExtractExampleNone | utils/processing.py:38-45 | a model name without a match gives nothing |
| Confidence.Sort | utils/processing.py:68 | the result is ascending, a permutation of the input and of the same length |
| Confidence.Mean | utils/processing.py:76 | `np.mean`: the mean times the count is the sum |
| Confidence.Confidence | utils/processing.py:53-76 | no tokens give 0; its other properties are the lemmas below |
| Confidence.Cutoff | utils/processing.py:72 | `max(1, n div 4)`: between 1 and n for n >= 1, and when it is 2 or more it is the floor of n/4 |
| Confidence.CutoffInRange | utils/processing.py:72 | the cutoff is 1 below 8 tokens and n/4 from 8 on, always within 1..n |
| Confidence.HardestSliceIsSmallest | utils/processing.py:67-76 | the averaged values and the rest split the input, and none averaged exceeds any left out |
| Confidence.ConfidenceIsMeanOfSmallest | utils/processing.py:68-76 | any split into `Cutoff` lowest values and the rest gives the confidence as the mean of the low part, whatever its order |
| Confidence.ConfidencePermutationInvariant | utils/processing.py:67-76 | the order in which tokens were generated does not change the confidence |
| Confidence.ConfidenceSingle | utils/processing.py:72-76 | one token gives its own probability |
| Confidence.ConfidenceAtLeast | utils/processing.py:72-76 | a lower bound of all probabilities bounds the confidence from below |
| Confidence.ConfidenceAtMostMean | utils/processing.py:70-76 | the confidence never exceeds the mean over all tokens |
| Confidence.ConfidenceInUnitInterval | utils/processing.py:70-76 | probabilities in [0, 1] give a confidence in [0, 1] |
| Confidence.SortAscending | utils/processing.py:68 | the array ends ascending and a permutation of its old contents |
| Confidence.SiftDown | utils/processing.py:68 | one insertion step extends the sorted prefix by one and keeps the contents |
| Confidence.MeanOfPrefix | utils/processing.py:73-76 | the loop's result is the mean of the first k entries |
| Confidence.CalculateConfidence | utils/processing.py:53-76 | the result is 0 for no tokens and otherwise the mean of the `Cutoff` lowest probabilities |
| BBox.IsZeroBox | utils/processing.py:92 | a zero box is a four-entry list, the default box is one, and a box whose first entry is non-zero is not |
| BBox.DefaultEntries | utils/processing.py:83 | exactly the keys `present` and `bbox`, with `present` false and the zero box |
| BBox.ListEntries | utils/processing.py:86-87 | a list gives a present record whose box is the list exactly when it has four entries |
| BBox.FilledEntries | utils/processing.py:89-92 | every entry is kept, a missing box becomes the zero box, a missing `present` says whether the box is non-zero |
| BBox.Validated | utils/processing.py:81-94 | the returned record always has `present` and `bbox` |
| BBox.DictObject.FillMissing | utils/processing.py:89-92 | the record's new contents are its old contents filled as above |
| BBox.ValidateBBox | utils/processing.py:81-94 | the returned record's contents are the normalized field; a non-empty dict is the same object, filled in place; otherwise the record is fresh and the argument is untouched |
| BBox.ValidatedDefault | utils/processing.py:83-85 | a falsy field, or one neither list nor dict, gives `present` false and the zero box |
| BBox.ValidatedList | utils/processing.py:86-87 | a non-empty list is always present; its box is the list only with four entries |
| BBox.ValidatedDict | utils/processing.py:88-93 | a non-empty dict keeps all entries, gains only the missing keys, and a derived `present` is true iff a box was given and is non-zero |
| BBox.ValidatedIdempotent | utils/processing.py:81-94 | normalizing a normalized record changes nothing |
| BBox.ValidatedExamples | utils/processing.py:81-94 | `None`, a four-entry list, a three-entry list, an empty dict and a dict with only a box give the records stated |

## Left out

- Confidence.CalculateConfidence: takes each step's maximum probability as given. The float32 cast, the softmax and the maximum over the vocabulary are tensor library calls and are not modelled.
- Confidence.CalculateConfidence: computes over exact reals. The floating-point sum in the mean and the final rounding to four decimals are not modelled.
- Confidence.Cutoff: models `int(n * 0.25)` as the floor of n/4, taken at least 1. The two agree for every list length a float represents exactly.
- The unreachable second emptiness test of `calculate_confidence` has no branch in the model. The first test already returned for an empty input.
- Normalizers.CleanCost: covers no float input. Truncation of a float by `int()` is not modelled.
- Normalizers.CleanCost: reads digit strings of any length. Python's `int()` refuses a decimal string of more than 4300 digits by default and `clean_cost` does not catch that error, so the original raises where the model returns the number.
- HpExtract.DirectCandidate: reads a first digit run of any length. For a run of more than 4300 digits the original's `int()` raises an uncaught error, where the model converts it and `SmartExtractHp` goes on to `model_name`.
- Normalizers.SanityCheckHp: sees no float input. Python's `int(75.5)` is 75, so the original accepts a float `horse_power` of 75.5 and `smart_extract_hp` returns 75; the model has no float values.
- BBox.IsZero: counts only the integer 0 and `False` as zero. A float box `[0.0, 0.0, 0.0, 0.0]` equals `[0, 0, 0, 0]` in Python and is marked not present; the model has no float values.
- Normalizers.PyInt: accepts only plain ASCII digit strings. Python's `int()` also accepts surrounding whitespace, a sign and underscores between digits.
- Values.IsDigit: is ASCII `0`-`9` only. Python's `\d` also matches other Unicode decimal digits.
- HpExtract.IsSpace: is the ASCII whitespace that `\s` matches. Other Unicode spaces are left out, and case-insensitive matching covers only the letters `H` and `P`.
- Values.Truthy: covers only the shapes of `Value`. Truthiness of other Python objects is out of scope.
- BBox.FilledEntries: a map has no key order. A Python dict keeps insertion order: the default and list records hold `present` before `bbox`, and a filled dict gets `bbox`, then `present`, after its existing keys. A caller that serializes the record sees that order, which the model does not capture.
- BBox.ListEntries: copies a four-entry list by value. The original returns the caller's list object itself, so later changes to one show in the other; that aliasing is not modelled.
- BBox.ValidateBBox: models only a dict argument as a mutable object. Other mutable arguments are passed as values.
