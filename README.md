# Atmospheric composition report — a Dafny model

The program predicts a ten-component vector of atmospheric gas percentages for
an exoplanet (CO2, N2, O2, H2O, CH4, H2, He, SO2, O3, NH3). It rescales that
raw vector so that it sums to one hundred (`100 * raw_output / np.sum(raw_output)`),
then prints a report: one line per gas that pairs the label with its
percentage and a qualitative descriptor. The descriptor comes from a chain of
strict thresholds: above 60 "Dominant gas", above 20 "Major component",
above 5 "Minor component", otherwise "Trace presence".

`atmosphere.dfy` (module `Atmosphere`) models exactly that decision logic:

- `GASES`, the fixed label list, and `Descriptor`, the four buckets in the
  order Trace < Minor < Major < Dominant, with `Text` giving the suffix the
  report prints for each.
- `Classify`, the threshold chain, characterised by the half-open band
  `(Floor, Ceiling]` each bucket covers.
- `Normalize`, the rescaling, on `seq<real>` with a non-zero sum required.
- `ReportOf`, the `zip(GASES, percentages)` loop as a recursive function,
  and `GenerateReport`, the same loop as a method that appends one entry per
  pair and is proved equal to `ReportOf`.
- `AtmosphereReport`, the end of the prediction run: normalize, then report.

Percentages are mathematical reals. The program computes with IEEE doubles, so
"sums to 100" and "idempotent" are the intended behaviour, not bit-exact
results. The classifier only compares numbers, so its properties carry over
exactly.

The report line is modelled as a structured entry `(gas, percent, descriptor)`
rather than as formatted text. In the source the four citation prints after
the report are dedented to module level (server/atmosphere.py:57-63). They
therefore run when the module is loaded, not at the end of `generate_report`,
although the report's own heading for them is printed inside it. The model
follows the code: the citations are not part of the report.

## Model

| member | source | states |
|---|---|---|
| `Atmosphere.Classify` | server/atmosphere.py:45-52 | the descriptor's band contains the percentage: above 60 is Dominant, (20, 60] Major, (5, 20] Minor, at most 5 Trace |
| `Atmosphere.BandsDisjoint` | server/atmosphere.py:45-52 | the four bands do not overlap, so no percentage fits two descriptors |
| `Atmosphere.ClassifyExactlyOne` | server/atmosphere.py:45-52 | every percentage gets a descriptor, and it gets descriptor d exactly when it lies in d's band |
| `Atmosphere.ThresholdsStrict` | server/atmosphere.py:45-52 | the comparisons are strict: exactly 60 is Major, exactly 20 is Minor, exactly 5 is Trace |
| `Atmosphere.ClassifyMonotone` | server/atmosphere.py:45-52 | a larger percentage never receives a lower bucket in the order Trace < Minor < Major < Dominant |
| `Atmosphere.Text` | server/atmosphere.py:46-52 | each descriptor's printed suffix is one of the four literals, and every one begins with a space, an em dash (U+2014) and a space |
| `Atmosphere.TextInjective` | server/atmosphere.py:46-52 | the four printed descriptor suffixes are pairwise distinct |
| `Atmosphere.Sum` | server/atmosphere.py:78 | `np.sum` of the raw vector as the total of its components over reals; the total of nonnegative components is nonnegative |
| `Atmosphere.Shares` | server/atmosphere.py:78 | element-wise `100 * s[i] / t`, with the length kept |
| `Atmosphere.SumShares` | server/atmosphere.py:78 | the scaled components sum to `100 * Sum(s) / t` |
| `Atmosphere.Normalize` | server/atmosphere.py:78 | for a non-zero raw sum, the result has the raw length, every component is the raw one scaled by the same factor 100/sum, and the components sum to exactly 100 |
| `Atmosphere.NormalizePreservesOrder` | server/atmosphere.py:78 | with a positive raw sum, raw[i] <= raw[j] if and only if norm[i] <= norm[j] |
| `Atmosphere.NormalizeReversesOrder` | server/atmosphere.py:78 | the raw output is not guaranteed positive: with a negative raw sum the order of every pair is reversed |
| `Atmosphere.NormalizeNonnegative` | server/atmosphere.py:78 | a nonnegative raw vector with a non-zero sum has a positive sum and normalizes to nonnegative percentages |
| `Atmosphere.NormalizeFixesPercentages` | server/atmosphere.py:77-78 | a vector that already sums to 100 is returned unchanged |
| `Atmosphere.NormalizeIdempotent` | server/atmosphere.py:77-78 | normalizing a normalized vector changes nothing |
| `Atmosphere.ReportOf` | server/atmosphere.py:43-54 | one entry per position, min(number of labels, number of percentages) of them; entry i pairs label i with percentage i and the descriptor of that percentage |
| `Atmosphere.GenerateReport` | server/atmosphere.py:40-54 | the loop over `zip(GASES, percentages)` yields exactly `ReportOf(GASES, percentages)` |
| `Atmosphere.DescriptorIgnoresGas` | server/atmosphere.py:43-52 | two entries with equal percentages get the same descriptor, whatever their gas labels |
| `Atmosphere.ReportDescriptors` | server/atmosphere.py:43-52 | when there are at least as many labels as percentages, the report's descriptors are exactly the classifications of the percentages, in order |
| `Atmosphere.ReportKeepsPercentages` | server/atmosphere.py:43-54 | when there are at least as many labels as percentages, the report carries every percentage through unchanged and in order |
| `Atmosphere.AtmosphereReport` | server/atmosphere.py:78-79 | normalize then report: one entry per gas; entry i is labelled `GASES[i]`, carries the normalized percentage `Normalize(raw)[i]` and that percentage's descriptor, which lies in its band |
| `Atmosphere.ReportSumsTo100` | server/atmosphere.py:77-79 | for a prediction of at most ten components (the model always gives ten), the reported percentages sum to 100 |
| `Atmosphere.AtMostOneDominant` | server/atmosphere.py:45-46 | for a nonnegative raw prediction, at most one gas in the report is "Dominant gas", since two shares above 60 would exceed 100 |
| `Atmosphere.SampleNormalizes` | server/atmosphere.py:78 | the raw vector [70,5,5,5,5,2,2,2,1,1] sums to 98 and normalizes to 100/98 times itself |
| `Atmosphere.SampleDescriptors` | server/atmosphere.py:45-52 | whatever the ten labels, the normalized example is classified Dominant, four times Minor, then five times Trace |
| `Atmosphere.SampleRun` | server/atmosphere.py:43-54 | in that example CO2 is Dominant, N2, O2, H2O and CH4 are Minor (500/98 is just above 5), and the last five gases are Trace |

## Left out

- Console input (`get_input`, server/atmosphere.py:15-26): prompts and `float()` parsing are I/O; a parse error ends the program.
- Training (`train_dummy_model`, server/atmosphere.py:29-37): random data, the scikit-learn regressor fit and the `joblib` dump are library calls and file I/O.
- Prediction (server/atmosphere.py:72-75): the DataFrame, `joblib.load` and `model.predict` are opaque library calls; the raw vector is an arbitrary input of the model. `ESSENTIAL_FEATURES` is therefore not modelled.
- Text rendering of report lines (`{gas:>3}`, `{percent:.2f}`) and the border and heading prints: the report is modelled as structured entries.
- The citation prints (server/atmosphere.py:57-63): constant output, executed at module load and not by `generate_report`.
- Floating-point rounding: percentages are reals, so the model does not capture the drift that makes the real sum only approximately 100.
- Normalize: a zero raw sum is outside its domain (`requires Sum(raw) != 0.0`). The program divides by zero there and produces NaN or infinity; the model does not invent a value for that case.
