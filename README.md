# MrFinance core, modelled in Dafny

MrFinance is a stock-analysis application. It reads a CSV of daily prices, gets
it into a usable shape, computes a set of technical indicators, and hands both
to language-model agents. This project models the two computational parts and
proves properties of them:

- `preprocessing_data` (mrfinance.py) is modelled in `preprocessing.dfy`:
  - parse the `Date` column, in place on the caller's frame;
  - sort the rows by date;
  - reset the index;
  - drop `Vol.`;
  - strip `%` from `Change %` and `,` from `Price`, `Open`, `High` and `Low`;
  - convert those five columns to floats.

  It is an imperative method over `Frame` objects (`Preprocessing.Preprocess`).
  `Preprocessing.Normalise` specifies it as a function of the input table.
- `TechnicalIndicators` (technical_indicators.py) is modelled in `indicators.dfy`:
  - moving average;
  - exponential moving average;
  - RSI;
  - MACD with its signal line;
  - Bollinger bands.

  These are pure functions over numeric columns. `get_all_indicators` writes
  eight columns into the shared frame in place and is a method of the class
  `Indicators.TechnicalIndicators`.

Supporting modules:

- `wrappers.dfy`: `Option`, `Result` and the exceptions the code can raise.
- `series.dfy`: the pandas column operations the indicators are built from:
  - `rolling(w).mean()` and `rolling(w).std()`;
  - `ewm(span, adjust=False).mean()`;
  - `diff()`;
  - cell-wise arithmetic with NaN propagation.
- `frames.dfy`: the table of named columns over a row index, `reset_index`,
  `drop` and the `Frame` class whose `Assign` is `df[name] = column`.
- `sorting.dfy`: `sort_values(by=...)`, one permutation of the rows that orders
  the dates, NaT last.

A numeric cell is an `Option<real>`: `None` is pandas' NaN. A frame cell is a
`Value`: text, a number, a timestamp or NaN.

### Behaviour of the code worth knowing

The model follows the code in each of these points:

- RSI warm-up is `window - 1` rows, not `window`. `diff()` leaves row 0 NaN,
  but `where(delta > 0, 0)` turns that NaN into 0. The first full window
  therefore ends at row `window - 1` (`Indicators.RsiValue`).
- RSI with no losses:
  - With at least one gain it is 100. This comes from the division
    `gain / 0 = inf` and is not special-cased in the code.
  - With neither gains nor losses (a flat window) it is NaN, not 100
    (`Indicators.RsiValue`, `Indicators.RsiHundred`, `Indicators.RsiConstant`).
- The sort is pandas' default, which is not stable. The model picks one order
  of tied rows and proves only that the output is sorted and a permutation.
- `str.replace('%', '')` removes every `%` in the text, not only a trailing one.
- `get_all_indicators` writes eight columns (one of them,
  `Bollinger Moving Average`, a copy of `Moving Average`). The indicators ATR,
  OBV, VWAP, A/D line and CMF have no code; they appear only as prompt text in
  mrfinance.py.
- The caller's `Date` column is replaced even when a later step raises.

## Model

| member | source | states |
|---|---|---|
| Series.RollingMeanAt | technical_indicators.py:18 | row i of `rolling(window).mean()` with `min_periods` equal to the window; its value is characterised by Series.RollingMeanIsMean |
| Series.RollingMean | technical_indicators.py:18 | `rolling(w).mean()` keeps the column length, row i being Series.RollingMeanAt; its values are characterised by the lemmas below |
| Series.RollingMeanIsMean | technical_indicators.py:18 | row i of `rolling(w).mean()` holds a number iff a full window of numbers ends there, and then it is the arithmetic mean of that window |
| Series.RollingMeanWarmUp | technical_indicators.py:18 | on a NaN-free column the first w - 1 rows are NaN and every later row is a number; a column shorter than w is NaN throughout |
| Series.RollingMeanDefinedCount | technical_indicators.py:18 | on n numbers the rolling mean holds exactly n - w + 1 numbers (0 if n < w) |
| Series.RollingMeanBounds | technical_indicators.py:18 | the rolling mean lies within any bounds of its window |
| Series.RollingMeanSlide | technical_indicators.py:18 | sliding the window adds (entering - leaving) / w to the mean |
| Series.RollingMeanNonNegative | technical_indicators.py:35-36 | over non-negative numbers the rolling mean is a number exactly from row w - 1 on and never negative |
| Series.SumRangeNonNegative | technical_indicators.py:35-36 | a window sum of non-negative cells is non-negative, and zero iff every cell is zero |
| Series.RollingStdAt | technical_indicators.py:62 | row i of `rolling(window).std()` with ddof 1; characterised by Series.RollingStdDefined and Series.RollingStdConstant |
| Series.RollingStd | technical_indicators.py:62 | `rolling(w).std()` keeps the column length, row i being Series.RollingStdAt |
| Series.RollingStdDefined | technical_indicators.py:62 | `rolling(w).std()` (ddof 1) is a number iff w >= 2 and the mean is a number, and is never negative |
| Series.RollingStdConstant | technical_indicators.py:62 | a window of one repeated number has standard deviation 0 |
| Series.Diff | technical_indicators.py:34 | `diff()` keeps the column length |
| Series.DiffMove | technical_indicators.py:34 | row i of `diff()` is a number iff rows i - 1 and i are, and then it is the move between them |
| Series.EwmStep | technical_indicators.py:26 | one row of pandas' `adjust=False` recursion keeps the old weight in [0, 1]; its effect on the value is characterised by Series.EwmRecurrence and Series.EwmBounds |
| Series.EwmAt | technical_indicators.py:26 | the recursion state after rows 0..i keeps the old weight in [0, 1] |
| Series.Ewm | technical_indicators.py:26 | `ewm(span, adjust=False).mean()` keeps the column length; its values are characterised by Series.EwmDefinedIff, Series.EwmIsReference, Series.EwmBounds and Series.EwmConstant |
| Series.EwmDefinedIff | technical_indicators.py:26 | the exponentially weighted mean holds a number at row i iff some row up to i does |
| Series.EwmRecurrence | technical_indicators.py:26 | on NaN-free rows: row 0 is the first price, and each later row is alpha x + (1 - alpha) previous |
| Series.EwmIsReference | technical_indicators.py:26 | on a NaN-free column the pandas state recursion equals the textbook EMA recursion |
| Series.EwmBounds | technical_indicators.py:26 | every EMA value lies within the bounds of the numbers seen so far |
| Series.EwmConstant | technical_indicators.py:26 | if every number equals v, every EMA value equals v |
| Series.Alpha | technical_indicators.py:26 | the smoothing factor 2 / (span + 1) lies in (0, 1] |
| Indicators.SimpleMovingAverage | technical_indicators.py:12-18 | `moving_average` keeps the series length |
| Indicators.ExponentialMovingAverage | technical_indicators.py:20-26 | `exponential_moving_average` keeps the series length |
| Indicators.EmaRecurrence | technical_indicators.py:26 | on NaN-free prices the EMA starts at the first price and follows alpha x + (1 - alpha) previous with alpha = 2 / (window + 1) |
| Indicators.EmaConstant | technical_indicators.py:26 | the EMA of a constant series is that constant at every row |
| Indicators.Gains | technical_indicators.py:35 | each gain is a number >= 0; it is 0 iff the change is not a rise, and otherwise it is the change |
| Indicators.Losses | technical_indicators.py:36 | each loss is a number >= 0; it is 0 iff the change is not a fall, and otherwise it is the size of the fall |
| Indicators.AverageGain | technical_indicators.py:35 | the average gain is a number exactly from row window - 1 on and never negative |
| Indicators.AverageLoss | technical_indicators.py:36 | the average loss is a number exactly from row window - 1 on and never negative |
| Indicators.AverageGainZero | technical_indicators.py:34-35 | the average gain is 0 iff no change in the trailing window is a rise |
| Indicators.AverageLossZero | technical_indicators.py:34-36 | the average loss is 0 iff no change in the trailing window is a fall |
| Indicators.RsiAlgebra | technical_indicators.py:37-38 | 100 - 100 / (1 + g / l) equals 100 g / (g + l), which lies in [0, 100) |
| Indicators.RsiCell | technical_indicators.py:37-38 | `100 - 100 / (1 + gain / loss)` is a number iff both averages are and they are not both 0; it is then the gain's share 100 g / (g + l), in [0, 100], with 100 on the `gain / 0 = inf` path |
| Indicators.RsiShare | technical_indicators.py:37-38 | both division paths of line 38 give 100 g / (g + l), which lies in [0, 100] |
| Indicators.RelativeStrengthIndex | technical_indicators.py:28-38 | `relative_strength_index` keeps the series length |
| Indicators.RsiValue | technical_indicators.py:34-38 | no RSI before row window - 1; from there on RSI is a number iff the window moved, and then it is 100 g / (g + l), within [0, 100] |
| Indicators.RsiHundred | technical_indicators.py:34-38 | RSI is exactly 100 iff the trailing window holds a rise and no fall |
| Indicators.RsiConstant | technical_indicators.py:34-38 | on a constant series RSI is NaN at every row |
| Indicators.Macd | technical_indicators.py:40-52 | both MACD columns keep the series length |
| Indicators.MacdDefined | technical_indicators.py:48-51 | MACD and its signal line are numbers at row t iff some price up to t is |
| Indicators.MacdConstant | technical_indicators.py:48-51 | on a constant series MACD and its signal line are 0 at every row |
| Indicators.BollingerBands | technical_indicators.py:54-69 | the three bands keep the series length |
| Indicators.BollingerShape | technical_indicators.py:61-64 | the middle band is the moving average; upper and lower bands are numbers iff window >= 2 and the mean is; they are symmetric about the middle at distance numStd times the rolling std, and ordered when numStd >= 0 |
| Indicators.BollingerConstant | technical_indicators.py:61-64 | over a window of one repeated price all three bands equal it |
| Indicators.NumericColumn | technical_indicators.py:18 | a frame column can be aggregated iff every cell is a number or NaN, and then it is read cell for cell |
| Indicators.IndicatorColumns | technical_indicators.py:76-85 | the new columns are exactly the eight indicator names, none of them `Price`, each as long as the prices; `Bollinger Moving Average` equals `Moving Average` |
| Indicators.WrittenInTurn | technical_indicators.py:76-85 | the eight successive column assignments amount to a union in which the new columns win |
| Indicators.TechnicalIndicators.constructor | technical_indicators.py:4-10 | the object holds the caller's frame, not a copy, and reads column `Price` |
| Indicators.TechnicalIndicators.Prices | technical_indicators.py:18 | reading the price column fails iff it is absent or holds a non-numeric cell |
| Indicators.TechnicalIndicators.GetAllIndicators | technical_indicators.py:71-86 | if the price column cannot be read, it raises that error and the frame is unchanged; otherwise the same frame is returned, with its index kept, every other column kept, and the eight indicator columns computed from the prices added or replaced |
| Frames.ResetIndex | mrfinance.py:113 | `reset_index(drop=True)` keeps the columns and puts the rows on the index 0..n-1 |
| Frames.Drop | mrfinance.py:114 | `drop` raises `MissingColumn` iff the column is absent; otherwise it removes exactly that column |
| Frames.Frame.constructor | mrfinance.py:110-113 | a new frame holds the given table |
| Frames.Frame.Assign | mrfinance.py:107 | `df[name] = column` replaces or adds that column and changes nothing else |
| Sorting.DateLeTotal | mrfinance.py:110 | the date order is total on parsed dates |
| Sorting.DateLeTransitive | mrfinance.py:110 | the date order is transitive |
| Sorting.Insert | mrfinance.py:110 | inserting a row position adds exactly that position |
| Sorting.InsertionOrder | mrfinance.py:110 | the order of a prefix lists each of its rows exactly once |
| Sorting.SortOrder | mrfinance.py:110 | the sort order is a permutation of the rows |
| Sorting.InsertSorted | mrfinance.py:110 | inserting into a date-ordered row list keeps it ordered |
| Sorting.InsertionOrderSorted | mrfinance.py:110 | the order of every prefix is date-ordered |
| Sorting.SortOrderSorted | mrfinance.py:110 | the sorted date column is non-decreasing, NaT last |
| Sorting.PermuteInsertionOrder | mrfinance.py:110 | a column rearranged by a prefix order has the cells of that prefix |
| Sorting.PermuteSortOrder | mrfinance.py:110 | every column rearranged by the sort order is a permutation of itself |
| Sorting.SortValues | mrfinance.py:110 | `sort_values` keeps the columns and rearranges every column and the index by the one date order |
| Preprocessing.Strip | mrfinance.py:115-120 | the stripped text holds no c, and is no longer than the original |
| Preprocessing.StripConcat | mrfinance.py:115-120 | stripping works piece by piece |
| Preprocessing.StripCounts | mrfinance.py:115-120 | every character other than c is kept as often as it occurs |
| Preprocessing.StripUnchanged | mrfinance.py:115-120 | stripping changes the text iff the text holds c |
| Preprocessing.StripIdempotent | mrfinance.py:115-120 | stripping twice is stripping once |
| Preprocessing.ToDatetimeCell | mrfinance.py:107 | a parsed cell is a timestamp or NaT |
| Preprocessing.ToDatetimeColumn | mrfinance.py:107 | `pd.to_datetime` succeeds iff every cell is NaN, a timestamp or parsable text (else `MalformedDate`); text becomes its timestamp and other cells stay |
| Preprocessing.StrReplaceCell | mrfinance.py:115-120 | after `.str.replace` a cell is text without c, or NaN |
| Preprocessing.StrReplaceColumn | mrfinance.py:115-120 | `.str` raises `NotText` iff a non-empty column holds no string; otherwise each cell is replaced |
| Preprocessing.AsFloatCell | mrfinance.py:115-120 | a converted cell is a number or NaN |
| Preprocessing.AsFloatColumn | mrfinance.py:115-120 | `astype(float)` succeeds iff every cell converts (else `MalformedNumber`), cell for cell |
| Preprocessing.CleanCell | mrfinance.py:115-120 | a text cell becomes the number its stripped text parses to; any other cell becomes NaN |
| Preprocessing.CleanedColumn | mrfinance.py:115-120 | the cleaned column is the cleaned cells, row for row |
| Preprocessing.ParseDates | mrfinance.py:107 | parsing the dates succeeds iff `Date` exists and every cell parses; only `Date` changes, to date keys |
| Preprocessing.Converted | mrfinance.py:115-120 | cleaning one column succeeds iff the column exists, holds strings and converts; the three errors are `MissingColumn`, `NotText` and `MalformedNumber` |
| Preprocessing.CleanColumn | mrfinance.py:115-120 | `df[name] = df[name].str.replace(c, '').astype(float)` succeeds iff the column is convertible, and replaces exactly that column |
| Preprocessing.CleanColumns | mrfinance.py:116-120 | the loop keeps the row index |
| Preprocessing.CleanColumnsSucceeds | mrfinance.py:116-120 | the loop over distinct names succeeds iff every named column is convertible |
| Preprocessing.CleanColumnsResult | mrfinance.py:116-120 | after the loop the named columns are cleaned, and every other column and the set of names are unchanged |
| Preprocessing.FailurePersists | mrfinance.py:118-120 | once a column fails, later columns do not change the outcome |
| Preprocessing.ConvertiblePermuted | mrfinance.py:110-120 | whether a column can be cleaned does not depend on the order of its rows |
| Preprocessing.Reordered | mrfinance.py:107-114 | parse, sort, reset and drop succeed iff the dates parse and `Vol.` exists; the result is aligned, on index 0..n-1, with every column but `Vol.`; its columns are characterised by Preprocessing.ReorderedEffect |
| Preprocessing.ReorderedEffect | mrfinance.py:107-114 | parse, sort, reset and drop succeed iff the dates parse and `Vol.` exists (else `MissingColumn("Vol.")`); then every column but `Vol.` is kept, rearranged by the date order, on index 0..n-1 |
| Preprocessing.ReorderedConvertible | mrfinance.py:110-120 | reordering does not change which columns can be cleaned |
| Preprocessing.CleaningSucceeds | mrfinance.py:115-120 | after the reordering, cleaning succeeds iff `Change %` and the four price columns of the input are convertible |
| Preprocessing.CleanAll | mrfinance.py:115-120 | the cleaning steps on the reordered table keep it aligned on the same index; characterised by Preprocessing.CleanAllKeeps and Preprocessing.CleanAllConverts |
| Preprocessing.CleanAllKeeps | mrfinance.py:115-120 | the cleaning keeps the index, the column names and every unconverted column |
| Preprocessing.CleanAllConverts | mrfinance.py:115-120 | each of the five converted columns is its cleaned input column |
| Preprocessing.CleaningEffect | mrfinance.py:107-120 | the result is the reordered table with exactly the five converted columns cleaned |
| Preprocessing.Normalise | mrfinance.py:105-122 | `preprocessing_data` as a function of the input table: a returned table is aligned on index 0..n-1; when it succeeds and what it holds is characterised by the Normalise lemmas below, and Preprocessing.Preprocess equals it |
| Preprocessing.NormaliseSucceeds | mrfinance.py:105-122 | `preprocessing_data` returns a table iff `Date` exists and parses, `Vol.` exists, and the five converted columns exist, hold strings and convert |
| Preprocessing.NormaliseShape | mrfinance.py:105-122 | the result keeps every row once (a permutation), on index 0..n-1, with every column but `Vol.` |
| Preprocessing.NormaliseSorted | mrfinance.py:107-113 | the returned dates are the parsed dates in non-decreasing order, NaT last |
| Preprocessing.NormalisePermuted | mrfinance.py:110-114 | every unconverted column other than `Date` is the input column rearranged by the date order |
| Preprocessing.NormaliseCleanedColumn | mrfinance.py:110-120 | row i of one converted column is the cleaned cell of input row p[i], where p is the date order |
| Preprocessing.NormaliseCleaned | mrfinance.py:110-120 | the same for all five converted columns at once |
| Preprocessing.NormaliseNeedsVol | mrfinance.py:114 | without `Vol.` the function raises, with `MissingColumn("Vol.")` once the dates parse |
| Preprocessing.NormalisePassThrough | mrfinance.py:110-114 | an unconverted column comes back with the same cells, as a multiset |
| Preprocessing.CleanPrices | mrfinance.py:116-120 | the loop over the four price columns, on the frame, gives exactly the outcome of the loop function, the same frame on success |
| Preprocessing.Preprocess | mrfinance.py:105-122 | the caller's frame gets its parsed `Date` column when the dates parse and is otherwise untouched; the result is a fresh frame equal to `Normalise` of the input, or the exception `Normalise` gives |

## Left out

- The Streamlit interface, file upload, `pd.read_csv` and the agent workflow
  (mrfinance.py:126-182, queryworkflow.py) are I/O and calls into language
  models. queryworkflow.py is not part of this model.
- The prompt dictionaries of mrfinance.py:15-103 are data for the agents, not
  computation.
- Floating point: numbers are reals. Rounding, infinities and the IEEE
  behaviour of `gain / 0` are not modelled; the division outcomes pandas
  produces (100 via `inf`, NaN via `0 / 0`) are written out case by case.
- Square root: `rolling().std()` takes the square root as a parameter `sqrt`.
  The lemmas assume only that it maps 0 to 0 and is non-negative on
  non-negative inputs.
- Date and number parsing: `pd.to_datetime` and `float()` on text are
  parameters that may fail. Their grammars are not modelled, and neither are
  the texts `"nan"` and `"inf"`. A numeric `Date` cell is treated as a parse
  failure.
- Preprocessing.ToDatetimeColumn: date parsing is modelled cell by cell.
  `pd.to_datetime` on a column infers one format from the first non-null
  cell, so cells that each parse alone but in different formats can make line
  107 fail; the model does not capture that.
- Indicators.NumericColumn: a text cell in the price column counts as
  unreadable. pandas' window functions may first cast an object column of
  numeric strings to floats, so `moving_average` and
  `exponential_moving_average` could succeed on such a column and `diff`
  would raise only after those two columns were written. These partial writes
  are not modelled. The program's own caller passes a `Price` column that has
  already gone through `astype(float)` (mrfinance.py:120).
- Indicators.TechnicalIndicators.Prices: for the same reason, any text price
  cell is a failure before any column is written.
- `read_csv`'s type inference is not modelled: the input table is given with
  its cells already typed.
- Column order of a frame is not modelled (columns form a map).
- Sorting.SortOrder: the order among rows with equal dates is one admissible
  choice (pandas' unstable sort gives no promise), so the tie order is not
  stated.
- Indicators.TechnicalIndicators.GetAllIndicators: the price column is read
  once and all eight columns are computed from it. In the code each indicator
  re-reads `Price`, which no write changes, so the result is the same.
- Parameter validation: `get_all_indicators` only uses the default windows
  (20, 14, 12/26/9, and 20 with 2 standard deviations). The column functions
  require windows of at least 1. pandas' own handling of other window values
  (a `ValueError`, or `rolling(0)`) is not modelled.
