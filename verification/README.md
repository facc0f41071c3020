# Yulu bike-sharing data pipeline, modelled in Dafny

This project models the cleaning and feature pipeline of the Yulu case study,
`src/data_processing.py`. It covers the three steps the pipeline runs on the
rental table between loading and saving:

- `basic_clean` normalises the column names with `strip().lower()`, parses
  the `datetime` column, and drops exact duplicate rows, renumbering the
  rows from zero.
- `impute_and_cast` works through seven numeric columns. Each one that is
  present is coerced to numbers and its gaps are filled with the column
  median, or with 0 when there is no median. It then casts the four code
  columns to whole numbers, with 0 for a gap or unreadable text.
- `feature_engineering` adds:
  - the calendar fields of `datetime`;
  - season and weather labels, with "unknown" as the fallback;
  - `count = registered + casual` when `count` is missing;
  - quantile categories for temperature and apparent temperature;
  - fixed right-closed humidity bins.

  Then, if there is no wind-speed category yet, it rewrites the zero wind
  speeds to the median and bins the speeds in three quantile groups.

The table is `Clean.Table`: a row count and a map from column name to a
column of that length. A cell is `None` (pandas' NaN or NaT) or a value:
an exact `real` number, a piece of text, or a parsed timestamp.

`basic_clean` and the per-column operations (label maps, `+`, `pd.cut`,
`pd.qcut`, `replace`, the median) are functions on values, in the modules
`Names`, `Dedup`, `Clean`, `Stats`, `Bins` and `Columns`.

`impute_and_cast` and `feature_engineering` change the data frame in place,
one column at a time. They are methods of the class `Frame.DataFrame`:
`ImputeAndCast` runs the source's two loops, and `FeatureEngineering` runs
its blocks in order. Each method's postcondition ties the object's new
contents to a function on tables, `Frame.Imputed` or `Frame.Engineered`.
The lemmas about those functions state what the pipeline promises:

- no gaps after imputation;
- the labels for every code;
- `count` only when it is missing;
- existing categories never recomputed;
- the median rewrite of zero wind speeds;
- monotone quantile bins.

pandas' own behaviour is written out where the pipeline depends on it:

- `Series.median` skips gaps and averages the two middle values of an even
  count.
- `pd.qcut` takes numpy's linearly interpolated quantiles as bin edges, with
  the lowest edge included.
- `pd.cut` bins are closed on the right.
- `astype(int)` truncates toward zero.
- `drop_duplicates` keeps the first of equal rows and treats two gaps as
  equal. It returns an empty frame (no rows, or no columns) as it is, so a
  table with rows but no columns keeps all of them.

Filling `k` gaps with the median `m` adds exactly `k` cells holding `m`
(`Columns.FillMissingCounts`). When some cells already held `m`, the column
ends up with more than `k` cells equal to `m`.

For the wind speeds 0, 0, 10, 20, 30 the zero rewrite gives 10, 10, 10, 20, 30.
Binning those in three needs four quantile edges, and the lowest two are then
both 10, and `pd.qcut` raises on repeated edges. The model shows that this
input is outside what feature_engineering can process
(`Frame.WindExampleNotReady`).

## Model

| member | source | states |
|---|---|---|
| Names.Lower | src/data_processing.py:38 | lower-casing keeps the length, turns each ASCII capital A-Z into its small letter and leaves every other character as it is |
| Names.TrimLeftSuffix | src/data_processing.py:38 | `lstrip` keeps a suffix of the name and everything it drops is whitespace |
| Names.TrimRightPrefix | src/data_processing.py:38 | `rstrip` keeps a prefix of the name and everything it drops is whitespace |
| Names.Strip | src/data_processing.py:38 | the result has no whitespace at either end |
| Names.StripCutsOnlySpace | src/data_processing.py:38 | the result is the slice of the name that starts after the leading whitespace, and everything cut off either end is whitespace |
| Names.LowerKeepsTrimmed | src/data_processing.py:38 | lower-casing a trimmed name leaves it trimmed |
| Names.Normalise | src/data_processing.py:38 | a normalised name has no surrounding whitespace and no upper-case letter |
| Names.NormaliseIdempotent | src/data_processing.py:38 | normalising twice equals normalising once |
| Names.NormaliseFixesNormalForm | src/data_processing.py:38 | a name already trimmed and lower-case is left unchanged |
| Clean.RenameColumns | src/data_processing.py:38 | every column keeps its cells under its new name, the new names are exactly the images of the old, and the row count is kept |
| Clean.KeysOfRenamed | src/data_processing.py:38 | after renaming, the column names are the normalised old names and each is its own normal form |
| Clean.ParseTimeCell | src/data_processing.py:40-41 | a gap stays a gap; a value the date parser reads becomes exactly that timestamp, and one it cannot read becomes a gap |
| Clean.ParseDatetime | src/data_processing.py:40-41 | only `datetime` changes, each of its cells being parsed, and only when the column is there |
| Dedup.FirstIndices | src/data_processing.py:43 | the kept positions rise, each holds a first occurrence, and every first occurrence is kept |
| Dedup.FirstOccurrence | src/data_processing.py:43 | every value has a first occurrence at or before any position holding it |
| Dedup.KeptValuesDistinctAndCover | src/data_processing.py:43 | the kept values are pairwise different and every value of the input is among them |
| Clean.DropDuplicates | src/data_processing.py:43 | the row count never grows and the columns are kept; with columns, output row `a` is the input row at the a-th kept position; a table without columns comes back unchanged, as pandas returns an empty frame as it is |
| Clean.DropDuplicatesDistinct | src/data_processing.py:43 | a table with columns comes out with no two equal rows |
| Clean.DropDuplicatesKeepsEveryRow | src/data_processing.py:43 | every input row is among the output rows |
| Clean.DropDuplicatesKeepsFirstOccurrences | src/data_processing.py:43 | the kept positions are the first occurrences and rise; with columns, the output rows are those rows in their original order, and no earlier input row equals a kept one |
| Clean.DropDuplicatesOfCopies | src/data_processing.py:43 | a table of copies of one row keeps exactly one row when it has columns, and all of its rows when it has none |
| Clean.BasicClean | src/data_processing.py:36-44 | the cleaned table is well formed, no longer than the input, and its column names are exactly the normalised input names |
| Clean.BasicCleanRows | src/data_processing.py:36-44 | a cleaned table with columns has no two equal rows, one without columns keeps every row, and every row of the renamed and parsed input is among its rows |
| Cells.PresentNumbers | src/data_processing.py:53 | every number of the column is among the numbers a reduction sees and each of those comes from the column; with no gap they are the column's numbers row by row |
| Cells.PresentNumbersByRows | src/data_processing.py:53 | the numbers of a column are collected row by row in row order: a numeric cell gives its number once, any other cell nothing, and stacking two pieces concatenates their numbers |
| Cells.ToNumeric | src/data_processing.py:52 | coercion yields a number or a gap; numbers are kept, gaps stay gaps, text becomes the parser's number when it parses and a gap otherwise, and a timestamp becomes its count of time units |
| Cells.Trunc | src/data_processing.py:61 | the integer is the real truncated toward zero, from above for negatives and from below otherwise |
| Stats.Sort | src/data_processing.py:53 | the copy is sorted and as long as the input |
| Stats.SortPermutes | src/data_processing.py:53 | the sorted copy is a permutation of the input |
| Stats.SortCounts | src/data_processing.py:53 | sorting changes neither how many values lie below nor how many lie above any threshold |
| Stats.Median | src/data_processing.py:53 | the median is absent exactly when there are no values (its value is pinned down by `MedianSplitsValues` and `MiddlesDetermineMedian`) |
| Stats.MedianSplitsValues | src/data_processing.py:53 | at most half the values lie strictly below the median and at most half strictly above; it lies within the values, is one of them for an odd count, and for an even count is the mean of a lower middle value (fewer than half below it, at most half above) and an upper middle value (at most half below, fewer than half above) |
| Stats.EvenMedianIsMeanOfMiddles | src/data_processing.py:53 | with an even count the median is the mean of two of the values, a lower middle one and an upper middle one |
| Stats.MiddlesOfSorted | src/data_processing.py:53 | the two middle entries of the sorted copy of an even number of values are a lower and an upper middle value |
| Stats.MiddlesDetermineMedian | src/data_processing.py:53 | for an even count, any lower middle value and any upper middle value average to the median, so the counts determine it |
| Stats.SortedCountGreaterFrom | src/data_processing.py:53 | in sorted values, every entry from one above a threshold onwards lies above it |
| Stats.SortedCountLessUpTo | src/data_processing.py:53 | in sorted values, every entry up to one below a threshold lies below it |
| Stats.MedianOfWindExample | src/data_processing.py:104 | the median of 0, 0, 10, 20, 30 is 10 |
| Stats.ScaleIsProduct | src/data_processing.py:94 | the scaled level used for quantile positions is the product (n - 1) · q |
| Stats.ScaleMonotone | src/data_processing.py:94 | a larger level never gives a smaller scaled position |
| Stats.QuantilePosition | src/data_processing.py:94 | the quantile position (n - 1) · q splits into a row within range and a fraction in [0, 1), the fraction being 0 at the last row |
| Stats.PositionMonotone | src/data_processing.py:94 | a larger q never gives an earlier position |
| Stats.QuantileEnds | src/data_processing.py:94 | the 0-quantile is the smallest value and the 1-quantile the largest |
| Stats.QuantileBetween | src/data_processing.py:94 | a quantile lies between the two sorted values around its position |
| Stats.QuantileMonotone | src/data_processing.py:94 | quantiles rise with q, from the smallest value at 0 to the largest at 1 |
| Stats.Quantile | src/data_processing.py:94 | the linearly interpolated quantile never leaves the range from the smallest to the largest value |
| Bins.CountBelowSplits | src/data_processing.py:100 | on sorted edges, exactly the first `Stats.CountLess` edges lie below the value |
| Bins.BinOf | src/data_processing.py:100 | a bin found is a valid bin index |
| Bins.BinOfInterval | src/data_processing.py:100 | the bin found is the right-closed interval holding the value, and a value has no bin exactly when it lies outside the edges (lowest edge included for qcut) |
| Bins.BinOfMonotone | src/data_processing.py:94 | a larger value never falls in a lower bin |
| Columns.Coerce | src/data_processing.py:52 | the coerced column keeps its length, holds only numbers and gaps, and coerces each cell |
| Columns.FillMissing | src/data_processing.py:56 | the gaps take the fill value and every other cell is kept |
| Columns.FillMissingCounts | src/data_processing.py:56 | after filling no cell is missing, and the cells holding the fill value grow by exactly the number of gaps |
| Columns.MedianOrZero | src/data_processing.py:53-55 | the fill is 0 when the coerced column has no number; otherwise it lies between the smallest and largest number, is one of them when their count is odd, and is the mean of the lower and upper middle numbers when it is even |
| Columns.ImputeNumeric | src/data_processing.py:50-56 | the imputed column has no gap; every number that was there or was parsed keeps its row, and every other row holds the median of the coerced column (0 if it has none) |
| Columns.ImputedValueIsMedian | src/data_processing.py:53-55 | the fill value is 0 when no number is present, and otherwise has at most half the numbers below it and at most half above; for an even count it is the mean of any lower and upper middle numbers |
| Columns.CastCode | src/data_processing.py:61 | the cast column has no gap and only whole numbers; unreadable or missing codes become 0 and a number is truncated toward zero |
| Columns.CastCodeKeepsWholeCodes | src/data_processing.py:61 | a code that is already a whole number is kept |
| Columns.LabelCodes | src/data_processing.py:80 | every row gets a text label from the map or "unknown"; a mapped code gets its label, and "unknown" appears exactly for unmapped codes and gaps |
| Columns.SeasonLabelsNamed | src/data_processing.py:78-80 | codes 1, 2, 3, 4 give spring, summer, fall, winter (each in both directions), and 5 gives "unknown" |
| Columns.WeatherLabelsNamed | src/data_processing.py:83-85 | codes 1, 2, 3, 4 give clear, the single label mist/cloudy, light_precip, heavy_precip, each in both directions |
| Columns.AddColumns | src/data_processing.py:89 | the sum is present exactly when both addends are, and then equals their sum, row by row |
| Columns.Cut | src/data_processing.py:100 | a label appears exactly for present values that fall in a bin, and it is the label of that value's own bin |
| Columns.HumidityCategory | src/data_processing.py:99-100 | (-1, 30] is low, (30, 60] medium, (60, 100] high, each in both directions; outside (-1, 100] and for gaps there is no category |
| Columns.Level | src/data_processing.py:94 | the level k/q lies in [0, 1], with 0 at k = 0 and 1 at k = q |
| Columns.LevelMonotone | src/data_processing.py:94 | levels rise with k |
| Columns.QuantileEdges | src/data_processing.py:94 | the q + 1 edges rise and run from the smallest value to the largest |
| Columns.QCut | src/data_processing.py:94 | the column keeps its length, a gap stays a gap and a label is always one of the given labels; `QCutLabelsEveryNumber` adds that every number gets a label and `QCutMonotone` that labels rise with the value |
| Columns.QCutLabelsEveryNumber | src/data_processing.py:93-97 | every present number gets one of the labels and every gap stays a gap |
| Columns.QCutMonotone | src/data_processing.py:93-97 | a value no larger than another never gets a later label in cold < mild < warm < hot (low < medium < high for wind speed) |
| Columns.ReplaceZeros | src/data_processing.py:104 | exactly the zero cells take the median of the whole column as it was, zeros included; every other cell is kept |
| Columns.ReplaceZerosExample | src/data_processing.py:104 | 0, 0, 10, 20, 30 becomes 10, 10, 10, 20, 30 |
| Frame.ImputeColumn | src/data_processing.py:49-61 | a column in neither list is left as it is, and lengths are kept |
| Frame.Imputed | src/data_processing.py:47-62 | imputation keeps the rows and the column names |
| Frame.ImputedNumericColumn | src/data_processing.py:50-56 | after imputation a listed numeric column has no gap, present numbers keep their rows, and unreadable cells hold the median (or 0) |
| Frame.ImputedCodeColumn | src/data_processing.py:59-61 | after imputation a code column has no gap, unreadable or missing codes are 0, and whole-number codes are kept |
| Frame.ImputedKeepsOtherColumns | src/data_processing.py:47-62 | every unlisted column is unchanged |
| Frame.ImputedFeedsFeatures | src/data_processing.py:49-56 | after imputation every listed numeric column is gap-free, so the later count sum sees only numbers |
| Frame.CalendarColumn | src/data_processing.py:67-75 | a calendar field has one cell per timestamp, missing exactly where the timestamp is |
| Frame.CalendarStep | src/data_processing.py:67-75 | with a `datetime` column each of the six calendar fields is that field of every timestamp, and nothing else changes; without one the table is unchanged |
| Frame.LabelStep | src/data_processing.py:77-85 | the label block changes only the label columns; each label column is the labelling of its code column when that is present, and is left as it was (present or absent) when it is not |
| Frame.CountStep | src/data_processing.py:87-89 | the count block adds at most `count`, only when it is missing, and changes nothing unless both addends are present; when it adds `count`, that column is `registered + casual` row by row |
| Frame.QuartileStep | src/data_processing.py:93-97 | a missing temperature category is added as the four-way quantile binning of its source column and nothing else changes; when the source is missing or the category exists the table is unchanged |
| Frame.HumidityStep | src/data_processing.py:99-100 | a missing humidity category is added as the fixed binning of humidity and nothing else changes; when humidity is missing or the category exists the table is unchanged |
| Frame.CategoryStep | src/data_processing.py:92-100 | the category block adds only categories that are missing, each computed from its source column, and adds none whose source column is missing |
| Frame.WindStep | src/data_processing.py:102-105 | the wind block changes only the wind-speed columns; when it runs, the speeds become their zero-replaced copy and the category is the three-way quantile binning of that copy; with no wind speeds or with a wind-speed category the table is unchanged |
| Frame.WindExampleNotReady | src/data_processing.py:102-105 | with wind speeds 0, 0, 10, 20, 30 and no wind-speed category, the quantile edges repeat, so the table is outside what the wind step accepts |
| Frame.QuantileEdgesUnique | src/data_processing.py:94 | the edge condition `QuantileEdgesApart` that feature engineering requires holds exactly when there is a number and no two of the q + 1 quantile edges are equal, the test behind pd.qcut's "Bin edges must be unique" error |
| Frame.Engineered | src/data_processing.py:65-107 | feature engineering keeps the row count and the table stays well formed |
| Frame.EngineeredFrame | src/data_processing.py:65-107 | no column is dropped and only the feature columns (calendar fields, labels, count, categories, wind speed) can change |
| Frame.EngineeredCount | src/data_processing.py:88-89 | `count` is added as registered + casual when it is missing and both addends are present, and is not added otherwise |
| Frame.EngineeredKeepsExisting | src/data_processing.py:88-105 | an existing count or category column is never recomputed, and with a wind-speed category both wind columns are kept |
| Frame.EngineeredNoUnsourcedColumn | src/data_processing.py:67-105 | a derived column (calendar field, label, count, category or wind-speed column) that was missing stays missing when one of the columns guarding its block is missing |
| Frame.EngineeredCalendar | src/data_processing.py:67-75 | with a `datetime` column every calendar field is that field of the incoming timestamps; without one every calendar field is as it was, present or absent |
| Frame.EngineeredSeasonLabel | src/data_processing.py:78-80 | the season label is the labelling of the incoming season codes whenever they are present, and is left as it was, present or absent, when they are not |
| Frame.EngineeredWeatherLabel | src/data_processing.py:83-85 | the weather label is the labelling of the incoming weather codes whenever they are present, and is left as it was, present or absent, when they are not |
| Frame.EngineeredCategoriesNeedSources | src/data_processing.py:93-100 | a missing temperature, apparent-temperature or humidity category stays missing when its source column is missing |
| Frame.EngineeredCategories | src/data_processing.py:93-100 | each missing temperature, apparent-temperature or humidity category is the binning of its incoming source column |
| Frame.EngineeredWind | src/data_processing.py:102-105 | without a wind-speed category, the speeds are the zero-to-median rewrite of the incoming speeds and the category bins the rewritten speeds in three |
| Frame.EngineeredWindNeedsSpeeds | src/data_processing.py:102-105 | with neither wind speeds nor a wind-speed category, neither wind-speed column appears |
| Frame.DataFrame.ImputeAndCast | src/data_processing.py:47-62 | the frame's new contents are `Imputed` of its old contents |
| Frame.DataFrame.ImputeNumbers | src/data_processing.py:50-56 | the first loop imputes exactly the listed numeric columns and leaves every other column and the rows as they were |
| Frame.DataFrame.CastCodes | src/data_processing.py:59-61 | the second loop casts exactly the listed code columns and leaves every other column and the rows as they were |
| Frame.DataFrame.FeatureEngineering | src/data_processing.py:65-107 | the frame's new contents are `Engineered` of its old contents |
| Frame.DataFrame.AddCalendarFields | src/data_processing.py:67-75 | the new contents are the calendar step of the old |
| Frame.DataFrame.AddLabels | src/data_processing.py:77-85 | the new contents are the label step of the old |
| Frame.DataFrame.AddCount | src/data_processing.py:87-89 | the new contents are the count step of the old |
| Frame.DataFrame.AddCategories | src/data_processing.py:92-100 | the new contents are the category step of the old |
| Frame.DataFrame.AdjustWind | src/data_processing.py:102-105 | the new contents are the wind step of the old |

## Left out

- `load_data`, `process` and the command-line entry point (src/data_processing.py:18-33, 110-130) are not modelled. They read CSV files or URLs, create directories, write CSV and print log lines.
- src/plots.py is not part of this model. It only draws charts.
- The date parser behind `pd.to_datetime` is the parameter `parseTime` of `Clean.ParseDatetime`. It answers `None` for an unparseable value.
- The number parser behind `pd.to_numeric` is the parameter `parse` of `Cells.ToNumeric`.
- The calendar arithmetic behind `.dt.hour`, `.dt.day_name()`, `.dt.weekday`, `.dt.month`, `.dt.year` and `.dt.date` is the parameter `calendar` of `Frame.CalendarColumn`. The model states only that one field is computed per timestamp and that a missing timestamp gives a missing field.
- Frame.DataFrame.FeatureEngineering: requires `Frame.FeatureReady`. The source raises in the cases this excludes, and the model does not describe that error path or the partly updated frame it leaves behind. The excluded cases are:
  - a `datetime` column holding anything but timestamps and gaps, on which `.dt` raises (`Frame.CalendarReady`);
  - text in a column fed to `+`, `pd.cut` or `pd.qcut` (a TypeError);
  - repeated quantile edges, or a column with no number at all (`pd.qcut`'s ValueError).
- Clean.BasicClean: requires that no two column names normalise to the same name. pandas would then hold two columns with one name, which a map cannot represent.
- Names.Lower: lower-cases only the ASCII letters A-Z, not the rest of Unicode as Python's `str.lower()` does.
- Names.Normalise: lower-cases only the ASCII letters A-Z. It does not model Python's full Unicode `str.lower()`.
- Numbers are exact reals and a gap is `None`. Floating-point rounding, infinities, and pandas' dtype changes (int64 against float64, category dtype) are not modelled.
- `astype(int)` on a value outside the 64-bit range is not modelled, because integers are unbounded here.
- The model leaves a few pandas corners out:
  - `+` on two text cells, which pandas would concatenate, is excluded rather than modelled.
  - Row index labels are not kept; rows are numbered by position, so `reset_index(drop=True)` is implicit.
