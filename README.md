# levels.fyi salary analysis: the data pipeline, modelled in Dafny

`analyze.py` downloads the levels.fyi salary dump and passes it through three
stages before it writes a CSV:

1. `fixSalaryDF` cleans the raw records. It parses `timestamp`, drops ten
   columns, turns every `""` into missing, coerces the three numeric columns
   with `pd.to_numeric`, and renumbers the rows with `reset_index`.
2. `filterSalaryDF` selects a cohort: rows with the exact title, a location
   containing `", " + state`, and, when a ceiling is given, at most
   `ceiling + 2` years of experience.
3. `getPositionsWithSalaryRange` trims the cohort to the 5%–95% compensation
   band, groups it by (company, level), computes the count and the means, and
   keeps the groups whose mean compensation is strictly above `min`.

The model represents a pandas frame as a `Frames.Table`: column names plus rows
of cells keyed by column name. A cell is `Text`, `Num` (an exact real) or
`Missing`, where `Missing` stands for NaN/None.

- `Cleaning` models stage 1 twice:
  - `Cleaning.Cleaned` is the specification, a function.
  - `Cleaning.FixSalary` is the imperative version. It keeps the rows in an
    array, coerces one column at a time in place, and is proved equal to the
    specification.
- `Cohort` models stage 2 and `Aggregation` models stage 3. Both are pure
  functions over sequences.
- `Stats` holds pandas' linear quantile, the mean and the sample variance.
- `Pipeline` chains the stages as `main` does (analyze.py:160-172).

Each exception the model covers is a `Frames.Error` value, returned as
`Err(..)`. The exceptions that a `requires` clause excludes instead are listed
under "## Left out".

In two places the code behaves differently from what its comment on line 53
or a quick reading suggests. The model follows the code:

- **The look-back filter is discarded.** The comment on line 53 and the cut on
  lines 55-57 filter out old records. Line 71 then rebuilds the frame from the
  unfiltered `df`, so every record survives.
  - `Cleaning.CleanedKeepsEveryRow` proves that every record survives.
  - `Cleaning.CleanedIgnoresTimestamps` proves that the result does not depend
    on the timestamps at all.
- **A non-numeric string raises.** `pd.to_numeric` runs with its default
  `errors='raise'`, so a non-empty string that is not a number fails the whole
  clean (`UnparsableNumber`). It does not become missing.

An empty download that has all the needed columns, and a free name for the
old row labels, yields no positions and no error
(`Pipeline.EmptyDownloadSucceeds`). A download without those columns raises
`KeyError` (`MissingColumn`).

## Model

| member | source | states |
|---|---|---|
| Cleaning.Cleaned | analyze.py:52-83 | The definition of `fixSalaryDF`: the first failing check's error, in source order, or else the rebuilt frame. It requires a well-formed table (`Frames.WellFormed`). Its own contract: a frame without `timestamp` fails with `MissingColumn`, and a success has one row per input row. `CleanedColumns`, `CleanedCells` and `CleanedKeepsEveryRow` state the columns, the cells and the row order. |
| Cleaning.Blank | analyze.py:73 | `replace("", np.nan)` on one cell: the result is never `""`, and every other cell is left as it is. |
| Cleaning.ToNumeric | analyze.py:80-81 | `pd.to_numeric` on one cell: a success is never text, and numbers and missing values pass unchanged. `UnreadableNumber` and `Numbers.Parse` state which strings fail. |
| Cleaning.IndexName | analyze.py:83 | The name `reset_index` gives the old labels: `index`, or `level_0` when `index` is taken, and never a name the frame already has. There is none (the `ValueError`) exactly when both are taken. |
| Cleaning.FixSalary | analyze.py:52-83 | The method returns exactly `Cleaned`. The errors come in source order: missing `timestamp` column, unreadable date, missing dropped column, missing numeric column, unreadable number, then `index`/`level_0` both taken. Otherwise it returns the rebuilt frame. |
| Cleaning.ParseTimestamps | analyze.py:54 | Succeeds iff every non-empty text timestamp is readable as a date (`pd.to_datetime` raises otherwise). |
| Cleaning.HasColumns | analyze.py:71-72 | True iff every named column is in the frame. A false result is the `KeyError` of `drop` and of column selection. |
| Cleaning.DropAndBlankRows | analyze.py:71-73 | Row j of the new array is input row j without the ten dropped columns, with every `""` made missing. |
| Cleaning.CoerceColumn | analyze.py:80-81 | Coerces one numeric column in every row, in place. It succeeds iff every value is readable. The other columns and the not-yet-coerced fields are untouched. |
| Cleaning.CoerceNumericColumns | analyze.py:75-81 | Succeeds iff all three numeric columns are readable in every row. On success every row is fully converted. |
| Cleaning.ResetIndex | analyze.py:83 | Row i gets label i and carries its old label in the new first column. |
| Cleaning.CleanedKeepsEveryRow | analyze.py:55-83 | One output row per input row, in input order, relabelled 0..n-1, each carrying its old label. The look-back cut removes nothing. |
| Cleaning.CleanedIgnoresTimestamps | analyze.py:54-57 | Two inputs that differ only in their timestamps, and whose dates are readable, clean to the same frame. |
| Cleaning.RebuiltIgnoresTimestamps | analyze.py:71-83 | The rebuilt frame does not depend on the `timestamp` cells. |
| Cleaning.DropAndBlankIgnoresTimestamp | analyze.py:71-73 | Dropping and blanking gives the same cells for rows that differ only in `timestamp`. |
| Cleaning.CleanedColumns | analyze.py:59-72 | The first column is `index` (or `level_0`) and the rest are the input columns in order minus the ten dropped ones. No dropped column remains, every other column is kept, and the frame is well formed. |
| Cleaning.RebuiltColumns | analyze.py:71-83 | The rebuilt frame has distinct columns. After the index column none is a dropped column, every other input column is kept, and every row has exactly those columns. |
| Cleaning.CleanedCells | analyze.py:73-81 | No cell is `""`. Each numeric cell is a number or missing, namely what `to_numeric` makes of the blanked input. Every other cell is its input value with `""` made missing. |
| Cleaning.RebuiltCells | analyze.py:71-81 | The same three facts for one row of the rebuilt frame. |
| Cleaning.ConvertedCells | analyze.py:71-81 | A fully converted row keeps exactly the non-dropped columns, has no `""`, and holds numbers or missing in the numeric columns. |
| Cleaning.ConvertOneMore | analyze.py:80-81 | Converting one more numeric field is a single-cell update of the row. |
| Cleaning.CleanedRaisesOnBadNumber | analyze.py:80-81 | Once the earlier checks pass, the clean fails with `UnparsableNumber` iff some numeric cell is a non-empty string that is not a numeral. |
| Cleaning.CleanedPastColumnChecks | analyze.py:54-81 | Once the timestamps and all needed columns check out, the clean raises `UnparsableNumber` iff some numeric cell is unreadable. |
| Cleaning.UnreadableNumber | analyze.py:80-81 | A blanked numeric cell is rejected by `to_numeric` iff it is a non-empty string that is not a numeral. |
| Cleaning.ColumnUnreadable | analyze.py:80-81 | One column with an unreadable cell makes the whole conversion fail. |
| Cleaning.ColumnsReadable | analyze.py:75-81 | If each numeric column is readable in every row, the whole conversion succeeds. |
| Numbers.Parse | analyze.py:80-81 | A text value is accepted only if it is non-empty and made of digits, one optional leading sign and `.`. |
| Numbers.ShowParses | analyze.py:80-81 | Every integer written in decimal is read back as that number. |
| Cohort.FilterSalary | analyze.py:86-94 | The definition of `filterSalaryDF`: the three masks in turn, each with its error. It requires a region code without regular-expression metacharacters (`Strings.NoRegexMeta`). Its own contract: a frame without `title` or `location` fails with `MissingColumn`, and a success keeps the columns and never adds rows. `FilterSalaryRows`, `FilterSalaryIsOneMask` and `NoCeilingWhenZero` state which rows are kept. |
| Strings.Contains | analyze.py:88-89 | The literal `str.contains` test. A match implies the pattern is no longer than the text. |
| Strings.ContainsAt | analyze.py:88-89 | `Contains(s, pat)` holds iff `pat` equals the slice of `s` at some offset. |
| Cohort.FilterSalaryIsOneMask | analyze.py:86-94 | The successive masks equal the single cohort mask. With a ceiling of 0 the experience test is absent. |
| Cohort.FilterSalaryRows | analyze.py:86-94 | Columns are unchanged. Every kept row has the title and a location containing `", " + state`, and, for a non-zero ceiling, present experience ≤ ceiling + 2. Every input row passing these tests is kept. The result is an order-preserving subsequence. |
| Cohort.NoCeilingWhenZero | analyze.py:90-92 | With ceiling 0 the call succeeds iff the title and location columns exist and each title row has a text location. The result is the title-and-location filter. |
| Cohort.TitledLocationsText | analyze.py:87-89 | Every title-matching row kept by the first mask has a text location iff every row with the title has one, so the `str.contains` NaN check depends only on the titled rows. |
| Sequences.Where | analyze.py:87-89 | Boolean-mask indexing: every kept row passes the mask, every passing row is kept, and the result is no longer than the input. `WhereCounts` states the multiplicities. |
| Sequences.WhereCounts | analyze.py:87-92 | A mask keeps each passing row as many times as it occurs and drops every failing one, so duplicate rows stay duplicated. |
| Sequences.WhereIsSubseq | analyze.py:87-92 | Mask indexing keeps rows in their original order. |
| Sequences.WhereWhere | analyze.py:87-92 | Two successive masks equal one mask that is their conjunction. |
| Sequences.WherePairwise | analyze.py:122 | A relation between every earlier and later element survives a mask. The threshold therefore keeps the keys ascending. |
| Strings.LessIrreflexive | analyze.py:104-105 | Python's string order, which `groupby` sorts by, is irreflexive. |
| Strings.LessTransitive | analyze.py:104-105 | The string order is transitive. |
| Strings.LessTotal | analyze.py:104-105 | Any two distinct strings are ordered one way or the other. |
| Aggregation.KeyLessIrreflexive | analyze.py:104-105 | The (company, level) order is irreflexive. |
| Aggregation.KeyLessTransitive | analyze.py:104-105 | The (company, level) order is transitive. |
| Aggregation.KeyLessTotal | analyze.py:104-105 | Any two distinct (company, level) keys are ordered. |
| Aggregation.InsertKey | analyze.py:104-105 | Adding a key to a strictly ascending key list keeps it strictly ascending, with exactly the old keys plus the new one. |
| Aggregation.Keys | analyze.py:104-105 | The group keys are strictly ascending. Each is the key of some row, and every row with a complete key has its key listed. Rows with a missing key part are dropped. |
| Aggregation.KeyOf | analyze.py:104-105 | A row's group key exists only when its `company` and `level` cells are text, and it is that pair. Every other row gets none, as `groupby` drops rows with a missing key part. |
| Aggregation.Present | analyze.py:107-116 | Every present value of the column is among the values a reduction sees after skipping NaN, none is lost when all are present, and there are never more values than rows. `PresentIsNumericRows` states the exact list. |
| Aggregation.PresentIsNumericRows | analyze.py:100-116 | The values a reduction sees are exactly the numbers of the rows that hold one in that column: one value per such row, duplicates included, in row order. |
| Aggregation.PresentFromCell | analyze.py:107-116 | Every value a reduction sees was read from a numeric cell of that column in some row of the group. |
| Stats.Quantile | analyze.py:100-102 | `Series.quantile` with linear interpolation: undefined (NaN) exactly when no value is present. `QuantileWithinRange` and `QuantileMonotone` bound its value. |
| Stats.Interpolate | analyze.py:100-102 | The interpolation between the order statistics at ⌊(n-1)·q⌋ and the next one. A single value, or q = 0, gives the first value. `InterpolateBetween` and `InterpolateMonotone` state the rest. |
| Stats.Mean | analyze.py:107-109 | `mean` over the present values: undefined exactly when there are none, and otherwise the value whose product with the count is the sum. |
| Stats.Sort | analyze.py:100-102 | The quantile's sorted copy is sorted and is a permutation of the values. |
| Stats.Rank | analyze.py:100-102 | The lower interpolation index is ⌊(n-1)·q⌋ and lies in range. |
| Stats.InterpolateBetween | analyze.py:100-102 | A linear-interpolated quantile lies between its two neighbouring order statistics. |
| Stats.QuantileWithinRange | analyze.py:100-102 | The quantile of a non-empty column is defined and lies between two of its values. |
| Stats.InterpolateMonotone | analyze.py:100-102 | On sorted values, interpolation is monotone in q. |
| Stats.QuantileMonotone | analyze.py:100-102 | q ≤ q' implies quantile(q) ≤ quantile(q'), so q05 ≤ q95. |
| Stats.MeanWithin | analyze.py:107-109 | The mean of values within [lo, hi] lies within [lo, hi]. |
| Stats.SampleVariance | analyze.py:110-115 | The ddof=1 variance is undefined (NaN) exactly when there are fewer than two values, and is otherwise non-negative. |
| Stats.ConstantHasNoVariance | analyze.py:110-115 | Two or more equal values have variance 0. |
| Aggregation.TwoValueBand | analyze.py:100-102 | For two distinct values, q05 lies strictly above the smaller and q95 strictly below the larger, whatever their order. |
| Aggregation.LowerOfPair | analyze.py:100-102 | For two sorted distinct values, the 5% point lies strictly above the smaller. |
| Aggregation.UpperOfPair | analyze.py:100-102 | For two sorted distinct values, the 95% point lies strictly below the larger. |
| Aggregation.Band | analyze.py:100-102 | The 5% and 95% quantiles of the present compensations. There is a band exactly when some compensation is present. |
| Aggregation.BandOrdered | analyze.py:100-102 | The band's lower end never exceeds its upper end. |
| Aggregation.Trimmed | analyze.py:100-103 | The `between` mask: never more rows than the cohort, and no rows when no compensation is present. `TrimmedExactly` and `TrimmedInBand` state which rows are kept. |
| Aggregation.TrimmedInBand | analyze.py:100-103 | A non-empty trim implies defined quantiles, and every kept row's compensation lies in [q05, q95]. |
| Aggregation.TrimmedExactly | analyze.py:100-103 | The trim keeps exactly the rows whose compensation is present and in [q05, q95], both ends included, in their original order. |
| Aggregation.BandMissesEveryRow | analyze.py:100-103 | A band containing none of the present compensations trims every row. |
| Aggregation.NoCompensationNoGroups | analyze.py:100-122 | An empty cohort, or one with no present compensation (NaN quantiles), gives an empty result and no error. |
| Aggregation.EmptyTrimNoGroups | analyze.py:100-122 | A trim that keeps nothing gives an empty result. |
| Aggregation.TwoCompensationsLeaveNothing | analyze.py:100-122 | A cohort with exactly two distinct present compensations is trimmed to nothing and gives an empty result. |
| Aggregation.TwoValuesTrimAll | analyze.py:100-103 | A cohort whose present compensations are two distinct values is trimmed to nothing. |
| Aggregation.Summarize | analyze.py:104-121 | One result row from the members of one group. It has the group's key, a `count` equal to the number of members and at least 1, and a `tcMean` that is the mean of the members' present compensations. `GroupAt` and `Stats.MeanWithin` state its properties. |
| Aggregation.Groups | analyze.py:104-121 | One group per key of the trimmed rows. `GroupAt` states each group. |
| Aggregation.PositionsWithSalaryRange | analyze.py:99-122 | The definition of `getPositionsWithSalaryRange`. It requires rows typed as cleaning leaves them (`Typed`). It fails, with `MissingColumn`, exactly when a needed column is missing. `PositionsAboveMinimum`, `PositionsComplete`, `NoCompensationNoGroups` and `TwoCompensationsLeaveNothing` state what it returns. |
| Aggregation.MembersHaveCompensation | analyze.py:104-109 | Every group of trimmed rows is non-empty, and each member contributes a present compensation within the band. |
| Aggregation.GroupAt | analyze.py:104-121 | The i-th group has the i-th key. Its `count` equals the number of trimmed rows with that key and is at least 1. Its `tcMean` lies in [q05, q95]. The group is `Summarize` of its members, so every statistic is computed from exactly those rows. |
| Aggregation.GroupsAscending | analyze.py:104-107 | The groups come in strictly ascending (company, level) order, so keys are unique. |
| Aggregation.GroupsCoverRows | analyze.py:104-107 | Every trimmed row with a complete key belongs to some group. |
| Aggregation.Emitted | analyze.py:122 | A group survives the threshold iff its `tcMean > min`. |
| Aggregation.PositionsAboveMinimum | analyze.py:99-122 | Every emitted group has `tcMean > min` and `tcMean` in [q05, q95]. Its `count` is at least 1 and equals the number of trimmed rows with its key. Keys are unique and ascending. Each group is `Summarize` of its trimmed members. |
| Aggregation.EmittedAt | analyze.py:104-122 | Each emitted group has `tcMean > min` and inside [q05, q95], and a count of at least 1 equal to the number of trimmed rows with its key. It is `Summarize` of those rows. |
| Aggregation.EmittedAscending | analyze.py:104-122 | The threshold keeps the groups' keys strictly ascending. |
| Aggregation.PositionsComplete | analyze.py:120-122 | Each group of the trimmed rows is emitted iff its mean exceeds `min`. |
| Pipeline.Analyze | analyze.py:160-172 | Chains clean, filter and aggregate, passing on the first error. A successful run emits ascending unique keys, each with `tcMean > min` and a count of at least 1. |
| Pipeline.CleanedCellOrigin | analyze.py:71-73 | A cleaned company, level, title or location cell is the same row's input cell with `""` made missing. |
| Pipeline.CleanedIsTyped | analyze.py:71-81 | When the downloaded `company` and `level` cells are not numbers, then after cleaning the numeric columns hold numbers or missing, and the key columns hold no numbers. |
| Pipeline.CohortIsTyped | analyze.py:86-94 | The cohort keeps whole rows, so it stays typed. |
| Pipeline.CohortRowOrigin | analyze.py:86-94 | A cohort row with a complete key comes from a downloaded row with that key, the title, and a location in the region. |
| Pipeline.GroupHasMember | analyze.py:104-107 | Every emitted group has the key of some cohort row. |
| Pipeline.ExportedPositionsComeFromCohort | analyze.py:160-172 | Every exported position is the (company, level) of some downloaded row with the chosen title and a location containing `", " + state`. |
| Pipeline.EmptyDownloadNoGroups | analyze.py:160-172 | An empty download, when no stage raises, exports no positions. |
| Pipeline.EmptyDownloadSucceeds | analyze.py:160-172 | An empty download that has the dropped, numeric, key, title and location columns, and a free name for the old labels, raises nothing and exports no positions. |
| Cleaning.EmptyCleans | analyze.py:52-83 | An empty frame with every column the clean reads, and a free index name, cleans without error to an empty frame that keeps every column not dropped. |
| Cohort.EmptyFilters | analyze.py:86-94 | A frame without rows that has the title and location columns, and the experience column when a ceiling is given, filters without error to an empty cohort with the same columns. |

## Left out

- `getSalaryDataDump` (analyze.py:25-47) is not modelled. It is network access, file reads and writes, file modification times and archive moves. The model starts from a downloaded `Table`.
- `getTargetTitle`, `getTargetState`, `getYearsOfExperience` and the prompts in `main` (analyze.py:125-148, 167) are not modelled. They are console I/O. The title, region, ceiling and minimum become parameters.
- `exportDf` (analyze.py:151-155) and the prints in `main` are not modelled. They are file and console output.
- Date parsing is reduced to a predicate `isDate` passed as a parameter. The two-year look-back (analyze.py:55-57) depends on the clock. Its result is never used, so the model does not compute it.
- Cleaning.FixSalary: does not model that line 54 overwrites the caller's `timestamp` column in place. The method returns a new table and leaves its input unchanged.
- Numbers.Parse: accepts only an optionally signed decimal numeral. It leaves out the rest of `pd.to_numeric`'s grammar: surrounding whitespace, exponents, `inf` and `nan` spellings. It also leaves out the int64/float64 distinction, because every number is an exact real.
- Cohort.FilterSalary: requires the region code to contain no regular-expression metacharacters. The regex semantics of `str.contains` are left out, so the location test is a literal substring test.
- Aggregation.PositionsWithSalaryRange: requires the numeric columns to hold no text, because pandas raises `TypeError` when it takes quantiles or means of text, and that error is not modelled. It also requires the key columns to hold no numbers, because a `Key` is a pair of strings and the dump stores these columns as strings. pandas itself would group numeric keys without raising. `Pipeline.CleanedIsTyped` shows that every cleaned frame whose downloaded `company` and `level` cells are not numbers meets both requirements.
- Pipeline.Analyze: requires that the downloaded `company` and `level` cells are not numbers. The dump stores them as strings.
- Cleaning.Cleaned: requires a well-formed table, meaning distinct column names and a cell in every column of every row. pandas frames always have that shape apart from duplicate names, which are not modelled.
- Stats.SampleVariance: `tcStd` and `yoeStd` are carried as sample variances, and the square root is left out. As the source's std does, the variance is undefined for fewer than two values.
- Floating-point rounding is not modelled. Compensation, means and quantiles are exact reals, and the levels 0.05 and 0.95 are exact.
- The result is a sequence of `Group` records in key order. The merged frame's column layout, its dtypes and its MultiIndex are not modelled.
