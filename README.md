# UFC matchup predictor: the feature pipeline and serving-time assembly in Dafny

This project models the data side of a UFC fight-outcome predictor. The pipeline has four parts:

- **Preprocessing.** The raw bout records are normalised. Integer fields are parsed. Each bout string is split into two fighter names. Round statistics are summed (or averaged) per fighter and bout. Height, weight, reach and stance are imputed per weight class, and duplicate rows are removed.
- **Feature building.** The table is sorted by date. Each historical feature is then built from a fighter's earlier bouts in the same slot (`fighter1_*` or `fighter2_*`): shift by one bout, then a rolling, expanding, cumulative or run-length operator. This covers:
  - win rates and finish-type rates;
  - average statistics;
  - title-fight counts and champion flags;
  - momentum and win/loss streaks.
- **Encoding and split.** The target label is set. The categorical columns are one-hot encoded with the first category dropped. The labelled rows are split by date into train, validation and test sets.
- **Serving.** A fighter's latest bout is located. The feature row used is the first feature row dated as that bout, which on a card of several bouts is usually another bout's row (Fighters.SharedCardFirstRow). The cells of that row carrying the fighter's slot prefix in the latest bout are renamed to the slot-1 form. Two fighters' features and the shared columns of a reference row are merged into one input row, which is completed with zeros and ordered by the model's feature list. The winner rule is applied to the classifier's probability. Lazy caches hold the tables and the model.

A table is a `map<string, Column>` with `Column = seq<Cell>`. A cell is `Missing`, a number (`real`, exact), a text or a date (a day number). The imperative feature stages follow the source's column-by-column writes on a `Frame` class. Each stage method is proved equal to a specification function of the old table. What the features *mean* is proved as lemmas about those functions:

- no lookahead;
- rolling means over the previous bouts;
- run lengths;
- the one-hot layout;
- the partition of rows into splits;
- the merge of the serving row.

Module layout:

- **Foundations:**
  - `Cells` (cells and cell-wise pandas operations);
  - `Text` (Python string functions);
  - `Frames` (the table class);
  - `Order` (stable date sort, median);
  - `Calendar` (a reference Gregorian calendar by day counting, for the month feature).
- **History engine:** `Groups`, the same-slot group engine: shift, rolling, expanding, cumulative count, forward fill and `calc_streak`.
- **One module per source file:**
  - `Preprocessor`, `Helpers`;
  - `Basic`, `Historical`, `TitleFights`, `Momentum`, `Encoding`;
  - `SplitData`, `Fighters`, `Predict`.

`calc_streak` (src/features/momentum.py:3-10) counts a run of hits that starts its series one short. For example, `[1, 1, 0, 1]` gives win streaks `[0, 1, 0, 1]` (Momentum.StreakExample). After a break, a run is counted in full (Groups.StreakIsRunLength). In the pipeline every group series it sees starts with the NaN that the shift puts in front. So this never shows in the features: a streak is exactly the number of consecutive wins or losses immediately before the bout (Groups.StreakAfterShift, Momentum.StreakAt).

## Model

| member | source | states |
|---|---|---|
| Cells.Flag | src/features/basic.py:16-17 | `astype(int)` of a boolean is 1 exactly when it holds and 0 exactly when it does not |
| Cells.Minus | src/features/basic.py:29-33 | subtraction is defined exactly for two numbers or two dates; the difference added back gives the minuend; dates give the day count |
| Cells.Fill | src/features/historical.py:29-30 | `fillna` keeps a defined cell and replaces only a missing one |
| Cells.MinusCol | src/features/basic.py:29-32 | the column difference is cell-wise `Minus`, of the same length |
| Cells.FillCol | src/features/historical.py:29-30 | `fillna(v)` applies `Fill` cell by cell |
| Cells.FillFrom | src/preprocessor.py:148 | `fillna(other)` fills each missing cell from the aligned cell of the other column |
| Cells.Mean | src/features/helpers.py:24 | `mean()` is missing exactly when no number is defined, and otherwise times the count of numbers equals their sum |
| Cells.NumsAppend | src/features/helpers.py:21 | the numbers of a concatenation are the concatenated numbers |
| Cells.SumAppend | src/preprocessor.py:106 | a sum over a concatenation is the sum of the two sums |
| Cells.MeanSkipsMissing | src/features/helpers.py:21 | a leading missing value (the shifted-in NaN) never changes a mean |
| Cells.SumBounds | src/features/historical.py:17-19 | a sum of n values in [lo, hi] lies in [n*lo, n*hi] |
| Cells.MeanBounds | src/features/historical.py:17-19 | a mean of values in [lo, hi] lies in [lo, hi] |
| Frames.Pick | src/features/helpers.py:20-22 | the picked cells are the cells at the given positions, in that order |
| Frames.TakeRows | src/split_data.py:11 | boolean or positional row selection keeps every column and takes row `idx[k]` as row k |
| Frames.RowAt | src/fighters.py:50 | a row maps each column name to that column's cell |
| Frames.RowOfTake | src/split_data.py:20-22 | row k of a selection is row `idx[k]` of the source table |
| Frames.Frame.constructor | src/features/basic.py:4 | a new table holds exactly the given columns and row count |
| Frames.Frame.Set | src/features/basic.py:9 | `df[name] = col` writes that column and nothing else |
| Frames.Frame.Drop | src/features/basic.py:55 | `drop(columns=...)` removes exactly those columns, which must exist |
| Frames.Frame.Assign | src/features/encoding.py:19 | rebinding `df` replaces the whole table |
| Frames.Frame.Take | src/features/basic.py:26 | `iloc[idx].reset_index(drop=True)` is the row selection of `TakeRows` |
| Text.Split | src/preprocessor.py:13 | `str.split(sep)` yields at least one piece |
| Text.SplitPair | src/preprocessor.py:76 | `(a + sep + b).split(sep) == [a, b]` when `sep` starts nowhere in `a` and does not occur in `b` |
| Text.Strip | src/preprocessor.py:77-78 | `strip()` leaves no whitespace at either end |
| Text.StartsWith | src/predict.py:52 | Python's `s.startswith(p)`: `p` is a prefix of `s`; used with the literal labels in Predict.SharedEntries and Predict.NotShared |
| Text.Contains | src/features/basic.py:20 | Python's `p in s`: `p` occurs at some position of `s`; its uses are stated in Basic.TitleFlags, Helpers.TkoHasKo and Helpers.CategorizeMethod |
| Text.Replace | src/fighters.py:58 | `str.replace(pat, with)` as split-then-join; what it does is stated in Text.ReplaceDropsSuffix, Fighters.ReplaceLeading and Fighters.RenamedPrefix |
| Text.Lower | src/features/helpers.py:7 | lower-cases ASCII A–Z and keeps every other character, a narrower mapping than Python's Unicode `lower()` |
| Text.ParseInt | src/preprocessor.py:14 | `int(s)` succeeds only on non-blank text |
| Text.ParseNatStr | src/preprocessor.py:14 | `int(str(n)) == n` |
| Text.ParseDigits | src/preprocessor.py:27 | `int` of a digit string, leading zeros allowed, is its value |
| Text.NatStr | src/preprocessor.py:14 | `str(n)` is a non-empty digit string without a leading zero |
| Text.SplitNoSep | src/preprocessor.py:13 | text without the separator splits into itself alone |
| Text.SplitAround | src/preprocessor.py:13 | `(a + sep + b).split(sep)` is `a` followed by the pieces of `b` when `sep` starts nowhere in `a` |
| Text.ReplaceDropsSuffix | src/preprocessor.py:42 | `(a + pat).replace(pat, "") == a` when `pat` starts nowhere in `a` |
| Text.StripNoSpace | src/preprocessor.py:35 | `strip()` leaves text without whitespace unchanged |
| Text.SortedDistinct | src/fighters.py:26-27 | `sorted(set(xs))` is strictly sorted and has exactly the elements of `xs` |
| Order.StableSort | src/features/basic.py:26 | the date sort is a permutation of the listed rows |
| Order.StableSortSpec | src/features/basic.py:26 | the sorted rows ascend by date, missing dates last, and rows of equal date keep their order |
| Order.SortOrdersTable | src/features/basic.py:26 | sorting the whole table is a permutation of its rows that orders the dates stably |
| Order.LastOfSort | src/fighters.py:49 | `iloc[-1]` of the sort is a row of the latest date, and the last listed among rows of that date |
| Order.Median | src/features/basic.py:40-41 | `median()` is missing exactly when no number is defined; for an odd count it is one of the defined values |
| Order.Middle | src/features/basic.py:40-41 | the middle value of an odd-length list, and the mean of the two middle values of an even-length one |
| Order.MedianValue | src/features/basic.py:40-41 | the median reads the defined values in ascending order: the middle one for an odd count, the mean of the two middle ones for an even count |
| Order.AscendingUnique | src/features/basic.py:40-41 | two ascending lists with the same values are equal, so the sorted order the median reads is fixed by the values |
| Order.MedianOfSorted | src/features/basic.py:40-41 | for any ascending arrangement of the defined values, the median is its middle value or the mean of its two middle values |
| Order.MedianIsMiddle | src/features/basic.py:40-41 | the median lies between the two middle sorted values |
| Order.MedianBounds | src/features/historical.py:194 | the median lies within any bounds the defined values respect |
| Order.MedianOr | src/features/basic.py:42-43 | the fill is the median when it exists, and otherwise the default |
| Groups.Members | src/features/historical.py:16 | a group's rows below n are positions with that key, in increasing order |
| Groups.MembersComplete | src/features/historical.py:16 | every position below n with the key belongs to the group |
| Groups.Before | src/features/historical.py:16 | the earlier group rows of row i are all and only the rows before i with its key |
| Groups.UpToIsBeforeAndSelf | src/features/historical.py:17-19 | a named row's group up to itself is its earlier rows followed by itself |
| Groups.MembersOfPrefix | src/features/historical.py:16 | group membership below n depends only on the first n keys |
| Groups.MembersGrow | src/features/basic.py:46-47 | a group up to m is a prefix of the same group up to n |
| Groups.LastK | src/features/helpers.py:21 | the rolling window holds the last `min(k, n)` values of the series |
| Groups.LastDefined | src/features/title_fights.py:33-35 | a forward-filled value occurs in the series; LastDefinedIsLast pins it as the last defined entry |
| Groups.LastDefinedIsLast | src/features/title_fights.py:33-35 | the carried value is the defined entry at the highest position, every later entry is missing, and it is missing only when every entry is |
| Groups.CalcStreak | src/features/momentum.py:3-10 | `calc_streak` gives one count per entry |
| Groups.GroupApply | src/features/historical.py:17-19 | `groupby(keys).transform(op)` applies the operator to the row's group up to itself; rows without a key are missing |
| Groups.ApplyOp | src/features/historical.py:17-19 | the value of each pandas operator on a group series; stated per operator in Groups.RollingAfterShift, ExpandingAfterShift, SumAfterShift, CumCountAt, DiffAt, FFillAtDefined and StreakAfterShift |
| Groups.History | src/features/historical.py:16-19 | the shift-then-aggregate feature has one value per row |
| Groups.ShiftAtMember | src/features/historical.py:16 | the grouped shift at a named row is the previous value of its group |
| Groups.ShiftSeq | src/features/historical.py:16 | `shift(1)` of one group's series, of the same length; stated along a group in Groups.ShiftAlongGroup and ShiftedGroupSeries |
| Groups.ShiftAlongGroup | src/features/historical.py:16 | along one group the grouped shift is the shift of the group's series |
| Groups.ShiftedGroupSeries | src/features/historical.py:16-19 | row i's group series of a shifted column is a missing value followed by the group's values strictly before i |
| Groups.HistoryAt | src/features/historical.py:16-19 | a historical feature is the operator applied to a missing value followed by the earlier same-slot values |
| Groups.NoLookahead | src/features/historical.py:16-19 | two tables that agree on the keys up to row i and on the values before row i give row i the same historical value |
| Groups.RollingAfterShift | src/features/helpers.py:21 | a shifted rolling mean over w is the mean of the defined values among the last w earlier values |
| Groups.ExpandingAfterShift | src/features/momentum.py:18-20 | a shifted expanding mean is the mean of all earlier values |
| Groups.SumAfterShift | src/features/title_fights.py:13-16 | a shifted zero-filled cumulative sum is the sum of the earlier values |
| Groups.RunRankAtBreak | src/features/momentum.py:8 | an entry that is not a hit starts a new run |
| Groups.RunRankStep | src/features/momentum.py:8 | within a run, the rank grows by one per entry |
| Groups.RunId | src/features/momentum.py:8 | the run label `(s != t).cumsum()` of an entry; stated in Groups.RunRankAtBreak and RunRankStep |
| Groups.RunRank | src/features/momentum.py:8 | `cumcount()` within a run label; stated in Groups.RunRankAtBreak, RunRankStep and StreakIsRunLength |
| Groups.StreakIsRunLength | src/features/momentum.py:7-10 | a streak is 0 off a hit, the length of the run of hits ending there after a break, and its index when the run reaches back to the start |
| Groups.StreakRecurrence | src/features/momentum.py:8 | a hit after a hit extends the streak by one |
| Groups.StreaksExclusive | src/features/momentum.py:8-10 | the win and loss streaks are never both positive at one position |
| Groups.StreakAfterShift | src/features/momentum.py:40-55 | on a shifted series the streak is the number of consecutive hits immediately before the row |
| Groups.OpAt | src/features/historical.py:17-19 | row i's value is the operator on its earlier group values followed by its own value |
| Groups.CumCountAt | src/features/basic.py:46-47 | `cumcount()` is the number of earlier rows of the group |
| Groups.DiffAt | src/features/basic.py:36-37 | the grouped `diff()` is the difference to the previous group row, missing on the first |
| Groups.FFillAtDefined | src/features/title_fights.py:33-35 | a forward fill keeps a defined value in place |
| Groups.FFillSource | src/features/title_fights.py:33-35 | a forward-filled value comes from a row of the same group at or above; FFillLatest pins which row |
| Groups.FFillLatest | src/features/title_fights.py:33-35 | the grouped `ffill()` at row i is the value of the most recent same-group row j <= i with a defined value (no same-group row between j and i has one), and it is missing exactly when no same-group row up to i has a defined value |
| Groups.PickLastDefined | src/features/title_fights.py:33-35 | over increasing positions, the last defined picked value sits at the highest position holding a defined value |
| Groups.FFillAt | src/features/title_fights.py:33-35 | the grouped forward fill at a keyed row is the last defined value of its group up to that row |
| Groups.IncreasingIndex | src/features/title_fights.py:33-35 | in an increasing listing a smaller entry sits at a smaller index |
| Groups.UpToIndex | src/features/title_fights.py:33-35 | every same-group row at or above row i is listed in the row's group up to i |
| Groups.Group | src/preprocessor.py:148 | a row's whole group is all rows sharing its key, including itself |
| Groups.MinDate | src/features/basic.py:50 | the earliest date is a date of the series no later than any other, and is missing when the series has no date |
| Groups.GroupMinDate | src/features/basic.py:50 | `transform('min')` gives each named row its group's earliest date |
| Groups.GroupMean | src/preprocessor.py:148 | `transform('mean')` gives each named row its group's mean |
| Groups.GroupMinIsFirst | src/features/basic.py:50-53 | on a sorted table the group's earliest date is its first row's, which is row i exactly when i has no earlier group row |
| Groups.SumOfFlags | src/features/title_fights.py:13-16 | summing 0/1 flags counts the ones |
| Groups.GroupSumMonotone | src/features/title_fights.py:13-16 | along a group with non-negative values the sum over earlier rows never decreases |
| Groups.PrefixSumLe | src/features/title_fights.py:14-16 | a sum of non-negative values over a prefix of the rows is at most the sum over all of them |
| Helpers.SlotName | src/features/helpers.py:18 | a slot column name starts with "fighter" |
| Helpers.AvgName | src/features/helpers.py:19 | the average column name starts with "fighter" |
| Helpers.CategorizeMethod | src/features/helpers.py:4-14 | missing input, "--" and non-text give no category; otherwise, on the lower-cased stripped text, KO/TKO exactly when it contains "ko", Submission exactly when it contains "sub" but not "ko", and Decision exactly when it contains "decision" but neither |
| Helpers.TkoHasKo | src/features/helpers.py:8 | the "tko" test is subsumed by the "ko" test |
| Helpers.SubmissionHasSub | src/features/helpers.py:10 | the "submission" test is subsumed by the "sub" test |
| Helpers.LowerIdempotent | src/features/helpers.py:7 | lower-casing twice equals lower-casing once |
| Helpers.CategorizeIgnoresCase | src/features/helpers.py:7-13 | a method and its lower-cased form get the same category |
| Helpers.HistoricalAvg | src/features/helpers.py:20-24 | the written average column has one value per row |
| Helpers.RollingHistoryAt | src/features/helpers.py:20-22 | the shifted rolling mean at row i is the mean of the defined values among the up-to-window earlier same-slot rows |
| Helpers.HistoricalAvgAt | src/features/helpers.py:20-24 | row i holds that window mean when defined, and otherwise the mean of the column's defined window means |
| Helpers.CalcHistoricalAvg | src/features/helpers.py:17-25 | `calc_historical_avg` writes exactly the column `fighter{n}_avg_{stat}_last_{window}`, with the filled window means; no other column changes |
| Preprocessor.CombineOk | src/preprocessor.py:27 | two integer fields combine to `int(a) * scale + int(b)` |
| Preprocessor.ParseFraction | src/preprocessor.py:10-14 | missing, "---" and "--" give (0, 0), and so does text that does not split into two parts on " of "; two parts give their integers, and raise exactly when either is not an integer |
| Preprocessor.FractionRoundTrip | src/preprocessor.py:10-14 | "a of b" parses to (a, b) |
| Preprocessor.ParseTimeSeconds | src/preprocessor.py:23-27 | missing, "---", "--" and "0:00" give 0, and so does text that is not two ":" parts; two parts give m * 60 + ss, and raise exactly when either is not an integer |
| Preprocessor.TimeFromParts | src/preprocessor.py:26-27 | two integer parts m and ss give m * 60 + ss |
| Preprocessor.TimeRoundTrip | src/preprocessor.py:23-27 | "m:ss" parses to m * 60 + ss, the special-cased "0:00" included |
| Preprocessor.TimeExample | src/preprocessor.py:22-27 | "0:04" parses to 4 |
| Preprocessor.ZeroTimeText | src/preprocessor.py:24 | only zero minutes and zero seconds are written "0:00" |
| Preprocessor.ParsePad2 | src/preprocessor.py:27 | a two-digit seconds field, leading zero included, parses to its value |
| Preprocessor.TimeTextNotPlaceholder | src/preprocessor.py:24 | text in "m:ss" form is never "---" or "--" |
| Preprocessor.ParseHeightInches | src/preprocessor.py:30-36 | missing and "--" give a missing height, and so does text that is not two "'" parts once the double quotes are removed; two parts give feet * 12 + inches of the stripped parts, and raise exactly when either is not an integer |
| Preprocessor.HeightFromParts | src/preprocessor.py:33-35 | two integer parts give feet * 12 + inches |
| Preprocessor.HeightRoundTrip | src/preprocessor.py:30-36 | F' I" parses to F * 12 + I |
| Preprocessor.ParseWeightLbs | src/preprocessor.py:39-42 | missing and "--" give a missing weight; otherwise the weight is the integer left after removing " lbs.", and the parse raises exactly when that is not an integer |
| Preprocessor.WeightRoundTrip | src/preprocessor.py:39-42 | "N lbs." parses to N |
| Preprocessor.ParseReachInches | src/preprocessor.py:45-48 | missing and "--" give a missing reach; otherwise the reach is the integer left after removing the double quotes, and the parse raises exactly when that is not an integer |
| Preprocessor.ReachRoundTrip | src/preprocessor.py:45-48 | N" parses to N |
| Preprocessor.StripCell | src/preprocessor.py:66 | `str.strip()` strips text, and every other cell, NaN included, becomes NaN |
| Preprocessor.StripCol | src/preprocessor.py:66 | the column strip is cell-wise |
| Preprocessor.BoutParts | src/preprocessor.py:76 | a text bout splits into at least one piece, and a missing one into none |
| Preprocessor.SplitWidth | src/preprocessor.py:76 | the expanded width is the largest piece count of any row |
| Preprocessor.NamePart | src/preprocessor.py:76-78 | piece k is defined exactly when the row has it, and is then that piece stripped |
| Preprocessor.SplitBouts | src/preprocessor.py:76-78 | the name assignment succeeds exactly when the split is two columns wide, and then row i gets its first and second pieces |
| Preprocessor.BoutRoundTrip | src/preprocessor.py:76-78 | "A vs. B" names A and B, trimmed, with no third piece |
| Preprocessor.SingleNameBout | src/preprocessor.py:76-78 | a bout without the separator names fighter 1 only |
| Preprocessor.SplitWellFormed | src/preprocessor.py:76-78 | a table whose bouts all read "A vs. B" splits into those trimmed names |
| Preprocessor.SplitBoutNames | src/preprocessor.py:66-78 | BOUT is stripped and then split into the two name columns, failing exactly where the assignment raises |
| Preprocessor.CleanFractions | src/preprocessor.py:81-94 | the fraction columns of a row parse exactly when every field parses, and there is one column per listed statistic |
| Preprocessor.CleanFractionsKeys | src/preprocessor.py:81-94 | every column of a cleaned row is one of the listed statistics |
| Preprocessor.CleanFractionAt | src/preprocessor.py:81-94 | a fraction column holds the landed or attempted side of its parsed field |
| Preprocessor.CleanStats | src/preprocessor.py:81-95 | a row's statistics parse exactly when its fractions and CTRL parse; `control_time_sec` is CTRL in seconds |
| Preprocessor.CleanTable | src/preprocessor.py:80-95 | the whole pass succeeds exactly when every row cleans, and it keeps each row's keys |
| Preprocessor.KeyValuesEmpty | src/preprocessor.py:106 | a group's values are empty exactly when no row carries its key |
| Preprocessor.Aggregate | src/preprocessor.py:97-106 | `sum` is the sum of the defined numbers and `mean` is `Mean` |
| Preprocessor.MergedStat | src/preprocessor.py:106-115 | a merged statistic is the aggregate of its (event, bout, fighter) group, and NaN without one |
| Preprocessor.OtherKeysIgnored | src/preprocessor.py:106 | rows of other keys do not change an aggregate |
| Preprocessor.SumAdds | src/preprocessor.py:97-106 | a summed statistic adds up over any split of the rows into two blocks |
| Preprocessor.RowOrderIrrelevant | src/preprocessor.py:106 | swapping two blocks of rows leaves every merged statistic unchanged |
| Preprocessor.KeyValuesNonEmpty | src/preprocessor.py:106 | a group exists exactly when its keys are defined and it has rows |
| Preprocessor.MeanStatBounds | src/preprocessor.py:99-101 | a mean-aggregated percentage stays within the range of its round values |
| Preprocessor.MeanOfSame | src/preprocessor.py:99-101 | two groups with as many numbers and the same total have the same mean |
| Preprocessor.Texts | src/preprocessor.py:139 | the texts of a column are exactly its text cells |
| Preprocessor.Count | src/preprocessor.py:139 | a positive count means the value occurs |
| Preprocessor.Best | src/preprocessor.py:139-140 | the chosen value has the highest count, ties going to the smallest |
| Preprocessor.Mode | src/preprocessor.py:138-140 | `get_mode` is NaN exactly for a column without text, and is otherwise one of its texts |
| Preprocessor.ModeIsMostFrequent | src/preprocessor.py:138-140 | the mode occurs at least as often as any value, and no value as frequent is smaller |
| Preprocessor.ModeDefined | src/preprocessor.py:156-158 | a column with a text value has a mode |
| Preprocessor.ClassValue | src/preprocessor.py:148-155 | each row gets its weight class's mean or mode, and NaN when its class is NaN |
| Preprocessor.Impute | src/preprocessor.py:148-158 | a defined cell is kept; a missing cell takes its class value, or failing that the whole-column value |
| Preprocessor.ImputeComplete | src/preprocessor.py:148-158 | one defined value of the right kind anywhere leaves no cell missing |
| Preprocessor.ImputeWithinRange | src/preprocessor.py:148-149 | imputed means stay within the range of the observed values |
| Preprocessor.NumericNames | src/preprocessor.py:145-147 | the six numeric columns are `fighter{1,2}_{height,weight,reach}` |
| Preprocessor.StanceNames | src/preprocessor.py:152-153 | the two stance columns are `fighter{1,2}_stance` |
| Preprocessor.SlotNameChars | src/preprocessor.py:147 | a slot column name carries its slot digit at position 7 and the first letter of its attribute at position 9, which tells the imputed columns apart |
| Preprocessor.FillNamesDistinct | src/preprocessor.py:145-153 | the eight imputed columns are distinct, and none is WEIGHTCLASS |
| Preprocessor.ImputeAll | src/preprocessor.py:145-149 | imputing a list of columns keeps the shape, the keys and the class column |
| Preprocessor.ImputeAllUntouched | src/preprocessor.py:145-158 | an unlisted column is untouched |
| Preprocessor.ImputeAllAt | src/preprocessor.py:145-158 | a listed column is imputed from its own original cells and the original classes |
| Preprocessor.ImputeAllOnlyMissing | src/preprocessor.py:145-158 | imputation changes a cell only where it was missing |
| Preprocessor.ImputeAllStep | src/preprocessor.py:145-149 | one more loop round imputes one more column |
| Preprocessor.FillNanSpec | src/preprocessor.py:143-160 | `fill_nan_values` keeps the column set |
| Preprocessor.FillOnlyMissing | src/preprocessor.py:143-160 | `fill_nan_values` changes only missing cells |
| Preprocessor.FillNumericColumn | src/preprocessor.py:145-149 | each height, weight and reach column gets the class mean, then the column mean |
| Preprocessor.FillStanceColumn | src/preprocessor.py:152-158 | each stance column gets the class mode, then the overall mode |
| Preprocessor.ImputeColumn | src/preprocessor.py:148-149 | one column's two `fillna` writes, and nothing else changes |
| Preprocessor.ImputeNumeric | src/preprocessor.py:145-149 | the nested loop imputes the six numeric columns in order |
| Preprocessor.ImputeStances | src/preprocessor.py:152-158 | the loop imputes the two stance columns |
| Preprocessor.FillNanValues | src/preprocessor.py:143-160 | `fill_nan_values` on the frame is `FillNanSpec` |
| Preprocessor.FirstOccurrences | src/preprocessor.py:167 | the kept rows, in order, are exactly those equal to no earlier row |
| Preprocessor.KeptDistinct | src/preprocessor.py:167 | no two kept rows are equal |
| Preprocessor.KeptCovers | src/preprocessor.py:167 | every row equals a kept row at or before it |
| Preprocessor.DedupTable | src/preprocessor.py:167 | after `drop_duplicates` no two rows are equal and every original row is still present |
| Preprocessor.DropDuplicates | src/preprocessor.py:167 | the in-place deduplication keeps the first occurrences in their order |
| Preprocessor.PreprocessData | src/preprocessor.py:163-168 | `preprocess_data` from the joined table on: imputation, then deduplication |
| Basic.MonthOfDay | src/features/basic.py:9 | a calendar month is in 1..12; MonthOfCivil shows it is the month of the date |
| Basic.MonthOfCivil | src/features/basic.py:9 | for every civil date y-m-d of the reference calendar, the month of its day number is m |
| Basic.MonthOfDaySteps | src/features/basic.py:9 | the conversion's era, day of era, year of era, day of year and March-based month index give month mp + 3, or mp - 9 in January and February |
| Basic.CivilFromMarch | src/features/basic.py:9 | a civil date's day number, counted from 0000-03-01, is whole March-based years plus the day within the year |
| Basic.EraSplit | src/features/basic.py:9 | whole 400-year eras hold 146097 days each |
| Basic.MarchDayRange | src/features/basic.py:9 | the day within a March-based year is 0..364, or 365 only on a leap day |
| Basic.LeapOfEraYear | src/features/basic.py:9 | a leap civil year is a leap year in the terms of its era's year index |
| Basic.YearOfEra | src/features/basic.py:9 | the year-of-era step recovers the year from the day of the era |
| Basic.EraResidues | src/features/basic.py:9 | whole eras keep residues modulo 4 and 100, and year w in 1..400 of an era is a multiple of 400 only as w = 400 |
| Basic.YearOfEraParts | src/features/basic.py:9 | a year of era splits into centuries, four-year blocks and years |
| Basic.YearOfEraBlocks | src/features/basic.py:9 | the year-of-era step recovers 100 * c + 4 * b + a from the day of era in block form |
| Basic.EraDivisions | src/features/basic.py:9 | the values of the three divisions (by 1460, 36524 and 146096) of the year-of-era step |
| Basic.DivByYear | src/features/basic.py:9 | a day count within 365 * k .. 365 * k + 364 divides to year k |
| Basic.MonthOfMarchDay | src/features/basic.py:9 | the March-based month index is recovered from its day of the year |
| Basic.MonthCol | src/features/basic.py:9 | `dt.month` is defined exactly on dates and lies in 1..12 |
| Basic.MonthColAt | src/features/basic.py:9 | a bout dated y-m-d gets month m |
| Calendar.DaysInMonth | src/features/basic.py:9 | month lengths are 28 to 31 days, 29 exactly in February of a leap year |
| Calendar.LeapsStep | src/features/basic.py:9 | the leap-year count grows by one exactly at a leap year |
| Calendar.StepDiv4 | src/features/basic.py:9 | floor division by 4 steps up exactly at a multiple of 4 |
| Calendar.StepDiv100 | src/features/basic.py:9 | floor division by 100 steps up exactly at a multiple of 100 |
| Calendar.StepDiv400 | src/features/basic.py:9 | floor division by 400 steps up exactly at a multiple of 400 |
| Calendar.DivisorChain | src/features/basic.py:9 | a multiple of 400 is a multiple of 100, which is a multiple of 4 |
| Calendar.YearLength | src/features/basic.py:9 | a year has 366 days when it is a leap year and 365 otherwise |
| Calendar.Epoch | src/features/basic.py:9 | day 0 is 1970-01-01 |
| Calendar.NextMonth | src/features/basic.py:9 | the first of a month is the day after the last day of the month before |
| Calendar.NextYear | src/features/basic.py:9 | January 1 is the day after December 31 of the year before |
| Calendar.DaysBeforeMarchMonth | src/features/basic.py:9 | from March on, the days before a month are 59 or 60 plus (153 * (m - 3) + 2) / 5 |
| Basic.AgeCol | src/features/basic.py:12-13 | the age is defined exactly when both dates are, and is then the day gap over 365.25 |
| Basic.UnknownCol | src/features/basic.py:16-17 | `isna().astype(int)` flags exactly the missing cells |
| Basic.AgeUnknownFlag | src/features/basic.py:12-17 | the age-unknown flag is 1 exactly when a date is missing, and 0 exactly when both exist |
| Basic.TitleFlags | src/features/basic.py:20 | `is_title_fight` is 1 exactly when TIME FORMAT contains "5 Rnd" and 0 otherwise; a non-text format raises |
| Basic.MatchupCol | src/features/basic.py:23 | the matchup is stance1 + "_vs_" + stance2, with a missing stance read as "Unknown" |
| Basic.StanceOr | src/features/basic.py:23 | `fillna('Unknown')` of one stance; stated in Basic.MatchupCol and MatchupSplits |
| Basic.MatchupSplits | src/features/basic.py:23 | the matchup splits back into its two stances |
| Basic.SortOrder | src/features/basic.py:26 | the sort order lists every row position once |
| Basic.SortedTable | src/features/basic.py:26 | after the sort the dates ascend, every row appears once and rows of equal date keep their order |
| Basic.OrCol | src/features/basic.py:33 | the OR of two flags is 1 exactly when either is 1 |
| Basic.DiffSwap | src/features/basic.py:29-32 | swapping the slots negates every difference |
| Basic.AgeDiffUnknown | src/features/basic.py:32-33 | `age_diff_unknown` is 1 exactly when either age is unknown, which is exactly when `age_diff` is missing |
| Basic.DaysSince | src/features/basic.py:36-43 | the day-gap feature has one value per row |
| Basic.DaysSinceAt | src/features/basic.py:36-43 | the gap is the day difference to the previous same-slot bout, and a first bout gets the median gap or 180 |
| Basic.GapNonnegative | src/features/basic.py:36-37 | on a sorted table a gap is never negative |
| Basic.TotalFights | src/features/basic.py:46-47 | the bout count has one value per row |
| Basic.TotalFightsAt | src/features/basic.py:46-47 | the bout count is the row's 1-based position in its slot group |
| Basic.TotalFightsGrow | src/features/basic.py:46-47 | along a slot group the count rises by at least one per bout |
| Basic.BeforeGrows | src/features/basic.py:46-47 | a later bout of a group has more earlier bouts |
| Basic.DaysInUfc | src/features/basic.py:50-53 | the career length has one value per row |
| Basic.DaysInUfcAt | src/features/basic.py:50-53 | on a sorted table the career length is the gap to the group's first bout, at least 0, and 0 on that bout |
| Basic.RowFeatures | src/features/basic.py:9-23 | the row-wise features keep the columns the later steps read |
| Basic.Sorted | src/features/basic.py:26 | the date sort keeps the shape and the columns |
| Basic.PairFeatures | src/features/basic.py:29-33 | the difference features keep the columns the later steps read |
| Basic.SlotFeatures | src/features/basic.py:36-55 | the per-slot features keep the table shaped |
| Basic.AddRowFeatures | src/features/basic.py:9-23 | the frame gets the row-wise features, failing exactly where the title flag raises |
| Basic.SortByDate | src/features/basic.py:26 | the frame is replaced by its date-sorted rows |
| Basic.AddPairFeatures | src/features/basic.py:29-33 | the frame gets the difference features |
| Basic.AddSlotFeatures | src/features/basic.py:36-55 | the frame gets the per-slot features, and the intermediates are dropped |
| Basic.CreateBasicFeatures | src/features/basic.py:4-57 | `create_basic_features`, failing exactly where the title flag raises |
| Basic.BasicSpec | src/features/basic.py:4-57 | the whole stage: RowFeatures, then the date sort, PairFeatures and SlotFeatures, each stated in its own lemmas; Basic.CreateBasicFeatures is proved equal to it |
| Historical.Won | src/features/historical.py:12-22 | slot n's result is 1 exactly on its win code, 0 exactly on its loss code, and missing exactly for any other outcome |
| Historical.WonCol | src/features/historical.py:12-22 | the result column applies `Won` to each row |
| Historical.WonMirror | src/features/historical.py:12-22 | both slots' results are defined or neither is, and defined ones sum to 1 |
| Historical.WonFlags | src/features/historical.py:12-22 | results are 0 or 1 |
| Historical.WinRate | src/features/historical.py:16-30 | the win rate has one value per row |
| Historical.WinRateAt | src/features/historical.py:16-30 | the win rate is the mean of the defined results among the five earlier same-slot bouts, or 0.5 |
| Historical.WindowBounds | src/features/historical.py:17-19 | a window of bounded values is bounded |
| Historical.WinRateBounds | src/features/historical.py:16-30 | a win rate is defined and lies in [0, 1] |
| Historical.WinRateNoLookahead | src/features/historical.py:16-30 | the outcomes of row i and of every later row do not affect row i's win rate |
| Historical.AverageNoLookahead | src/features/historical.py:33-35 | where the window mean is defined, the three-fight average depends on earlier rows only |
| Historical.RoundNumeric | src/features/historical.py:78 | `to_numeric(errors='coerce')` gives a number or missing, and keeps a number |
| Historical.RoundCol | src/features/historical.py:78 | the round column is converted cell by cell |
| Historical.TimeCol | src/features/historical.py:81 | TIME parses exactly when every cell parses, and each cell is then its seconds |
| Historical.TimeSeconds | src/features/historical.py:81 | `parse_time_seconds` of one TIME cell; stated in Preprocessor.ParseTimeSeconds and Historical.TimeCol |
| Historical.WinMethodCol | src/features/historical.py:84-85 | the win method is the category on slot n's wins and missing elsewhere |
| Historical.WhenWon | src/features/historical.py:88-92 | the win round and time are the value on slot n's wins and missing elsewhere |
| Historical.IndicatorCol | src/features/historical.py:95-105 | an indicator has one value per row, 1 on a listed category, 0 on another category, missing without one |
| Historical.EarlyCol | src/features/historical.py:107-108 | early is 1 exactly for a round of at most 2, 0 exactly for a later round, and missing without a round |
| Historical.CategoryHits | src/features/historical.py:95-105 | without a category all four indicators are missing; with one, exactly one of ko, sub and decision is 1, finish = ko + sub and decision = 1 - finish |
| Historical.IndicatorsAt | src/features/historical.py:84-105 | on a categorised win exactly one of ko, sub and decision is 1, finish = ko + sub and decision = 1 - finish; elsewhere all are missing |
| Historical.EarlyAt | src/features/historical.py:88-108 | early is 1 exactly on wins in round 1 or 2, and defined only on wins |
| Historical.RateCountsWins | src/features/historical.py:111-174 | a finish-type rate is the mean over the last five same-slot bouts, and only won bouts contribute |
| Historical.FillRates | src/features/historical.py:188-190 | the RATE_COLS loop keeps the keys and lengths |
| Historical.FillAvgs | src/features/historical.py:192-194 | the AVG_COLS loop keeps the keys and lengths |
| Historical.AvgFill | src/features/historical.py:194 | an average fill keeps the length |
| Historical.FillRatesAt | src/features/historical.py:188-190 | a listed rate column present gets missing cells set to 0, and other columns are unchanged |
| Historical.FillAvgsAt | src/features/historical.py:192-194 | a listed average column present takes `AvgFill`, and other columns are unchanged |
| Historical.AvgFillAt | src/features/historical.py:194 | an average column has no gaps, keeps its values, and takes the median, or 2.5 for "round" names and 180 otherwise |
| Historical.FillNoMissing | src/features/historical.py:190 | a fill leaves a column without gaps unchanged |
| Historical.RateStep | src/features/historical.py:111-114 | one shift-then-rolling rate adds columns and keeps every non-slot column |
| Historical.OutcomeFeatures | src/features/historical.py:12-30 | the outcome step adds columns and keeps every non-slot column |
| Historical.OutcomeColumns | src/features/historical.py:12-30 | slot n's `won` column is WonCol of OUTCOME, and its `win_rate_last_5` column is WinRate of its name column and those results |
| Historical.FirstOutcomes | src/features/historical.py:12-19 | slot 1's results are WonCol, and its rate is the shifted five-bout rolling mean of them |
| Historical.FirstKeepsSecondName | src/features/historical.py:12-19 | slot 1's step leaves slot 2's name column unchanged |
| Historical.SecondKeepsFirst | src/features/historical.py:22-30 | slot 2's step and the two fills keep slot 1's results, and fill slot 1's rate with 0.5 |
| Historical.SecondOutcomes | src/features/historical.py:22-30 | slot 2's results are WonCol, and its rate is the shifted rolling mean filled with 0.5 |
| Historical.RateStepAt | src/features/historical.py:16-19 | a rate step writes the shifted rolling mean of its indicator and changes no column but its two |
| Historical.RecentPair | src/features/historical.py:33-45 | one pair of three-fight averages adds columns and keeps every non-slot column |
| Historical.RecentPairColumns | src/features/historical.py:33-45 | each slot's average column is HistoricalAvg of its name column and statistic with window 3 |
| Historical.AvgStep | src/features/historical.py:71-72 | one `calc_historical_avg` call adds columns and keeps every non-slot column |
| Historical.StatAverages | src/features/historical.py:70-72 | the statistics loop adds columns and keeps every non-slot column |
| Historical.StatAveragesStep | src/features/historical.py:70-72 | one more loop round applies both slots' averages for the next statistic |
| Historical.SlotDetails | src/features/historical.py:84-108 | slot n's win details keep the columns later steps read |
| Historical.RatePair | src/features/historical.py:111-119 | both slots' rate for one indicator keeps the columns later steps read |
| Historical.FinishRates | src/features/historical.py:111-185 | the rate block adds columns |
| Historical.WinDetails | src/features/historical.py:78-108 | the win-detail block adds columns |
| Historical.AddRate | src/features/historical.py:111-114 | the frame gets one shifted rate |
| Historical.AddOutcomes | src/features/historical.py:12-30 | the frame gets the results and win rates |
| Historical.AddRecentPair | src/features/historical.py:33-45 | the frame gets one pair of three-fight averages |
| Historical.AddStatAverages | src/features/historical.py:70-72 | the loop over statistics writes both slots' averages for each |
| Historical.AddWinDetails | src/features/historical.py:78-108 | the frame gets the win details, failing exactly where TIME does not parse |
| Historical.AddSlotDetails | src/features/historical.py:84-108 | the frame gets slot n's win details |
| Historical.AddRatePair | src/features/historical.py:111-119 | the frame gets both slots' rate for one indicator |
| Historical.AddFinishRates | src/features/historical.py:111-185 | the frame gets all finish-type rates |
| Historical.FillDefaults | src/features/historical.py:188-194 | the two fill loops on the frame |
| Historical.FillRateCols | src/features/historical.py:188-190 | the RATE_COLS loop on the frame fills each listed column present with 0 |
| Historical.FillAvgCols | src/features/historical.py:192-194 | the AVG_COLS loop on the frame fills each listed column present with `AvgFill` |
| Historical.FillAvgCol | src/features/historical.py:193-194 | one listed average column is filled when present, and otherwise nothing changes |
| Historical.FillAvgsStep | src/features/historical.py:192-194 | one more listed name fills one more column, exactly when it is present |
| Historical.RollingStats | src/features/historical.py:12-72 | the rolling block keeps the columns later steps read and leaves TIME unchanged |
| Historical.AddRollingStats | src/features/historical.py:12-72 | the frame gets the win rates, the recent averages and the statistic averages |
| Historical.AddRatesAndFills | src/features/historical.py:111-194 | the frame gets the finish-type rates and then the default fills |
| Historical.CreateHistoricalFeatures | src/features/historical.py:7-199 | `create_historical_features`, failing exactly where TIME does not parse |
| Historical.HistoricalSpec | src/features/historical.py:7-199 | the whole stage: RollingStats, WinDetails, FinishRates and the two fill loops, each stated in its own lemmas; Historical.CreateHistoricalFeatures is proved equal to it |
| TitleFights.TitleCount | src/features/title_fights.py:13-21 | the title count has one value per row |
| TitleFights.TitleCountAt | src/features/title_fights.py:13-21 | the count is the number of earlier same-slot title fights, and 0 on a first appearance |
| TitleFights.TitleCountMonotone | src/features/title_fights.py:13-21 | along a slot group the count never decreases |
| TitleFights.RatioCol | src/features/title_fights.py:25 | the ratio has one value per row |
| TitleFights.RatioAt | src/features/title_fights.py:24-25 | the ratio satisfies ratio * (n2 + 1) == n1, lies in [0, n1], and is 0 exactly when n1 is 0 |
| TitleFights.TitleDate | src/features/title_fights.py:30-32 | the title date has one value per row |
| TitleFights.LastTitleDate | src/features/title_fights.py:33-35 | one value per row; LastTitleDateLatest states it is the date of the bout after the most recent earlier same-slot title fight, missing exactly when there is none |
| TitleFights.DaysSinceTitle | src/features/title_fights.py:45-56 | one value per row; DaysSinceTitleLatest states it counts from the bout after the most recent earlier title fight, and (DaysSinceTitleNone with NoTitleDateIff) takes the median or 365 exactly when there is none |
| TitleFights.LastTitleDateSource | src/features/title_fights.py:30-35 | a last title date is the date of a same-slot row whose previous bout was a title fight |
| TitleFights.LastTitleDateLatest | src/features/title_fights.py:30-35 | the last title date is the date of the most recent same-slot row j <= i whose previous same-slot bout was a title fight (LatestTitleFollowUp: no later such dated row up to i exists); when it is missing, no such dated row exists |
| TitleFights.NoTitleDateIff | src/features/title_fights.py:30-35 | a keyed row has no last title date exactly when none of its dated same-slot bouts up to it followed a title fight |
| TitleFights.DaysSinceTitleLatest | src/features/title_fights.py:30-46 | on a dated row with a last title date, the day count is the day gap to the bout after the most recent earlier same-slot title fight (LatestTitleFollowUp); DaysSinceTitleNone gives the median or 365 otherwise |
| TitleFights.DaysSinceTitleCell | src/features/title_fights.py:45-56 | where the gap from the last title date is defined, it is the day count, untouched by the fill |
| TitleFights.GapFromLast | src/features/title_fights.py:45-46 | a defined last date from a date column is a date, and the gap to it is the day difference |
| TitleFights.DaysSinceTitleZero | src/features/title_fights.py:30-46 | after a title fight in the previous same-slot bout the count is 0 |
| TitleFights.DaysSinceTitleNonneg | src/features/title_fights.py:45-46 | on a sorted table a defined count is at least 0 |
| TitleFights.DaysSinceTitleNone | src/features/title_fights.py:49-56 | without an earlier title fight the count is the median or 365 |
| TitleFights.EarlierDateGap | src/features/title_fights.py:45-46 | on a sorted date column a later row's gap to an earlier row is at least 0 |
| TitleFights.LastWasTitle | src/features/title_fights.py:67 | the previous-title flag has one value per row |
| TitleFights.ChampionCol | src/features/title_fights.py:68-71 | the champion flag is 1 exactly when both inputs are 1, and 0 otherwise |
| TitleFights.ChampionAt | src/features/title_fights.py:67-77 | a fighter is champion exactly when the previous same-slot bout was a title fight and was won; never on a first appearance |
| TitleFights.ChampionDiffRange | src/features/title_fights.py:80 | `champion_diff` is -1, 0 or 1, with +1 and -1 exactly for one champion |
| TitleFights.BothCol | src/features/title_fights.py:83-86 | `both_champions` is 1 exactly when both flags are 1 |
| TitleFights.CountFeatures | src/features/title_fights.py:13-25 | the count block adds columns |
| TitleFights.CountColumns | src/features/title_fights.py:13-25 | both slots' counts are TitleCount, with their difference and ratio, and every other column stays |
| TitleFights.DayFeatures | src/features/title_fights.py:30-61 | the day block adds columns |
| TitleFights.DayWrites | src/features/title_fights.py:30-61 | the nine column writes keep the table's shape and columns |
| TitleFights.DayWritesAt | src/features/title_fights.py:30-61 | each written column holds its last value, and every other column stays |
| TitleFights.DayColumns | src/features/title_fights.py:30-61 | both slots' last title dates are LastTitleDate, and their day counts are DaysSinceTitle, with the difference; every other column stays |
| TitleFights.ChampionFeatures | src/features/title_fights.py:67-86 | the champion block adds columns |
| TitleFights.ChampionColumns | src/features/title_fights.py:67-86 | both slots' champion flags are ChampionCol of LastWasTitle and the shifted win, with `champion_diff` and `both_champions`; every other column stays |
| TitleFights.TitleSpec | src/features/title_fights.py:89-94 | the eight intermediate columns are absent from the output |
| TitleFights.AddCountFeatures | src/features/title_fights.py:13-25 | the frame gets the title counts |
| TitleFights.AddDayFeatures | src/features/title_fights.py:30-61 | the frame gets the day counts |
| TitleFights.AddChampionFeatures | src/features/title_fights.py:67-86 | the frame gets the champion flags |
| TitleFights.CreateTitleFightFeatures | src/features/title_fights.py:4-99 | `create_title_fight_features` on the frame |
| Momentum.StreakExample | src/features/momentum.py:7-10 | [1, 1, 0, 1] gives win streaks [0, 1, 0, 1] and loss streaks [0, 0, 1, 0] |
| Momentum.MissingBreaksRuns | src/features/momentum.py:6 | a missing entry has no streak and restarts both runs |
| Momentum.CareerRate | src/features/momentum.py:18-23 | the career rate has one value per row |
| Momentum.CareerRateAt | src/features/momentum.py:18-23 | the career rate is the mean of all earlier same-slot results, or 0.5 |
| Momentum.MomentumCol | src/features/momentum.py:26-32 | the momentum has one value per row |
| Momentum.MomentumZero | src/features/momentum.py:26-33 | momentum is 0 with at most five earlier same-slot bouts |
| Momentum.SameHistory | src/features/momentum.py:18-20 | with at most five earlier bouts the rolling window and the expanding window agree |
| Momentum.MomentumBounds | src/features/momentum.py:26-33 | momentum is defined and lies in [-1, 1] |
| Momentum.StreakCol | src/features/momentum.py:43-55 | the streak column has one value per row |
| Momentum.StreakAt | src/features/momentum.py:40-55 | a row's streak is the number of consecutive wins (or losses) immediately before it, and 0 on a first appearance |
| Momentum.StreaksExclusiveAt | src/features/momentum.py:43-55 | a row never has both a positive win streak and a positive loss streak |
| Momentum.FormFeatures | src/features/momentum.py:18-33 | the form block adds columns |
| Momentum.StreakFeatures | src/features/momentum.py:40-62 | the result copies are gone after the streak block |
| Momentum.AddFormFeatures | src/features/momentum.py:18-33 | the frame gets the career rates and momentum |
| Momentum.AddStreakFeatures | src/features/momentum.py:40-62 | the frame gets the streaks and their differences |
| Momentum.CreateMomentumFeatures | src/features/momentum.py:12-67 | `create_momentum_features` on the frame |
| Momentum.MomentumSpec | src/features/momentum.py:12-67 | the whole stage: FormFeatures, then StreakFeatures, stated in CareerRateAt, MomentumBounds and StreakAt; Momentum.CreateMomentumFeatures is proved equal to it |
| Encoding.Target | src/features/encoding.py:10 | the target is 1 exactly on "W/L", 0 exactly on "L/W", and missing exactly for any other outcome |
| Encoding.DropPresent | src/features/encoding.py:13 | exactly the listed names that are columns are removed; absent names are ignored |
| Encoding.Categories | src/features/encoding.py:19 | the categories are strictly sorted and are exactly the column's text values |
| Encoding.Indicator | src/features/encoding.py:19 | an indicator is 1 exactly on its category and 0 elsewhere |
| Encoding.DummyName | src/features/encoding.py:19 | a dummy column is named prefix + "_" + value |
| Encoding.DummyNameInjective | src/features/encoding.py:19 | different categories get different names |
| Encoding.Dummies | src/features/encoding.py:19 | every dummy column carries the prefix and has one value per row |
| Encoding.DummyKeys | src/features/encoding.py:19 | every dummy column is the indicator of a category other than the first |
| Encoding.DummyAt | src/features/encoding.py:19 | every category but the first has its indicator column |
| Encoding.AtMostOneHot | src/features/encoding.py:19 | a row sets at most one indicator per categorical |
| Encoding.NoneHot | src/features/encoding.py:19 | a row sets none exactly when its value is missing or the first category |
| Encoding.GetDummies | src/features/encoding.py:16-19 | `get_dummies` succeeds exactly when the three categorical columns are present, and keeps the row count |
| Encoding.PrefixesApart | src/features/encoding.py:16-19 | names of different prefixes never coincide, nor with a categorical column |
| Encoding.CategoricalsGone | src/features/encoding.py:19 | the three categorical columns are removed |
| Encoding.DummiesPresent | src/features/encoding.py:19 | every category but the first of each categorical has its indicator column |
| Encoding.OthersKept | src/features/encoding.py:19 | every other unprefixed column is unchanged |
| Encoding.CreateEncodingFeatures | src/features/encoding.py:5-21 | the label, the drop and the encoding, failing exactly where `get_dummies` raises |
| SplitData.Where | src/split_data.py:11-22 | a mask keeps exactly the rows that pass, in input order |
| SplitData.MakePart | src/split_data.py:24-29 | each X has as many rows as its y |
| SplitData.PartShape | src/split_data.py:11-29 | each X lacks `target` and DATE and keeps every other column; its y has the same rows; no label is missing |
| SplitData.TemporalSplit | src/split_data.py:7-31 | `temporal_train_test_split`: its parts are stated in SplitData.PartShape, PartRows, ExactlyOneSplit and SplitsOrdered |
| SplitData.PartRows | src/split_data.py:24-29 | row k of X and of y come from the same input row |
| SplitData.ExactlyOneSplit | src/split_data.py:20-22 | with the validation date no later than the test date, each dated row lands in exactly one split, and a NaT in none |
| SplitData.WhereExact | src/split_data.py:20-22 | a row is selected exactly when it passes the mask |
| SplitData.SplitsOrdered | src/split_data.py:20-22 | every train date precedes every validation date, which precedes every test date |
| Fighters.AllFighters | src/fighters.py:24-27 | the fighter list is strictly sorted and holds exactly the names in either slot |
| Fighters.ExistsIffListed | src/fighters.py:30-32 | a fighter exists exactly when it is listed |
| Fighters.FighterExists | src/fighters.py:30-32 | `fighter_exists`: the name is in either name column; stated in Fighters.ExistsIffListed and LatestFightSpec |
| Fighters.FighterRows | src/fighters.py:43-44 | the mask selects exactly the bouts with the name in either slot, in table order |
| Fighters.LatestFight | src/fighters.py:49 | the latest bout is a row of the table |
| Fighters.LatestFightSpec | src/fighters.py:43-49 | a latest bout exists exactly when the fighter does; it holds the name, has the maximum date, and is the last row of that date |
| Fighters.FirstWithDate | src/fighters.py:50 | the feature row is the first row of that date, or none exists |
| Fighters.RowSeries | src/fighters.py:50 | a row as a series lists each column's cell in column order |
| Fighters.FilterPrefix | src/fighters.py:54 | exactly the entries whose label starts with the prefix are kept |
| Fighters.RenameKeys | src/fighters.py:57-58 | every label has each occurrence replaced, and values stay |
| Fighters.ReplaceLeading | src/fighters.py:58 | replacing in a label that starts with the pattern starts with the replacement |
| Fighters.RenamedPrefix | src/fighters.py:58 | a renamed slot-2 label starts with "fighter1_" |
| Fighters.NotFoundIff | src/fighters.py:43-47 | the lookup raises not-found exactly when the name occurs in no bout |
| Fighters.FoundFeatures | src/fighters.py:49-58 | the returned features are the prefixed columns of the first feature row dated as the latest bout, with unchanged values, all keys starting with "fighter1_" |
| Fighters.FighterFeatures | src/fighters.py:35-60 | `get_fighter_features`: its outcomes are stated in Fighters.NotFoundIff, FoundFeatures and SharedCardFirstRow |
| Fighters.SharedCardFirstRow | src/fighters.py:49-50 | on a card of two bouts with the same date, the fighter of the second bout gets the first bout's feature row, because the row is chosen by date alone |
| Fighters.DataCache.constructor | src/fighters.py:6-7 | both caches start empty |
| Fighters.DataCache.GetPreprocessed | src/fighters.py:10-14 | the table is computed on the first call only (the run count grows by one then and never again), later calls return the cached one, and the features cache is untouched |
| Fighters.DataCache.GetFeatures | src/fighters.py:17-21 | the features are computed on the first call only (the run count grows by one then and never again), later calls return the cached ones, and the table cache is untouched |
| Predict.ModelCache.constructor | src/predict.py:7-8 | the model cache starts empty |
| Predict.ModelCache.GetModel | src/predict.py:10-20 | a model is loaded (and the load count grows by one) exactly when the cache is empty or the path differs; then it and its path are cached; otherwise the cached model is returned and nothing changes |
| Predict.ToDictKeys | src/predict.py:35 | `to_dict()` has exactly the series labels as keys |
| Predict.ToDict | src/predict.py:35 | `Series.to_dict()`, a later label overwriting an earlier one; stated in Predict.ToDictKeys, ToDictAt and ToDictStep |
| Predict.ToDictAt | src/predict.py:35 | a label that occurs nowhere later maps to its value |
| Predict.ToDictStep | src/predict.py:38-40 | each loop write adds one entry |
| Predict.SharedEntries | src/predict.py:51-52 | the shared entries are exactly those whose label does not start with "fighter" and is not DATE or `target` |
| Predict.Slot2 | src/predict.py:38-39 | fighter 2's entries are renamed one for one |
| Predict.Zeros | src/predict.py:66-68 | exactly the expected names still absent get 0 |
| Predict.Assembled | src/predict.py:35-68 | the assembled row has every expected name |
| Predict.SelectRow | src/predict.py:74 | the model row holds the expected columns, in the model's order |
| Predict.AssembleRow | src/predict.py:35-68 | the three loops build the assembled row |
| Predict.AddSlot2 | src/predict.py:38-40 | the fighter 2 loop adds the renamed entries over the existing ones |
| Predict.AddShared | src/predict.py:51-54 | the shared-column loop adds the reference row's shared entries |
| Predict.AddZeros | src/predict.py:66-68 | the fill loop adds 0 for each absent expected name |
| Predict.ZerosStep | src/predict.py:66-68 | one more expected name is added as 0 exactly when absent |
| Predict.Fighter1Kept | src/predict.py:35-40 | fighter 1's canonical entries are unchanged in the assembled row |
| Predict.Fighter2Renamed | src/predict.py:38-40 | fighter 2's entries appear under slot-2 labels |
| Predict.SharedCopied | src/predict.py:51-54 | every shared column of the reference row is copied verbatim |
| Predict.ZeroFilled | src/predict.py:66-68 | an expected column supplied by no source is 0 |
| Predict.NotShared | src/predict.py:51-52 | a slot-labelled key is never shared |
| Predict.FloatCell | src/predict.py:74 | `float()` keeps numbers and NaN, raises on dates, and gives numbers or NaN only |
| Predict.FloatOfNumeral | src/predict.py:74 | numeral text converts to its value |
| Predict.AsFloat | src/predict.py:74 | `astype(float)` succeeds exactly when every cell converts, and then holds the converted cells |
| Predict.AsFloatNumeric | src/predict.py:74 | a row of numbers and NaN converts to itself |
| Predict.FeatureNames | src/predict.py:57-63 | the model's list when it has one, and otherwise every feature column except DATE and `target` |
| Predict.Without | src/predict.py:63 | the list without the dropped names |
| Predict.Winner | src/predict.py:84 | fighter 1 is the predicted winner exactly when the probability exceeds one half |
| Predict.ServePrediction | src/predict.py:22-85 | on the cached or freshly loaded model and tables, the outcome is `PredictFight`; afterwards the model and both tables are cached, and a load or computation is counted only when it happened |
| Predict.PredictTwice | src/predict.py:10-28 | a second prediction loads no model and computes no table, and gives the same outcome as the first |
| Predict.PredictWith | src/predict.py:30-85 | the prediction on given tables is `PredictFight` |
| Predict.PredictFight | src/predict.py:22-85 | `predict_fight` on given model and tables; its outcomes are stated in Predict.FirstNotFound, SecondNotFound, PredictFightFound, PredictedRow and WinnerRule |
| Predict.ScoreRow | src/predict.py:34-85 | the steps after both lookups compute `Score` of the assembled row |
| Predict.Score | src/predict.py:74-85 | scoring either fails as not numeric or yields a prediction |
| Predict.PredictFightFound | src/predict.py:31-48 | once both lookups and the reference row succeed, the outcome is the score of the assembled row, and the reference row is a feature row |
| Predict.ReferenceRow | src/predict.py:43-48 | the reference row is a feature row |
| Predict.ModelInput | src/predict.py:34-74 | the model input has one value per expected feature |
| Predict.WinnerRule | src/predict.py:79-85 | the two probabilities sum to 1, and fighter 1 wins exactly above one half, so a toss-up goes to fighter 2 |
| Predict.FirstNotFound | src/predict.py:31 | the prediction reports fighter 1 not found exactly when fighter 1 is in no bout |
| Predict.SecondNotFound | src/predict.py:32 | with fighter 1 found, the prediction reports not-found exactly when fighter 2 is in no bout |
| Predict.SameNameAccepted | src/predict.py:31-32 | two equal names are not rejected |
| Predict.SecondChecked | src/predict.py:31-32 | with fighter 1 found, the prediction reports not-found exactly when fighter 2's lookup does, and the report names fighter 2 |
| Predict.PredictedRow | src/predict.py:31-77 | a prediction's probability is the classifier applied to the assembled row after `astype(float)`, with the reference row being the first feature row dated as fighter 1's latest bout |

## Left out

- **Input and output.**
  - CSV loading and the left merges of `combine_dataframes` (src/preprocessor.py:59-72,107-133) are file I/O and library joins. The joined table is an input.
  - The per-fighter statistics are modelled up to the aggregated value each merge looks up.
  - `create_features()` and the other loaders that relate the caches (src/features/__init__.py) are not part of this model. Their results are parameters of the caches.
- **The classifier.**
  - The classifier (src/model.py) is the `proba` function parameter.
  - Loading a model from disk is the `loaded`/`stored` parameter.
  - Its feature list is an optional sequence. The distinction between `feature_names_in_` and the booster's names is collapsed into that one option.
  - The tuning dates (src/tuning.py) are parameters.
- **Floating point.** Means, ratios and the age's division by 365.25 are exact reals; no float equality is claimed.
- Basic.MonthOfDay: proved to give month m on the day number of every civil date y-m-d of the reference calendar (Basic.MonthOfCivil); that every day number is the day number of some civil date is not proved, although the reference calendar's days are contiguous (Calendar.NextMonth, Calendar.NextYear).
  - `parse_percentage` (a `float()` parse) is not modelled. Neither is `parse_dob` (`to_datetime`); birth dates arrive as parsed date cells. Both are at src/preprocessor.py:17-20,51-54.
  - Basic.AgeCol: the age is stated by `age * 365.25 == days`, not by floating division.
- **Rounding.** The rounding of the returned probabilities to four places (src/predict.py:82-83) is left out.
- **Code outside this model.**
  - src/features/ratios.py, interactions.py and consistency.py are float quotients, products and rolling standard deviations.
  - src/eda.py, src/train.py, src/trainFinal.py, frontend/script.js, src/backend/api.py and run_api.py are not part of this model.
  - The identical-name check of api.py:27-28 is therefore not modelled. Predict.SameNameAccepted states that `predict_fight` itself accepts two equal names.
- **The feature lists** (`RATE_COLS`, `AVG_COLS`, `COLS_TO_DROP`, the model's feature list) are parameters, since the file that defines them is not part of this model.
- **Pandas quirks** (intended per-row meaning modelled instead):
  - Positional alignment: the positional `.values` assignment after a group-ordered `apply` (src/features/historical.py:33-41, helpers.py:20-23) is modelled as aligned by row.
  - Sort ties: `sort_values`' unstable default sort is modelled as a stable sort with missing dates last (src/features/basic.py:26, fighters.py:49).
- **Cell types.**
  - Historical.RoundNumeric: text ROUND values are parsed as integers only. Decimal or exponent text forms of `to_numeric` are not modelled.
  - Encoding.GetDummies: indicator columns are numeric 1/0 rather than pandas' `bool` dtype. Non-text category values (numbers, dates) get no columns.
  - Encoding.GetDummies: a name collision between a generated column and an existing one is not modelled; the generated column wins.
  - Historical.FillAvgs: the median is taken over numbers only; a non-numeric AVG_COLS column is left as is.
  - Text.Lower: only ASCII A–Z are lower-cased. Python's `lower()` maps all of Unicode (U+212A KELVIN SIGN becomes 'k', for example), so a method text with such characters can get a different category in Python.
  - Basic.StanceOr: the stance columns are assumed to hold text or NaN. A number there reads as "Unknown", where the concatenation at src/features/basic.py:23 raises.
  - Preprocessor.StripCell: a column that holds no text at all makes pandas' `.str` accessor raise; the model turns every cell into NaN instead.
  - Preprocessor.ParseFraction and the other integer parsers: Python's `int()` is modelled on whitespace, an optional sign and ASCII digits. Underscores and non-ASCII digits are not accepted.
- **Serving details.**
  - Predict.FloatCell: `float()` is modelled on integer text only. Decimal, exponent, `nan` and `inf` text raises in the model, so a row holding such text gives NotNumeric where Python predicts.
  - Predict.ToDictKeys: a series with a duplicated label keeps its last entry, as `to_dict()` does. Label lookups such as `f2_features[col]` with a duplicated label are modelled entry-wise.
  - Fighters.RenameKeys: `str.replace` is modelled on every occurrence, as Python does, not only on the leading prefix.
- **Split.**
  - The unused `X` and `y` built at src/split_data.py:13-14 are not modelled.
  - `pd.to_datetime(df['DATE'])` at line 15 is the identity on the already parsed dates.
- **Glue.** The sequencing of the stages in src/features/__init__.py and the `df.copy()` defragmentation calls do not change any value and are not modelled.
- Historical.AverageNoLookahead: this is stated only where the window mean is defined. Rows without an earlier value take the column mean, which is a whole-column figure and so depends on later rows too.
