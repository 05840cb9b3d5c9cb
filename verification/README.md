# Agenoria aggregation core in Dafny

Agenoria turns the logs of a baby-tracking app (Glow) and of a smart scale (Hatch) into charts. This project models the part that computes the charts' data:

- **Diaper table.** Changes are classified as pee, poop or both and rolled up into one row per calendar day. Each row holds:
  - the daily count and a running cumulative count;
  - the pee and poop counts;
  - the poop ratio and the average gap between changes.

  The days are then bucketed by month, with constipation days (no poop) and diarrhea days (a poop ratio of 65 or more) counted separately.
- **Sleep tables.** There are three of them:
  - the current fractional-hour table, where sessions that cross midnight carry into the next day through an offset;
  - the earlier whole-hour tables;
  - the bars of the 24-hour sleep chart.
- **Feeding tables.** Per day they hold the sum, mean, min, max and count, the daytime and nighttime sums, and the gaps between daytime feeds. The bottle and solid series are merged, with bottle millilitres converted to ounces.
- **Clock-hour windows.** Daytime is 07:00–19:59 and nighttime is 00:00–06:59 or 21:00–23:59.
- **Growth tables.** The Hatch weights are de-duplicated, reindexed day by day and differenced, and their average gain is taken over 14 days. The heights are joined to the weights.
- **Medical log.** Monthly sums, and the days between vomits.
- **Axis labels and file names.** The tick labels and positions of the 24-hour charts, and the name of the exported file.
- **The older `Projects/BabyData` scripts.**

Tables are sequences of records, timestamps are a day number plus a second of the day, and amounts are exact `real`s. A reduction that pandas leaves as NaN is `None`, and an exception the code would raise is a `Fail` result.

One module follows each source file:

| module | source |
|---|---|
| `Clock`, `Grouping`, `Sorting`, `Monthly`, `Seqs`, `Labels`, `Outcomes` | shared pieces: timestamps, per-day selection, `sort_values`, `resample("BMS")`, reductions, `str()` of a number, result types |
| `DayWindows` | agenoria/parse_config.py |
| `DiaperCharts` | agenoria/plot_diaper_charts.py |
| `SleepStats` | agenoria/plot_sleep_stats_charts.py |
| `FeedingStats` | agenoria/plot_feeding_stats_charts.py, and the feeding parts of the two earlier files |
| `LegacyDaily` | agenoria/plot_daily_charts.py and agenoria/plot_sleep_feeding_charts.py (their sleep loops are the same code) |
| `Viz24h` | agenoria/plot_24h_viz.py |
| `Medical` | agenoria/plot_medical_charts.py |
| `Growth` | agenoria/plot_growth_charts.py |
| `PlotSettings` | agenoria/plot_settings.py |
| `BabyData` | Projects/BabyData |

Where the code and its documentation disagree, the model follows the code:

- **Sleep threshold.** The current sleep table compares durations with the literal `0.0333333` hours. A session of exactly 120 seconds (0.0333… h) is therefore kept. The earlier tables compare with `timedelta(minutes=2)` and drop it.
- **Legacy diaper classifier.** Every value other than "pee" and "poo" counts as both, including an empty cell.
- **Awake gaps in the earlier sleep tables.** Sessions of two minutes or less are left out of the awake gaps only. They still count in the total and in the longest session.

## Model

| member | source | states |
|---|---|---|
| `DayWindows.Daytime` | agenoria/parse_config.py:10-11 | a timestamp is daytime exactly when its time of day lies in [07:00:00, 20:00:00) |
| `DayWindows.Nighttime` | agenoria/parse_config.py:14-15 | a timestamp is nighttime exactly when its time of day is before 07:00:00 or from 21:00:00 on |
| `DayWindows.WindowsDisjoint` | agenoria/parse_config.py:10-15 | no timestamp is both daytime and nighttime |
| `DayWindows.EightPmIsUncovered` | agenoria/parse_config.py:10-15 | a timestamp is in neither window exactly when its clock hour is 20 |
| `DayWindows.WindowsDependOnHourOnly` | agenoria/parse_config.py:10-15 | two timestamps with the same clock hour are in the same windows, whatever their date, minutes or seconds |
| `DayWindows.WindowSizes` | agenoria/parse_config.py:10-15 | over the hours 0..23, daytime covers 13 hours and nighttime 10 |
| `Clock.Hour` | agenoria/plot_24h_viz.py:40 | the clock hour is the h with h·3600 ≤ second of day < (h+1)·3600 |
| `Clock.Minute` | agenoria/plot_24h_viz.py:40 | the minute is the m in 0..59 whose minute slot, inside the hour, contains the second of day |
| `Clock.DecimalHour` | agenoria/plot_24h_viz.py:40 | hour + minute/60 lies in [hour, hour+1) and so in [0, 24) |
| `Clock.DecimalHourAtMost` | agenoria/plot_24h_viz.py:40 | dropping the seconds never puts the decimal hour after the exact time of day |
| `Clock.LaterDayIsLaterInstant` | config/__init__.py:35-38 | a later calendar day is a later instant at any time of day, so sorting by time groups the days |
| `Grouping.Select` | agenoria/plot_diaper_charts.py:55 | a day's selection has as many rows as the table has on that day, and all of them are on that day |
| `Grouping.SelectKeepsOrder` | agenoria/plot_diaper_charts.py:55 | selecting a day from a sorted table keeps the rows sorted |
| `Grouping.SelectFromTable` | agenoria/plot_diaper_charts.py:55 | a day's selection is a sub-multiset of the table |
| `Grouping.DateRange` | agenoria/plot_diaper_charts.py:53 | `date_range(start, end)` holds start, start+1, …, end: end-start+1 days, none when start > end |
| `Grouping.FirstEmptyDay` | agenoria/plot_diaper_charts.py:73-74 | finds the first day in the range without a row, or reports that every day has one |
| `Grouping.Filter` | agenoria/plot_sleep_stats_charts.py:57 | a boolean-mask selection keeps only rows that satisfy the mask and is no longer than the table |
| `Grouping.FilterFirstMatch` | Projects/BabyData/baby_sleep_feeding_viz.py:89-90 | the first row of a selection is the table's first row satisfying the mask |
| `Grouping.FilterLastMatch` | Projects/BabyData/baby_sleep_feeding_viz.py:89-90 | the last row of a selection is the table's last row satisfying the mask |
| `Grouping.FilterMembership` | agenoria/plot_sleep_stats_charts.py:57 | a row is in a filtered table exactly when it is in the table and satisfies the mask |
| `Grouping.FilterTotal` | agenoria/plot_sleep_stats_charts.py:57-60 | summing a column over the filtered rows equals summing, over all rows, a column that is zero outside the mask |
| `Grouping.PartitionTotal` | agenoria/plot_sleep_stats_charts.py:52-60 | when every row's date lies in lo..hi, the per-day totals over lo..hi add up to the column total |
| `Grouping.TotalOverKeysLast` | agenoria/plot_sleep_stats_charts.py:52-60 | extending the range of days by one adds exactly the new day's total |
| `Grouping.FilterSortBy` | agenoria/plot_feeding_stats_charts.py:60-73 | filtering a sorted table gives the same rows as sorting the filtered table |
| `Grouping.SortTotal` | agenoria/plot_feeding_stats_charts.py:60-65 | sorting does not change a column's sum |
| `Grouping.FilterKeepsStrictOrder` | agenoria/plot_medical_charts.py:36 | a filter keeps a strictly increasing date order |
| `Grouping.UniqueSortedIsStrict` | agenoria/plot_growth_charts.py:56-57 | a sorted table in which every date occurs once is strictly increasing in date |
| `Sorting.SortByPermutesAndSorts` | agenoria/plot_sleep_stats_charts.py:37 | `sort_values` returns a permutation of the rows that is ordered by the key |
| `Sorting.InsertPermutes` | agenoria/plot_sleep_stats_charts.py:37 | inserting a row adds exactly that row to the multiset of rows |
| `Sorting.InsertKeepsSorted` | agenoria/plot_sleep_stats_charts.py:37 | inserting a row into a sorted table keeps it sorted |
| `Sorting.SortOccurrences` | agenoria/plot_growth_charts.py:56 | sorting keeps how many rows each date has |
| `Seqs.MaxOpt` | agenoria/plot_sleep_stats_charts.py:70 | `max()` is NaN exactly on an empty column, and otherwise a value of the column that bounds every value |
| `Seqs.MinOpt` | agenoria/plot_feeding_stats_charts.py:68 | `min()` is NaN exactly on an empty column, and otherwise a value of the column below every value |
| `Seqs.MeanOpt` | agenoria/plot_feeding_stats_charts.py:66 | `mean()` is NaN exactly on an empty column, and otherwise mean × count = sum |
| `Seqs.MinMaxPermutation` | agenoria/plot_feeding_stats_charts.py:67-68 | reordering a column changes neither its min nor its max |
| `Seqs.MeanBetweenMinAndMax` | agenoria/plot_feeding_stats_charts.py:65-68 | on a non-empty column, min ≤ mean ≤ max |
| `Seqs.CeilDiv` | agenoria/plot_settings.py:45 | `math.ceil(a / b)` is the r with (r-1)·b < a ≤ r·b |
| `Seqs.Arange` | agenoria/plot_settings.py:76 | `np.arange(start, stop, step)` holds start + step·i for as long as that stays below stop, and then stops |
| `Seqs.ArangeLength` | agenoria/plot_settings.py:76 | `np.arange(start, stop, step)` has ceil((stop-start)/step) entries |
| `Monthly.ResampleSum` | agenoria/plot_diaper_charts.py:139 | `resample("BMS").sum()` is empty exactly for an empty series; otherwise it has LastMonth - FirstMonth + 1 buckets, bucket i is month FirstMonth + i, each holds the total of the entries of its month, and every entry's month lies between the first and the last bucket |
| `Monthly.MonthSumIsSelectedTotal` | agenoria/plot_diaper_charts.py:139 | each month's bucket is the total of the entries of that month |
| `Monthly.ResampleSumTotal` | agenoria/plot_diaper_charts.py:139 | the monthly buckets add up to the total of the series: every entry lands in exactly one month |
| `Monthly.EntriesWithinMonths` | agenoria/plot_diaper_charts.py:139 | every entry's month lies between the first and the last bucket |
| `Monthly.ResampleCount` | agenoria/plot_diaper_charts.py:119 | `resample("BMS").count()` is empty exactly for no days; otherwise it has LastMonth - FirstMonth + 1 buckets, bucket i is month FirstMonth + i, and each counts the days that fall in its month |
| `DiaperCharts.CountPeePoop` | agenoria/plot_diaper_charts.py:21-36 | "pee" gives (1,0), "poo" (0,1), "pee and poo" (1,1), and every other value (0,0) |
| `DiaperCharts.CountsAreFilters` | agenoria/plot_diaper_charts.py:21-67 | `count()` is the number of changes with a filled-in content, the pee count the number of changes holding a pee ("pee" or "pee and poo"), and the poop count those holding a poop ("poo" or "pee and poo") |
| `DiaperCharts.CountsAtMostLogged` | agenoria/plot_diaper_charts.py:58-67 | a day's pees and poops are each at most its number of recorded changes |
| `DiaperCharts.PoopRatio` | agenoria/plot_diaper_charts.py:70 | the ratio is NaN exactly when the day has no recorded change; otherwise it lies in 0..100 and is 0 exactly when there was no poop |
| `DiaperCharts.DaySummary` | agenoria/plot_diaper_charts.py:53-93 | a daily row is dated with its day; its total is the number of changes with a recorded content and the running count adds it; its pee and poop counts are the changes holding a pee and a poop, each at most the total; ratio and average gap are NaN exactly when nothing was recorded; otherwise ratio × total = 100 × poop, within 0..100, and average gap × total = the day's span, so the gap has the span's sign and is no larger than it |
| `DiaperCharts.DayArithmetic` | agenoria/plot_diaper_charts.py:69-80 | ratio × total = 100 × poop and average gap × total = span, whenever they are defined |
| `DiaperCharts.ParseGlowDiaperData` | agenoria/plot_diaper_charts.py:39-107 | an empty table fails; otherwise the result is the table from the last row's date to the first row's date exactly when every day has a change, and fails at a day without one |
| `DiaperCharts.DailyRowsContiguous` | agenoria/plot_diaper_charts.py:53 | there is one row per day from the oldest date to the newest, in ascending order, with no gaps |
| `DiaperCharts.SeriesRow` | agenoria/plot_diaper_charts.py:53-59 | row i summarizes day start+i, with a running count that starts from the changes of the days before |
| `DiaperCharts.SeriesRowCounts` | agenoria/plot_diaper_charts.py:58-59 | row k's total is its day's recorded changes, and its cumulative count is the changes of days start..start+k |
| `DiaperCharts.SeriesStep` | agenoria/plot_diaper_charts.py:59 | each row's cumulative count is the previous row's plus its own daily total |
| `DiaperCharts.SeriesChained` | agenoria/plot_diaper_charts.py:50-59 | the cumulative column starts from zero and grows by each day's total |
| `DiaperCharts.RunningCount` | agenoria/plot_diaper_charts.py:50-59 | row i's cumulative count is the sum of the daily totals of rows 0..i |
| `DiaperCharts.ChainedRunningTotal` | agenoria/plot_diaper_charts.py:50-59 | a chained cumulative column never decreases and ends at the sum of all daily totals |
| `DiaperCharts.CumulativeIsRunningTotal` | agenoria/plot_diaper_charts.py:50-59 | in the parsed table the cumulative count never decreases, and its last value is the sum of the daily counts |
| `DiaperCharts.DailyCountsBounded` | agenoria/plot_diaper_charts.py:58-70 | on every row, pee ≤ total and poop ≤ total, and a day with a change has a poop ratio in [0, 100] |
| `DiaperCharts.DayNewestFirst` | config/__init__.py:36 | a day's selection from the newest-first table is newest first |
| `DiaperCharts.RowGapNonNegative` | agenoria/plot_diaper_charts.py:73-80 | with the table newest first, row i's average gap between changes is not negative |
| `DiaperCharts.ChangeGapNonNegative` | agenoria/plot_diaper_charts.py:73-80 | with the table newest first, every defined average gap between changes is ≥ 0 |
| `DiaperCharts.TotalsEntriesTotal` | agenoria/plot_diaper_charts.py:136-139 | the daily totals indexed by date sum to the sum of the daily counts |
| `DiaperCharts.DiaperMonthlyData` | agenoria/plot_diaper_charts.py:134-139 | one bucket per month from the month of the first daily row to that of the last, consecutive, each the sum of the daily totals of the rows of its month; none for no rows |
| `DiaperCharts.MonthTotalOfEntries` | agenoria/plot_diaper_charts.py:136-139 | re-indexing the daily totals by date keeps each month's total |
| `DiaperCharts.MonthlyTotalsMatchCumulative` | agenoria/plot_diaper_charts.py:134-139 | summed over all months, the monthly totals equal the final cumulative count |
| `DiaperCharts.AbnormalDaysDisjoint` | agenoria/plot_diaper_charts.py:110-131 | no daily row is both a constipation day (no poop) and a diarrhea day (ratio ≥ 65) |
| `DiaperCharts.ConstipatedDates` | agenoria/plot_diaper_charts.py:113-117 | the dates of the days with no poop, in row order |
| `DiaperCharts.DiarrheaDates` | agenoria/plot_diaper_charts.py:122-126 | the dates of the days whose poop ratio is at least the cutoff, in row order |
| `DiaperCharts.DaysPerMonth` | agenoria/plot_diaper_charts.py:118-120 | `resample("BMS").count()` of some days: none for no days, otherwise one bucket per month from the first to the last of their months, each counting the days of its month |
| `DiaperCharts.AbnormalDays` | agenoria/plot_diaper_charts.py:110-131 | the constipation series counts, per month, the days with no poop and the diarrhea series the days with a poop ratio of at least 65; each runs over consecutive months from the first to the last month holding such a day and is empty when there is none |
| `DiaperCharts.AbnormalBucketsBounded` | agenoria/plot_diaper_charts.py:110-131 | when no day is both, a month's constipation and diarrhea counts add up to at most the days of that month |
| `DiaperCharts.AbnormalCountsBounded` | agenoria/plot_diaper_charts.py:110-131 | in every month, constipation days plus diarrhea days are at most the days of the series in that month |
| `SleepStats.Offset` | agenoria/plot_sleep_stats_charts.py:43-50 | the offset is the end's decimal clock hour (hour + minute/60, in [0, 24)) for a session that ends after its date, and 0 for any other session |
| `SleepStats.OffsetWithinSession` | agenoria/plot_sleep_stats_charts.py:43-50 | for a session ending the next day, the carried part is at most the session's duration |
| `SleepStats.AwakeGaps` | agenoria/plot_sleep_stats_charts.py:73-74 | there is one gap per pair of consecutive kept sessions: Begin of one minus End of the next, older, one |
| `SleepStats.Naps` | agenoria/plot_sleep_stats_charts.py:78-85 | a session is a nap of day d exactly when it is kept, ends on d, and begins and ends in the daytime window |
| `SleepStats.SleepDayTotals` | agenoria/plot_sleep_stats_charts.py:52-92 | a day's total is its kept sleep, plus the offset carried in, minus its own offset; the nap count and nap duration are the number and the summed hours of the naps (kept, ending on the day, beginning and ending in daytime); nap plus night duration is exactly the total; naps are at most the kept sessions, in count and in hours |
| `SleepStats.SleepDayExtremes` | agenoria/plot_sleep_stats_charts.py:69-75 | the longest session is NaN exactly on a day without sessions and otherwise is the duration of one of them, dropped ones included, and bounds them all; the longest awake gap is NaN exactly with fewer than two kept sessions and otherwise is one of the gaps between consecutive kept sessions and bounds them all |
| `SleepStats.NapBounds` | agenoria/plot_sleep_stats_charts.py:77-89 | naps are kept sessions, so there are no more of them, and no more hours of them, than kept sessions |
| `SleepStats.ParseGlowSleepData` | agenoria/plot_sleep_stats_charts.py:24-52 | an empty table fails; otherwise the rows are the days from the last row's date to the first row's date, taken over the table sorted newest first |
| `SleepStats.SleepSeriesRow` | agenoria/plot_sleep_stats_charts.py:52-67 | row i summarizes day start+i with the offset carried from day start+i-1, and nothing carried into the first day |
| `SleepStats.SleepRowsContiguous` | agenoria/plot_sleep_stats_charts.py:52 | there is one row per day of the range, ascending, with no gaps |
| `SleepStats.SleepSeriesBalances` | agenoria/plot_sleep_stats_charts.py:59-67 | every row's total is its day's kept sleep plus the previous day's carry minus its own |
| `SleepStats.SleepTelescopes` | agenoria/plot_sleep_stats_charts.py:59-67 | the carries telescope: the first n totals add up to the kept sleep of those days minus the carry out of the n-th day |
| `SleepStats.SeriesTelescopes` | agenoria/plot_sleep_stats_charts.py:59-67 | over a whole range, the daily totals are the range's kept sleep minus what its last day carries out |
| `SleepStats.KeptHoursOfAllSessions` | agenoria/plot_sleep_stats_charts.py:52-60 | when every session's date lies in the range, the per-day kept sleep adds up to the kept sleep of all sessions |
| `SleepStats.SleepTotalsTelescope` | agenoria/plot_sleep_stats_charts.py:34-67 | when every session's date lies between the oldest and the newest row's dates, the sum of the totals is all kept sleep minus the last day's carry |
| `FeedingStats.AmountsTotal` | agenoria/plot_feeding_stats_charts.py:65 | `sum()` skips empty cells: it equals the total with an empty cell read as 0 |
| `FeedingStats.FeedingBasicsOf` | agenoria/plot_feeding_stats_charts.py:65-69 | sessions is the number of recorded amounts and sum their total (0 on an empty day); mean, min and max are NaN exactly on a day with no sessions; otherwise min is the smallest recorded amount and max the largest, each one of the amounts, min ≤ mean ≤ max and mean = sum / sessions |
| `FeedingStats.ParseFeedingBasics` | agenoria/plot_sleep_feeding_charts.py:123-161 | an empty table fails; otherwise there is one row of reductions per day from the last row's date to the first's |
| `FeedingStats.BasicsRows` | Projects/BabyData/baby_plot_daily.py:32-50 | row i is day start+i; its count and sum are those of that day's amounts, its min and max the day's smallest and largest amount, and its mean sum / count, between them; all but the zero sum are NaN on a day without amounts |
| `FeedingStats.Gaps` | agenoria/plot_feeding_stats_charts.py:77 | `diff()` without its leading NaN: the hours from each feeding to the next |
| `FeedingStats.GapsTelescope` | agenoria/plot_feeding_stats_charts.py:77 | the gaps add up to the time from the first feeding to the last |
| `FeedingStats.GapsNonNegative` | agenoria/plot_feeding_stats_charts.py:60-62 | feedings sorted by time have non-negative gaps |
| `FeedingStats.GapStats` | agenoria/plot_feeding_stats_charts.py:77-81 | with two or more sorted feedings, 0 ≤ min gap ≤ mean gap ≤ max gap, and the mean gap is the first-to-last span over the number of gaps |
| `FeedingStats.SortedWindows` | agenoria/plot_feeding_stats_charts.py:60-86 | sorting a day by time changes neither its sum nor which rows each window selects, nor their sums |
| `FeedingStats.AmountsSortPermutes` | agenoria/plot_feeding_stats_charts.py:60-62 | sorting a day's rows by time only reorders its amounts |
| `FeedingStats.FeedingDaySums` | agenoria/plot_feeding_stats_charts.py:60-86 | a day's reductions are those of its rows in any order: the count, sum and mean of its amounts and its smallest and largest amount (`min()`/`max()` of the unsorted amounts); its daytime and nighttime sums are the totals of the rows in those windows |
| `FeedingStats.FeedingDayGaps` | agenoria/plot_feeding_stats_charts.py:72-81 | the gap statistics are NaN exactly with fewer than two daytime feedings; otherwise they are ordered, non-negative, and the mean is the daytime span over the number of gaps |
| `FeedingStats.WindowSumsPartition` | agenoria/plot_feeding_stats_charts.py:72-86 | daytime sum + nighttime sum + what was fed in the 20:00 hour = the day's sum |
| `FeedingStats.DaySumSplits` | agenoria/plot_feeding_stats_charts.py:65-86 | a daily row's sum is its daytime sum, plus its nighttime sum, plus the 20:00 hour's feedings |
| `FeedingStats.ParseGlowFeedingData` | agenoria/plot_feeding_stats_charts.py:38-110 | an empty table fails; otherwise there is one row per day from the last row's date to the first's |
| `FeedingStats.FeedingSeriesRow` | agenoria/plot_feeding_stats_charts.py:56-58 | row i summarizes the feedings dated start+i |
| `FeedingStats.FeedingRows` | agenoria/plot_feeding_stats_charts.py:56-86 | row i is dated start+i, its sum is that day's total, and the sum splits into the two window sums plus the 20:00 hour |
| `FeedingStats.CombineBottleSolid` | agenoria/plot_feeding_stats_charts.py:113-128 | the merge is as long as the longer series, and an entry is defined exactly where there is a bottle sum |
| `FeedingStats.CombineRightAligned` | agenoria/plot_feeding_stats_charts.py:113-128 | with no more solid days than bottle days, the solids are right-aligned after zeros: entry i is bottle/29.5735, plus the matching solid sum in the last rows |
| `FeedingStats.CombineSolidLonger` | agenoria/plot_feeding_stats_charts.py:113-128 | with more solid days, nothing is padded: entries pair from the start, and are NaN past the end of the bottle series |
| `LegacyDaily.LegacyPeePoop` | agenoria/plot_daily_charts.py:91-99 | "pee" counts as pee only and "poo" as poop only; every other value counts as both |
| `LegacyDaily.LegacyCountsAtLeastCurrent` | agenoria/plot_daily_charts.py:91-99 | the legacy classifier counts at least what the current one does, and differs from it exactly on values that are not "pee", "poo" or "pee and poo" |
| `LegacyDaily.LegacyCountsCoverRows` | agenoria/plot_daily_charts.py:88-99 | every row adds to the pee count, the poop count or both |
| `LegacyDaily.ParseLegacyDiaperData` | agenoria/plot_daily_charts.py:58-109 | an empty table fails; a range whose last row is dated after its first fails because the result is never assigned; otherwise the result is the daily series, with at least one row |
| `LegacyDaily.LegacyCumulativeNonDecreasing` | agenoria/plot_daily_charts.py:76-103 | the rows run day by day from the oldest date, and the cumulative count never decreases |
| `LegacyDaily.LegacyDiaperRow` | agenoria/plot_daily_charts.py:79-103 | row i is dated start+i, counts the changes of every day up to it, and its pee and poop columns count that day's changes that are not "poo" and not "pee" respectively |
| `LegacyDaily.LegacyCountsAreFilters` | agenoria/plot_daily_charts.py:89-99 | the legacy pee count is the number of changes other than "poo", the poop count the number other than "pee", so empty and unknown cells count in both |
| `LegacyDaily.LoggedThroughMonotone` | agenoria/plot_daily_charts.py:86 | counting changes over more days never gives fewer |
| `LegacyDaily.ElapsedMax` | agenoria/plot_daily_charts.py:185 | the longest session is one of the day's sessions and bounds them all |
| `LegacyDaily.LegacyAwakeGaps` | agenoria/plot_daily_charts.py:189-196 | one gap per pair of consecutive sessions longer than two minutes: Begin of one minus End of the next |
| `LegacyDaily.FloorHours` | agenoria/plot_daily_charts.py:182 | `// 3600` is the floor, for negative seconds too |
| `LegacyDaily.LegacyCarryOut` | agenoria/plot_daily_charts.py:165-179 | only the latest-beginning session decides the carry: the seconds from midnight to its end when it ends on a later date than it begins, 0 otherwise, and always under a day |
| `LegacyDaily.CarryWithinSession` | agenoria/plot_daily_charts.py:169-176 | the carried seconds are at most the length of the session they come from |
| `LegacyDaily.SummarizeLegacySleepDay` | agenoria/plot_daily_charts.py:133-200 | naps count the sessions beginning strictly between 07:00 and 19:00; the total is the floor in hours of the day's seconds with the carries; the longest session is floored from one of the sessions and bounds them all; the awake maximum is NaN exactly with fewer than two sessions over two minutes, and otherwise is floored from one of the gaps between those sessions and bounds them all |
| `LegacyDaily.ParseLegacySleepData` | agenoria/plot_sleep_feeding_charts.py:29-120 | an empty table fails; the run succeeds exactly when every day of the range has a session, and otherwise fails naming a day without one |
| `LegacyDaily.LegacySleepRow` | agenoria/plot_daily_charts.py:133-200 | row i is day start+i, and its total floors that day's seconds with the carry from day start+i-1 |
| `LegacyDaily.LegacyCarryTelescopes` | agenoria/plot_daily_charts.py:160-179 | the carry added to a day is exactly what the day before subtracted: the first n days' unfloored seconds are all their elapsed seconds minus the last day's carry |
| `LegacyDaily.LegacyTotalsFloor` | agenoria/plot_sleep_feeding_charts.py:70-94 | every row of a successful run floors its day's unfloored seconds to whole hours |
| `Viz24h.GetEndDate` | agenoria/plot_24h_viz.py:30-32 | 365 when only the first year is shown, and otherwise the first day number; an empty column fails |
| `Viz24h.ParseRawData` | agenoria/plot_24h_viz.py:35-45 | the rows are unchanged; each gets its decimal hour in [0, 24); the last row has day number 1; and day numbers differ exactly as the dates do |
| `Viz24h.ParseKeepsRows` | agenoria/plot_24h_viz.py:35-45 | dropping the two added columns gives back the table |
| `Viz24h.DayNumbersFromOne` | agenoria/plot_24h_viz.py:37-43 | in a newest-first table every day number lies between 1 and the first row's number, which is the span in days + 1 |
| `Viz24h.EndDateCoversEveryRow` | agenoria/plot_24h_viz.py:92-96 | without the first-year cut-off, the chart ends at the newest row's day number, which no row exceeds |
| `Viz24h.SessionBars` | agenoria/plot_24h_viz.py:53-90 | a session within one day gets one bar from start to end; a session past midnight gets a bar up to 24:00 on its day and a bar from 0:00 on the next day, together 24 - start + end hours |
| `Viz24h.OffsetBarIsCarry` | agenoria/plot_24h_viz.py:61-64 | the next-day bar has the height of the offset that the daily sleep table carries |
| `Viz24h.BarsInsideTheDay` | agenoria/plot_24h_viz.py:53-90 | every bar lies within 0:00 to 24:00 |
| `Viz24h.BarsNonNegative` | agenoria/plot_24h_viz.py:53-67 | a session that ends no earlier than it begins draws bars of non-negative height |
| `Viz24h.SleepBars` | agenoria/plot_24h_viz.py:74-90 | one bar per session, plus one more per session that crosses midnight |
| `Viz24h.SleepBarsTotal` | agenoria/plot_24h_viz.py:74-90 | the bars add up to the hours each session occupies on the chart |
| `Viz24h.DrawnHoursAreDuration` | agenoria/plot_24h_viz.py:53-67 | for a session logged on whole minutes and lasting at most into the next day, the drawn hours are its duration |
| `Viz24h.ChartShowsLoggedSleep` | agenoria/plot_24h_viz.py:48-90 | for such sessions, the chart's bars add up to the logged sleep |
| `Viz24h.MapPoopColor` | agenoria/plot_24h_viz.py:156-168 | a missing colour gives "y", "yellow" "b", "green" "g", "brown" "m", and every other colour "r" |
| `Viz24h.ColorKeysMatchLegend` | agenoria/plot_24h_viz.py:171-200 | every dot's colour key is in the legend, and every legend key is used by some colour |
| `Medical.MonthlySums` | agenoria/plot_medical_charts.py:21-23 | none for an empty log; otherwise one bucket per month from the month of the earliest log date to that of the latest, consecutive, each the column's total over that month with missing values read as 0 |
| `Medical.MonthlySumsTotal` | agenoria/plot_medical_charts.py:61-63 | a column's monthly sums add up to the column's total |
| `Medical.VomitDays` | agenoria/plot_medical_charts.py:36 | the vomit days are rows whose Vomit value is exactly 1, and there are at most as many as rows |
| `Medical.DaysSinceLastVomit` | agenoria/plot_medical_charts.py:36-37 | one entry per vomit day: undefined for the first, then the days since the previous vomit day |
| `Medical.GapsPositive` | agenoria/plot_medical_charts.py:36-37 | with dates strictly increasing, every defined gap is positive |
| `Medical.GapsSpanTheVomitDays` | agenoria/plot_medical_charts.py:36-37 | the defined gaps add up to the days from the first vomit day to the last |
| `Medical.VomitTotalSplits` | agenoria/plot_medical_charts.py:34-37 | the vomit column totals one per vomit day plus the values of all other rows |
| `Medical.OtherVomitValuesOnlyInSums` | agenoria/plot_medical_charts.py:34-63 | the monthly vomit total is the number of vomit days plus the values of all other rows, and a row with any other value is missing from the gap series |
| `Growth.Age` | agenoria/plot_growth_charts.py:35 | the age in months times 30.436875 is the number of days since the birthday |
| `Growth.AgeFromBirth` | agenoria/plot_growth_charts.py:35 | the age is 0 on the birthday, negative before it, and strictly increasing in the date |
| `Growth.Column` | agenoria/plot_growth_charts.py:38-41 | a `notnull()` table is the rows holding the reading, in log order and each once, turned into points with the age of their date |
| `Growth.ColumnHoldsEveryReading` | agenoria/plot_growth_charts.py:38-41 | every non-null reading of the column is in its table |
| `Growth.ColumnKeepsDateOrder` | agenoria/plot_growth_charts.py:38-41 | a log in strictly increasing date order gives a table in strictly increasing date order |
| `Growth.ParseGlowData` | agenoria/plot_growth_charts.py:27-43 | the height table is the rows with a height, in log order and each once, with date, age and height; the head table likewise for the head readings |
| `Growth.DatePart` | agenoria/plot_growth_charts.py:51 | `str[0: 10]` is the first ten characters, or the whole text when it is shorter |
| `Growth.DatePartDropsTime` | agenoria/plot_growth_charts.py:51 | a ten-character date followed by a time gives back the date |
| `Growth.DropDuplicateDates` | agenoria/plot_growth_charts.py:55-57 | the result is sorted and strictly increasing in date, and holds exactly the rows whose date occurs once |
| `Growth.DropDuplicatesFacts` | agenoria/plot_growth_charts.py:55-57 | filtering the sorted rows to the single readings gives a sorted, strictly increasing table of exactly those rows |
| `Growth.SameDayReadingsDropped` | agenoria/plot_growth_charts.py:51-57 | two readings whose start times fall on the same day are both dropped |
| `Growth.AmountOnAbsentDay` | agenoria/plot_growth_charts.py:60-63 | a day without a row has no weight after reindexing |
| `Growth.AmountOnDistinctDates` | agenoria/plot_growth_charts.py:60-63 | in a table with distinct dates, a row's day keeps that row's weight |
| `Growth.Roc` | agenoria/plot_growth_charts.py:70-72 | the change is this day's weight minus the previous day's, and 0 on the first day or when either weight is missing |
| `Growth.RocTelescopes` | agenoria/plot_growth_charts.py:70-72 | over days that all have a weight, the changes add up to the last weight minus the first |
| `Growth.WeightAverageRoc` | agenoria/plot_growth_charts.py:74-79 | the average gain is undefined exactly on the first 13 days |
| `Growth.AverageGainOverWindow` | agenoria/plot_growth_charts.py:74-79 | when the last 15 days all have a weight, the average gain is the gain over 14 days, per day, in ounces |
| `Growth.FirstAverageSpansThirteenDays` | agenoria/plot_growth_charts.py:69-79 | the first defined average, on day 14, divides the 13 changes since day 1 by 14, because the first change is filled with 0 |
| `Growth.HatchDays` | agenoria/plot_growth_charts.py:59-79 | the day table runs day by day from its first date, with the age, the change and the average gain of each day |
| `Growth.ReindexedAmounts` | agenoria/plot_growth_charts.py:59-63 | day lo+i of the reindexed range has the weight of the table's row on that day, if any |
| `Growth.ParseHatchData` | agenoria/plot_growth_charts.py:46-83 | fails exactly when no date occurs once; otherwise the table runs day by day from its first date, with each day's age |
| `Growth.ParsedAsHatchDays` | agenoria/plot_growth_charts.py:46-83 | the parsed table is the reindexed weights of the single readings, from their first date to their last |
| `Growth.SingleReadingKept` | agenoria/plot_growth_charts.py:55-63 | a reading on a day weighed once lies inside the parsed range and keeps its weight there |
| `Growth.UnweighedDayHasNoWeight` | agenoria/plot_growth_charts.py:55-63 | a day on which no single reading falls has no weight |
| `Growth.HatchRoc` | agenoria/plot_growth_charts.py:70-72 | the parsed table's change column is the difference from the previous day, 0 where either is missing |
| `Growth.HatchAverageGain` | agenoria/plot_growth_charts.py:74-79 | in the parsed table, once the last 15 days all have a weight, the average gain is their 14-day gain per day in ounces |
| `Growth.WeightOn` | agenoria/plot_growth_charts.py:229-230 | `float(match['Amount'].values)` succeeds exactly when the date occurs once, giving that day's weight, and otherwise fails |
| `Growth.WeightFoundInsideRange` | agenoria/plot_growth_charts.py:229-230 | looking a date up in the parsed table succeeds exactly inside its date range |
| `Growth.WeightOfSingleReading` | agenoria/plot_growth_charts.py:229-230 | the weight looked up on a single reading's day is that reading's weight |
| `Growth.JoinWeightLength` | agenoria/plot_growth_charts.py:224-236 | the join fails exactly when some height's date cannot be looked up; otherwise point k pairs the k-th height (in reading order) whose day has a weight with that weight, so there is one point per such height and no other point |
| `Growth.HeightOutsideWeighedRangeFails` | agenoria/plot_growth_charts.py:227-230 | a height measured before the first weighed day makes the join fail |
| `PlotSettings.HourLabels` | agenoria/plot_settings.py:44 | there are 24 hour labels, and label k is "k:00" |
| `PlotSettings.WeekLabels` | agenoria/plot_settings.py:45 | label j is the numeral of week 2j, and the labels are exactly the even weeks below ceil(date_num / 7) |
| `PlotSettings.LabelledWeeks` | agenoria/plot_settings.py:45 | the labelled weeks are 0, 2, 4, … |
| `PlotSettings.WeekTicks` | agenoria/plot_settings.py:76 | every week tick lies in 1..date_num |
| `PlotSettings.HourTicksMatchLabels` | agenoria/plot_settings.py:69-71 | the y tick at hour k carries "k:00", and no two hour labels are equal |
| `PlotSettings.WeekTicksMatchLabels` | agenoria/plot_settings.py:45-77 | for a chart of at least one day, there are ceil(date_num/14) week ticks and as many labels, and tick j, on day 1+14j, is labelled with week 2j |
| `PlotSettings.NoDaysNoWeekTicks` | agenoria/plot_settings.py:45-77 | a chart spanning no day has neither week ticks nor week labels |
| `PlotSettings.ExportFilename` | agenoria/plot_settings.py:144-149 | the file name is the directory, "/", the chart name and the format, in that order |
| `PlotSettings.DistinctChartsDistinctFiles` | agenoria/plot_settings.py:144-149 | charts with different names never overwrite each other's file |
| `Labels.NatToString` | Projects/BabyData/baby_sleep_feeding_viz.py:15 | `str(n)` is a non-empty run of digits without a leading zero |
| `Labels.ParseNatToString` | Projects/BabyData/baby_sleep_feeding_viz.py:15 | reading a numeral back gives the number it was made from |
| `Labels.LabelInjective` | Projects/BabyData/baby_sleep_feeding_viz.py:18-26 | labels made of the same prefix and suffix around different numbers are different |
| `BabyData.EnumerateLabels` | Projects/BabyData/baby_sleep_feeding_viz.py:12-28 | 24 hour labels as in the main charts, 52 week labels and 12 month labels |
| `BabyData.NumberedLabels` | Projects/BabyData/baby_sleep_feeding_viz.py:18-26 | count labels, each the prefix followed by more text |
| `BabyData.NumberedLabelsNameTheirPosition` | Projects/BabyData/baby_sleep_feeding_viz.py:18-26 | label k reads back as k after its prefix, so no two labels of a list are equal |
| `BabyData.GetSleepData` | Projects/BabyData/baby_sleep_feeding_viz.py:75-92 | keeps the rows whose key is "sleep", in file order; the start date is that of the file's last sleep row and the end date that of its first; a file without a sleep row fails |
| `BabyData.SessionBar` | Projects/BabyData/baby_sleep_feeding_viz.py:126-143 | a bar starts at the start hour and ends at the end hour, or at 24:00 (with positive height) for a session that crosses midnight |
| `BabyData.SessionBars` | Projects/BabyData/baby_sleep_feeding_viz.py:121-143 | one bar per session of the day, in row order |
| `BabyData.NoCrossingKeepsOffset` | Projects/BabyData/baby_sleep_feeding_viz.py:129-137 | a day without a session past midnight leaves the offset as it found it |
| `BabyData.CarryIsLastCrossing` | Projects/BabyData/baby_sleep_feeding_viz.py:129-137 | the offset after a day is the end hour of its last session that crossed midnight |
| `BabyData.OffsetOfLastSession` | Projects/BabyData/baby_sleep_feeding_viz.py:121-137 | the last session sets the offset when it crosses midnight, and otherwise leaves what the sessions before it set |
| `BabyData.DayBars` | Projects/BabyData/baby_sleep_feeding_viz.py:115-143 | a pending nonzero offset becomes a bar from midnight first; then comes each session's bar, in row order, and nothing else, all in the day's column; the offset handed on comes from this day's sessions only |
| `BabyData.PlotDays` | Projects/BabyData/baby_sleep_feeding_viz.py:109-145 | date_num grows by one per day, and every bar lies in a column of the days walked |
| `BabyData.PlotSleep` | Projects/BabyData/baby_sleep_feeding_viz.py:95-148 | fails exactly when there is no sleep row; otherwise date_num ends at the number of days + 1 and every bar is in a column 1..days |
| `BabyData.NextColumnOpensWithCarry` | Projects/BabyData/baby_sleep_feeding_viz.py:115-145 | column c+1 opens with a bar from midnight of the offset carried from column c, and a day whose sessions all end before midnight carries nothing |
| `BabyData.BabyWeekTicks` | Projects/BabyData/baby_sleep_feeding_viz.py:51 | tick j is day 1 + 7j, below date_num, and there are ceil((date_num-1)/7) ticks, none when date_num <= 1 |
| `BabyData.BabyMonthTicks` | Projects/BabyData/baby_sleep_feeding_viz.py:56 | tick j is day 1 + 30j, below date_num, and there are ceil((date_num-1)/30) ticks, none when date_num <= 1 |
| `BabyData.WeekLabelsFitTicks` | Projects/BabyData/baby_sleep_feeding_viz.py:49-52 | there is one week tick per week label exactly when date_num is 359..365 |
| `BabyData.MonthLabelsFitTicks` | Projects/BabyData/baby_sleep_feeding_viz.py:54-57 | there is one month tick per month label exactly when date_num is 332..361 |
| `BabyData.TickLabelsCountFromFirstDay` | Projects/BabyData/baby_sleep_feeding_viz.py:49-57 | a labelled week tick's number is the whole weeks from the first day to the tick, and a month tick's the 30-day blocks |
| `BabyData.ParseBabyHatchData` | Projects/BabyData/baby_plot_daily.py:61-73 | the table is strictly increasing in date and holds exactly the readings whose day occurs once |

## Left out

- Drawing, axis styling and chart assembly (matplotlib, seaborn): these are presentation.
- File input and output: `read_csv`, `savefig`, `mkdir`, the plotly upload and the configuration loader. The loader's newest-first sort and its "Date" column are taken as given: they are the `NewestFirst` preconditions and the `...Date` key functions.
- Parsing dates and times from text: timestamps arrive parsed. The day that `parse_hatch_data` reads from the first ten characters is a parameter (`parseDate`).
- IEEE floating point: amounts, ratios and unit factors are exact reals, and NaN is `None`.
- `Monthly.ResampleSum` and `Monthly.ResampleCount`: the model keys buckets by calendar month. `resample("BMS")` uses left-closed bins that start on each month's first business day. So a weekend day before a month's first business day lands in the previous month's bucket: 2020-02-01 and 2020-02-02, a Saturday and a Sunday, go into January 2020. The model puts them in February. The bucket totals over the whole series agree; the split between neighbouring months can differ by such days.
- `Medical.MonthlySums`: calendar-month buckets instead of business-month bins, as for `Monthly.ResampleSum`.
- `DiaperCharts.DiaperMonthlyData`: calendar-month buckets instead of business-month bins, as for `Monthly.ResampleSum`.
- `DiaperCharts.DaysPerMonth`: calendar-month buckets instead of business-month bins, as for `Monthly.ResampleCount`.
- `DiaperCharts.AbnormalDays`: calendar-month buckets instead of business-month bins, as for `Monthly.ResampleCount`.
- The DEBUG and `debug_mode` date overrides, and the debug printing of feedings: they are turned off in shipped configurations.
- CDC percentile overlays, the percentile charts, and the scatter charts of feedings and diapers beyond their colour mapping: these are presentation over data already modelled.
- The multi-process fan-out in agenoria/__main__.py and agenoria_main.py: concurrency with no shared state.
- The entry script agenoria.py, setup.py, the package `__init__`, and test/test_agenoria.py (which only checks file sizes).
- `parse_leap_data`, `parse_glow_weekly_data` and `get_feeding_data`/`plot_feeding` of Projects/BabyData: file readers and a chart with no aggregation beyond what `FeedingStats` models.
- `Sorting.SortByPermutesAndSorts`: pandas `sort_values` is not stable, and the model sorts stably. Rows with equal keys could come out in another order. Two results depend on this. The first is the order of awake gaps between sessions that begin at the same second. The second is the carry of the whole-hour sleep tables: `LegacyDaily.LegacyCarryOut` reads the first row after the sort (agenoria/plot_daily_charts.py:166-167). When two sessions share the latest Begin but have different Ends, pandas may carry the other session's offset.
- `SleepStats.SleepTotalsTelescope`: requires every session's date to lie between the oldest and the newest row's dates. The table is not sorted when the range is read, so other rows fall outside the loop and are not counted.
- `Growth.FirstAverageSpansThirteenDays`: states the first average only when the first 14 days all have a weight. With gaps, the filled zeros make the value a partial sum, which `HatchRoc` describes day by day.
- `DiaperCharts.ParseGlowDiaperData`: a day without any change raises in the source (`iloc` on an empty selection). The model returns `Fail(EmptyDay(d))` for the first such day instead of raising.
- `DiaperCharts.SummarizeDay`: a day whose changes all have an empty "In the diaper" cell has a count of 0. The model gives NaN (`None`) for both the poop ratio and the average gap. pandas divides by `np.int64(0)` (agenoria/plot_diaper_charts.py:70,80). That gives NaN for the ratio and for a zero span, but `inf` for the average gap when the day's span is positive. The model does not represent infinity.
