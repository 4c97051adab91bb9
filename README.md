# Rhythmic Life — a verified model of the time-tracking core

Rhythmic Life is a desktop time-tracking app. Users record activities. Each
activity has a type, a start and an end time, a description and an
efficiency score from 1 to 5. The app then shows the day's totals, weekly
statistics, an AI-style analysis and a suggested schedule. This project
models in Dafny the logic behind those screens:

- the analysis service (`services/ai.js`): time patterns, schedule
  generation, efficiency tips, habit analysis and habit recommendations;
- the application store (`contexts/AppContext.js`): the reducer with every
  action, and the start-up rule that guarantees a "未记录" (unrecorded) type;
- the schedule comparison and the distributions of the AI schedule page;
- the dashboard's today list, totals, per-type minutes and mean score;
- the statistics page's pie, bar and efficiency series;
- the record page's timer, form check and submit;
- the type page's colour check and its edit/cancel/submit/delete form.

Conventions used throughout:

- Timestamps are integer milliseconds.
- Date formatting and the local clock are fields of a `Calendar` value that
  callers pass in. These are the minute of the day, the zh-CN weekday name,
  the `yyyy-MM-dd` day key and `setHours`.
- `differenceInMinutes` truncates toward zero (`Common.DiffMinutes`).
- `Math.round` rounds half up (`Common.Round`).
- JavaScript's `%` keeps the sign of the dividend (`Common.JsRem`).
- A JavaScript object or `Map` that is filled in order is a `Dict`. A `Dict`
  is a sequence of key/value entries in insertion order. Assigning an
  existing key keeps its position.
- `Array.prototype.sort` is a stable insertion sort on an integer key
  (`Common.SortBy`).
- Numbers that the source divides are `real`.

Functions give the meaning of each operation. Where the source runs a loop
or builds a result step by step, a method with loop invariants is proved
equal to that function. Lemmas state what each result means.

Modules, one file each:

- `Common` (common.dfy)
- `Dict` (dict.dfy)
- `Records` (records.dfy)
- `Text` (text.dfy)
- `PatternAnalysis` (ai_patterns.dfy)
- `Scheduler` (ai_schedule.dfy)
- `Habits` (ai_habits.dfy)
- `AppState` (app_reducer.dfy)
- `ScheduleDiff` (schedule_diff.dfy)
- `Dashboard` (dashboard.dfy)
- `Statistics` (statistics.dfy)
- `ActivityRecordPage` (activity_record.dfy)
- `ActivityTypesPage` (activity_types_page.dfy)

## Model

| member | source | states |
|---|---|---|
| Common.Round | src/renderer/src/pages/Dashboard.js:172 | `Math.round` gives an integer within half of its argument |
| Common.TruncDiv | src/renderer/src/services/ai.js:18 | division toward zero: the quotient times the divisor lies between 0 and the dividend, within one divisor of it |
| Common.JsRem | src/renderer/src/pages/Dashboard.js:175 | `%` gives the remainder that completes the truncated quotient, carrying the dividend's sign |
| Common.DiffMinutes | src/renderer/src/services/ai.js:18 | `differenceInMinutes`: the whole minutes in a non-negative span, never positive for a negative span |
| Common.Filter | src/renderer/src/services/ai.js:16 | `filter` keeps only passing elements and never lengthens the list |
| Common.FilterMembers | src/renderer/src/services/ai.js:16 | an element is in the filtered list exactly when it is in the list and passes |
| Common.SortByFacts | src/renderer/src/services/ai.js:106 | the stable sort returns a permutation of its input, ordered by the key |
| Records.FindType | src/renderer/src/pages/Dashboard.js:68 | `find` returns a type in the list with the id, and nothing exactly when no type has that id; FindTypeFirst states that it is the first such type |
| Records.FindTypeFirst | src/renderer/src/pages/Dashboard.js:68 | at the first index carrying the id, `find` returns the type held there |
| Records.TotalScoreBounds | src/renderer/src/services/ai.js:42-44 | scores within [lo, hi] sum to between n·lo and n·hi |
| Records.TotalMinutesFilter | src/renderer/src/pages/Dashboard.js:65-78 | filtering records with non-negative durations never raises the total |
| Text.TrimEmpty | src/renderer/src/pages/ActivityRecord.js:147 | `trim()` yields the empty string exactly when every character is white space |
| Text.TrimEdges | src/renderer/src/pages/ActivityTypes.js:25 | a non-empty trimmed string starts and ends with a character that is not white space |
| Text.Trim | src/renderer/src/pages/ActivityRecord.js:147 | `trim()`; its meaning is stated by TrimEmpty and TrimEdges |
| PatternAnalysis.HourTable | src/renderer/src/services/ai.js:49-62 | one object per hour, each the row for that hour |
| PatternAnalysis.FillByName | src/renderer/src/services/ai.js:15-21 | the per-type loop fills the object keyed by type name in type order |
| PatternAnalysis.FillWeekly | src/renderer/src/services/ai.js:24-37 | the weekday loop builds one row per label '周日'…'周六' |
| PatternAnalysis.FillHours | src/renderer/src/services/ai.js:49-62 | the hour loop builds all 24 hourly objects |
| PatternAnalysis.AnalyzeTimePatterns | src/renderer/src/services/ai.js:6-65 | the four tables are those of the analysis function |
| PatternAnalysis.TypeCells | src/renderer/src/services/ai.js:15-46 | a type's daily average is its total over 7; its mean score is undefined exactly when it has no records |
| PatternAnalysis.HourCells | src/renderer/src/services/ai.js:49-62 | every one of the 24 hours has a cell for every type name, holding that hour's mean |
| PatternAnalysis.WeekdayCells | src/renderer/src/services/ai.js:25-37 | each weekday label has a row, and each row has a cell per type name holding that weekday's minutes |
| PatternAnalysis.WeekdayMinutesNoMatch | src/renderer/src/services/ai.js:28-35 | a weekday cell is 0 when no record of the type is formatted as that weekday |
| PatternAnalysis.HourEfficiencyNoMatch | src/renderer/src/services/ai.js:57-59 | an hour without records scores 0 (the `\|\| 1` divisor) |
| PatternAnalysis.EfficiencyWithinScale | src/renderer/src/services/ai.js:40-62 | with scores in 1..5 a defined mean is in [1, 5] and an hourly mean in [0, 5] |
| PatternAnalysis.UniformHistory | src/renderer/src/services/ai.js:15-46 | n records of d minutes and score s give a total of n·d and a mean of s |
| PatternAnalysis.HourSumsTotal | src/renderer/src/services/ai.js:49-62 | each record falls in exactly one hour, so the hourly sums and counts add up to the type's |
| PatternAnalysis.MeanAtMostBestHour | src/renderer/src/services/ai.js:40-62 | the type's mean never exceeds the best hourly mean |
| PatternAnalysis.Analysis | src/renderer/src/services/ai.js:6-65 | the four tables; their cells are stated by TypeCells, WeekdayCells and HourCells |
| PatternAnalysis.DailyAverage | src/renderer/src/services/ai.js:15-21 | a type's total minutes over 7; stated by TypeCells and UniformHistory |
| PatternAnalysis.WeekdayMinutes | src/renderer/src/services/ai.js:25-37 | the minutes of the type's records on a weekday label; stated by WeekdayCells and WeekdayMinutesNoMatch |
| PatternAnalysis.MeanEfficiency | src/renderer/src/services/ai.js:40-46 | the type's mean score, undefined without records; stated by TypeCells, EfficiencyWithinScale, UniformHistory and MeanAtMostBestHour |
| PatternAnalysis.HourEfficiency | src/renderer/src/services/ai.js:49-62 | the type's mean score in one hour, 0 without records; stated by HourCells, HourEfficiencyNoMatch and HourSumsTotal |
| Scheduler.BestScanArgmax | src/renderer/src/services/ai.js:83-91 | the scan finds the first hour with the largest positive efficiency, or hour 0 with efficiency 0 |
| Scheduler.BestHour | src/renderer/src/services/ai.js:83-91 | the loop returns that hour and efficiency |
| Scheduler.SuggestedDuration | src/renderer/src/services/ai.js:75-80 | the weekday minutes when above 1.2 times the daily average, otherwise the daily average; never below the average |
| Scheduler.ItemFor | src/renderer/src/services/ai.js:95-101 | the item carries the type; its confidence min(1, efficiency/5) is at most 1, and 1 from efficiency 5 on |
| Scheduler.GenerateSchedule | src/renderer/src/services/ai.js:68-109 | the schedule is sorted by start and is a permutation of the proposals |
| Scheduler.ProposalsAreFiltered | src/renderer/src/services/ai.js:74-103 | one item per type with a positive suggested duration, in type order |
| Scheduler.ScheduleItems | src/renderer/src/services/ai.js:68-109 | every item comes from such a type, has confidence at most 1, and the list is ordered by start |
| Scheduler.EmptyHistory | src/renderer/src/services/ai.js:68-109 | no history gives an empty schedule |
| Scheduler.WideNamesUseDailyAverage | src/renderer/src/services/ai.js:70-80 | when the formatter's names are never among the labels, no weekday row is found and a non-negative daily average is always the suggestion |
| Scheduler.Proposals | src/renderer/src/services/ai.js:74-103 | one item per type with a positive suggestion, in type order; stated by ProposalsAreFiltered |
| Scheduler.Schedule | src/renderer/src/services/ai.js:68-109 | the proposals sorted by start; stated by ScheduleItems, EmptyHistory and WideNamesUseDailyAverage |
| Scheduler.LowEfficiency | src/renderer/src/services/ai.js:117-118 | a defined efficiency below 3; stated by TipsAreFiltered and NoRecordsNoTip |
| Scheduler.Tips | src/renderer/src/services/ai.js:112-141 | the tips of the low-efficiency types in order; stated by TipsAreFiltered and TipImprovementNonNegative |
| Scheduler.TipFor | src/renderer/src/services/ai.js:117-136 | a tip carries the type, its efficiency below 3 and the best hour; the improvement is not negative when the best hour is at least as good |
| Scheduler.GenerateEfficiencyTips | src/renderer/src/services/ai.js:112-141 | the loop yields the tips of the tip function |
| Scheduler.TipsAreFiltered | src/renderer/src/services/ai.js:116-138 | a tip exists for exactly the types whose efficiency is defined and below 3, in order |
| Scheduler.NoRecordsNoTip | src/renderer/src/services/ai.js:117-118 | a type without records (NaN efficiency) gets no tip |
| Scheduler.TipImprovementNonNegative | src/renderer/src/services/ai.js:117-135 | on analysed history a type averaging below 3 gets a tip, and its promised improvement is never negative |
| Habits.DayCounts | src/renderer/src/services/ai.js:156-160 | one count per weekday label: the records formatted as that day |
| Habits.MaxOf | src/renderer/src/services/ai.js:164 | `Math.max` is an element that no element exceeds |
| Habits.MinOf | src/renderer/src/services/ai.js:165 | `Math.min` is an element that no element undercuts |
| Habits.IndexOf | src/renderer/src/services/ai.js:164-165 | `indexOf` is the first index holding the value, -1 exactly when it is absent |
| Habits.FirstMax | src/renderer/src/services/ai.js:164 | the most frequent day is the first index holding the largest count |
| Habits.FirstMin | src/renderer/src/services/ai.js:165 | the least frequent day is the first index holding the smallest count |
| Habits.MostFrequentDay | src/renderer/src/services/ai.js:164 | the most frequent day is the label with the largest count, the first such label on a tie |
| Habits.LeastFrequentDay | src/renderer/src/services/ai.js:165 | the least frequent day is the label with the smallest count, the first such label on a tie |
| Habits.AverageDaysPerWeek | src/renderer/src/services/ai.js:156-163 | the average is the number of the type's records formatted as one of the seven labels, over 7 |
| Habits.WideNamesNeverCounted | src/renderer/src/services/ai.js:155-165 | when the formatter's names are never among the labels, every day count is 0, both days are '周日' and the average is 0 |
| Habits.LabelledNamesAllCounted | src/renderer/src/services/ai.js:155-163 | when every formatted name is one of the labels, the counts add up to the type's records and the average is their number over 7 |
| Habits.ConsistencyOf | src/renderer/src/services/ai.js:153-167 | the consistency entry; stated by MostFrequentDay, LeastFrequentDay, AverageDaysPerWeek and WideNamesNeverCounted |
| Habits.DayCountsTotal | src/renderer/src/services/ai.js:156-163 | the day counts add up to the records whose weekday is one of the seven labels |
| Habits.ScanStreak | src/renderer/src/services/ai.js:175-193 | the loop computes the scan; the current streak is 0 exactly for no records and at most max(maxStreak, 1) |
| Habits.StreakBounds | src/renderer/src/services/ai.js:175-193 | the current streak is 0 exactly with no records; the maximum is 0 or at least 2; neither exceeds the count |
| Habits.SingleRecordStreak | src/renderer/src/services/ai.js:189-191 | one record gives a current streak of 1 and a maximum of 0 |
| Habits.ConsecutiveDays | src/renderer/src/services/ai.js:181-185 | n records on consecutive days give a current streak of n and a maximum of n (for n ≥ 2) |
| Habits.StreakStep | src/renderer/src/services/ai.js:179-192 | one record of the streak scan; stated by StreakBounds, SingleRecordStreak and ConsecutiveDays |
| Habits.StreakScan | src/renderer/src/services/ai.js:175-193 | the scan over the sorted records; stated by ScanStreak, StreakBounds and StreakZeroIffNoRecords |
| Habits.ImprovementOf | src/renderer/src/services/ai.js:207-215 | a trend exists exactly from two records on; it reads improving exactly when the change is positive |
| Habits.ShortUniformHistoryImproves | src/renderer/src/services/ai.js:209 | the fixed divisor 5 makes two to four records of one positive score read as improving |
| Habits.Improvements | src/renderer/src/services/ai.js:202-217 | the trend per type name; stated by ImprovementOf and FillImprovements |
| Habits.FillStreaks | src/renderer/src/services/ai.js:170-199 | the loop fills the streak object by type name |
| Habits.FillImprovements | src/renderer/src/services/ai.js:202-217 | the loop fills the improvement object, skipping types with fewer than two records |
| Habits.PushConsistencyRecs | src/renderer/src/services/ai.js:220-229 | appends a consistency recommendation per entry below 3 days a week |
| Habits.PushStreakRecs | src/renderer/src/services/ai.js:231-240 | appends a streak recommendation per streak of 1 or 2 |
| Habits.PushDecliningRecs | src/renderer/src/services/ai.js:242-251 | appends an improvement recommendation per declining trend |
| Habits.AnalyzeHabits | src/renderer/src/services/ai.js:144-254 | the report is that of the habit function |
| Habits.HabitsOf | src/renderer/src/services/ai.js:144-254 | the habit report; stated by AnalyzeHabits, StreakZeroIffNoRecords and the consistency lemmas |
| Habits.StreakZeroIffNoRecords | src/renderer/src/services/ai.js:170-198 | a type's current streak is 0 exactly when it has no records |
| Habits.GenerateHabitRecommendations | src/renderer/src/services/ai.js:257-302 | the loop yields the advice list, which is never empty |
| Habits.ConsistencyAdvicesNone | src/renderer/src/services/ai.js:261-270 | no consistency advice exactly when every entry averages at least 3 |
| Habits.StreakAdvicesNone | src/renderer/src/services/ai.js:273-289 | no streak advice exactly when every streak is non-zero and at least half its maximum |
| Habits.GeneralAdviceExactly | src/renderer/src/services/ai.js:292-299 | the general advice appears, alone, exactly when no other advice is due |
| Habits.HabitAdvice | src/renderer/src/services/ai.js:257-302 | the advice list; stated by ConsistencyAdvicesNone, StreakAdvicesNone and GeneralAdviceExactly |
| AppState.ReplaceById | src/renderer/src/contexts/AppContext.js:41-43 | `map` keeps the length |
| AppState.ReplaceFacts | src/renderer/src/contexts/AppContext.js:41-43 | positions with the payload's id hold the payload; all others are unchanged |
| AppState.ReplaceAbsent | src/renderer/src/contexts/AppContext.js:41-43 | replacing an id that nothing carries changes nothing |
| AppState.RemoveFacts | src/renderer/src/contexts/AppContext.js:48 | deleting leaves no element with the id, keeps every other element in order, and changes nothing when the id is absent |
| AppState.Reduce | src/renderer/src/contexts/AppContext.js:28-70 | each action changes only its own field; an unknown action returns the state unchanged |
| AppState.AddAppends | src/renderer/src/contexts/AppContext.js:36-53 | adding appends the payload after the unchanged old list |
| AppState.UpdateReplaces | src/renderer/src/contexts/AppContext.js:38-60 | updating keeps length and order and replaces exactly the elements with the payload's id |
| AppState.DeleteRemoves | src/renderer/src/contexts/AppContext.js:45-65 | deleting removes exactly the elements with the id and keeps the rest in order |
| AppState.SettingsMerge | src/renderer/src/contexts/AppContext.js:66-67 | the payload's keys override and every other setting is kept |
| AppState.DefaultsFrom | src/renderer/src/contexts/AppContext.js:85-89 | the six defaults are stored in order with the ids the store gives them |
| AppState.SomeUnrecorded | src/renderer/src/contexts/AppContext.js:92 | `some` holds exactly when a type is named '未记录' |
| AppState.UnrecordedExists | src/renderer/src/contexts/AppContext.js:84-98 | after start-up a '未记录' type exists; an empty load gives the six defaults; otherwise the loaded types stay in front with at most one added |
| AppState.EnsureUnrecorded | src/renderer/src/contexts/AppContext.js:84-98 | the start-up rule; stated by UnrecordedExists |
| ScheduleDiff.CreateTimeSlotMap | src/renderer/src/pages/AISchedule.js:240-254 | the loop builds the slot map |
| ScheduleDiff.SlotMapLastWins | src/renderer/src/pages/AISchedule.js:242-252 | one slot per typeId; the last item with a typeId decides its slot |
| ScheduleDiff.SlotMapKeys | src/renderer/src/pages/AISchedule.js:240-254 | a typeId has a slot exactly when an item carries it |
| ScheduleDiff.SlotMap | src/renderer/src/pages/AISchedule.js:240-254 | the slot per typeId; stated by SlotMapLastWins and SlotMapKeys |
| ScheduleDiff.PushUnmatched | src/renderer/src/pages/AISchedule.js:264-287 | one pass appends an entry per key the other map lacks |
| ScheduleDiff.PushChecks | src/renderer/src/pages/AISchedule.js:295-329 | the three checks on one shared typeId |
| ScheduleDiff.PushChanges | src/renderer/src/pages/AISchedule.js:290-331 | the pass over today's slots appends the checks of every shared typeId |
| ScheduleDiff.GetScheduleDifferences | src/renderer/src/pages/AISchedule.js:236-339 | the method returns the sorted differences of the function |
| ScheduleDiff.UnmatchedIff | src/renderer/src/pages/AISchedule.js:264-287 | an entry for a typeId exists exactly when one map has it and the other does not |
| ScheduleDiff.ChangesForShape | src/renderer/src/pages/AISchedule.js:296-329 | time, duration and confidence entries appear exactly past 30 minutes, 30 minutes and 0.2 |
| ScheduleDiff.ChangesAt | src/renderer/src/pages/AISchedule.js:290-331 | the change entries about a typeId are exactly the checks on its two slots |
| ScheduleDiff.NewAndRemoved | src/renderer/src/pages/AISchedule.js:263-287 | a 'new' entry exactly when only the compared schedule has the type; 'removed' exactly when only today's does |
| ScheduleDiff.SharedChanges | src/renderer/src/pages/AISchedule.js:290-331 | for a shared type each check is reported exactly when its threshold is exceeded |
| ScheduleDiff.SelfCompareEmpty | src/renderer/src/pages/AISchedule.js:236-339 | comparing a schedule with itself reports nothing |
| ScheduleDiff.ScheduleDifferences | src/renderer/src/pages/AISchedule.js:236-339 | the difference list; stated by UnmatchedIff, NewAndRemoved, SharedChanges, SelfCompareEmpty and DifferencesOrdered |
| ScheduleDiff.DifferencesOrdered | src/renderer/src/pages/AISchedule.js:334-338 | the sort keeps every entry and groups the time entries after the others, or before them when the locale orders "调整为" first |
| ScheduleDiff.OnePeriod | src/renderer/src/pages/AISchedule.js:701-718 | each start hour is in exactly one of morning, afternoon, evening and night |
| ScheduleDiff.DistributionTotal | src/renderer/src/pages/AISchedule.js:701-718 | the four counts add up to the number of items |
| ScheduleDiff.Distribution | src/renderer/src/pages/AISchedule.js:701-718 | the four period counts; stated by OnePeriod and DistributionTotal |
| ScheduleDiff.TypeDistributionValue | src/renderer/src/pages/AISchedule.js:721-724 | a name's value is the suggested minutes of the items with that name |
| ScheduleDiff.TypeDistributionKeys | src/renderer/src/pages/AISchedule.js:721-724 | a name is present exactly when an item carries it |
| ScheduleDiff.TypeDistributionTotal | src/renderer/src/pages/AISchedule.js:721-724 | the values add up to the schedule's suggested minutes |
| ScheduleDiff.TypeDistribution | src/renderer/src/pages/AISchedule.js:721-724 | minutes per type name; stated by TypeDistributionValue, TypeDistributionKeys and TypeDistributionTotal |
| Dashboard.TodayActivitiesFacts | src/renderer/src/pages/Dashboard.js:48-52 | today's list is exactly the records starting today, each as often as stored, in start order |
| Dashboard.TodayActivities | src/renderer/src/pages/Dashboard.js:48-52 | today's records in start order; stated by TodayActivitiesFacts |
| Dashboard.TotalMinutesPermutation | src/renderer/src/pages/Dashboard.js:55-62 | the total does not depend on order |
| Dashboard.TotalDurationOfToday | src/renderer/src/pages/Dashboard.js:55-62 | the day's total is the minutes of the records starting today |
| Dashboard.TotalDuration | src/renderer/src/pages/Dashboard.js:55-62 | the day's total minutes; stated by TotalDurationOfToday and TotalMinutesPermutation |
| Dashboard.AccumulateTypeDurations | src/renderer/src/pages/Dashboard.js:65-78 | the loop computes the per-type-name totals |
| Dashboard.TypeDurationsSnoc | src/renderer/src/pages/Dashboard.js:67-75 | one more record adds its minutes under its type's name, or nothing if its type is unknown |
| Dashboard.TypeDurationsValue | src/renderer/src/pages/Dashboard.js:65-78 | a name's value is the minutes of the records whose type has that name |
| Dashboard.TypeDurationsKeys | src/renderer/src/pages/Dashboard.js:65-78 | a name appears exactly when a record's type resolves to it |
| Dashboard.TypeDurationsTotal | src/renderer/src/pages/Dashboard.js:65-78 | the values add up to the minutes of the records whose type resolves |
| Dashboard.TypeDurationsBound | src/renderer/src/pages/Dashboard.js:55-78 | with non-negative durations, the per-type minutes never exceed the day's total |
| Dashboard.TypeDurations | src/renderer/src/pages/Dashboard.js:65-78 | minutes per type name; stated by TypeDurationsValue, TypeDurationsKeys, TypeDurationsTotal and TypeDurationsBound |
| Dashboard.AverageEfficiency | src/renderer/src/pages/Dashboard.js:81-85 | an empty day scores 0; otherwise the value times the number of records is their total score |
| Dashboard.AverageEfficiencyWithinScale | src/renderer/src/pages/Dashboard.js:81-85 | with scores in 1..5, a day with records averages within 1..5 |
| Dashboard.ShownAsWrittenOverstates | src/renderer/src/pages/Dashboard.js:172-175 | the displayed hours and minutes add back to the total only below 30 leftover minutes; otherwise an hour too many |
| Dashboard.NinetyMinutesShowTwoHours | src/renderer/src/pages/Dashboard.js:172-175 | 90 minutes are shown as 2 h 30 min |
| Dashboard.ShownAsWritten | src/renderer/src/pages/Dashboard.js:172-175 | the display as written; stated by ShownAsWrittenOverstates and NinetyMinutesShowTwoHours |
| Dashboard.Shown | src/renderer/src/pages/Dashboard.js:265 | the intended display adds back to the total, with 0 ≤ minutes < 60 |
| Statistics.Slices | src/renderer/src/pages/Statistics.js:23-26 | one slice per map entry, named by its key |
| Statistics.ComputePieData | src/renderer/src/pages/Statistics.js:12-27 | the loops compute the pie series |
| Statistics.PieDataFacts | src/renderer/src/pages/Statistics.js:12-27 | each slice is a distinct type name that some record resolves to, valued at the rounded hours of its records |
| Statistics.PieDataComplete | src/renderer/src/pages/Statistics.js:14-21 | every name a record resolves to has a slice |
| Statistics.PieData | src/renderer/src/pages/Statistics.js:12-27 | the pie series; stated by PieDataFacts and PieDataComplete |
| Statistics.TypeDurationsUnique | src/renderer/src/pages/Statistics.js:13-21 | the map holds no name twice |
| Statistics.BarData | src/renderer/src/pages/Statistics.js:36-55 | one row per day |
| Statistics.ComputeBarRow | src/renderer/src/pages/Statistics.js:37-54 | the loop computes one day's row |
| Statistics.ComputeBarData | src/renderer/src/pages/Statistics.js:30-56 | the loop computes every row |
| Statistics.FillRowKeys | src/renderer/src/pages/Statistics.js:46-52 | the row keeps its keys and gains every type name |
| Statistics.FillRowValue | src/renderer/src/pages/Statistics.js:46-52 | a name's value comes from the last type carrying it |
| Statistics.FillRowOther | src/renderer/src/pages/Statistics.js:46-52 | a key that no type carries keeps its value |
| Statistics.BarRowFacts | src/renderer/src/pages/Statistics.js:36-55 | a row has the label and every type name, each holding the rounded hours of that type on that day; the label survives unless a type is named "name" |
| Statistics.BarDataRows | src/renderer/src/pages/Statistics.js:36 | rows line up with the days |
| Statistics.CountedOnOneDay | src/renderer/src/pages/Statistics.js:37-40 | a record counts on the day of its start only |
| Statistics.BarRow | src/renderer/src/pages/Statistics.js:36-55 | one day's bar row; stated by BarRowFacts and CountedOnOneDay |
| Statistics.EfficiencyData | src/renderer/src/pages/Statistics.js:65-79 | one point per day, labelled with its formatted weekday; every point has at most one decimal; 0 on a day without records; a day with records scores within 0.05 of its mean, and within [1, 5] when the scores are in 1..5 |
| Statistics.DayEfficiencyBounds | src/renderer/src/pages/Statistics.js:71-77 | an empty day scores 0; otherwise the point is in [1, 5] and within 0.05 of the true mean |
| Statistics.DayEfficiency | src/renderer/src/pages/Statistics.js:71-77 | a day's rounded mean; stated by DayEfficiencyRounded and DayEfficiencyBounds |
| Statistics.DayEfficiencyRounded | src/renderer/src/pages/Statistics.js:71-77 | for any scores the point has at most one decimal, is 0 for an empty day and lies within 0.05 of the mean otherwise |
| ActivityRecordPage.NatStr | src/renderer/src/pages/ActivityRecord.js:120 | `toString` gives at least one digit |
| ActivityRecordPage.PadStart2 | src/renderer/src/pages/ActivityRecord.js:120 | `padStart(2, '0')` gives at least two characters and never truncates |
| ActivityRecordPage.ClockOf | src/renderer/src/pages/ActivityRecord.js:117-119 | hours, minutes and seconds recompose the count, with minutes and seconds below 60 |
| ActivityRecordPage.Pad2Small | src/renderer/src/pages/ActivityRecord.js:120 | a number below 100 pads to its two digits |
| ActivityRecordPage.FormatTimeRoundTrip | src/renderer/src/pages/ActivityRecord.js:116-121 | below 100 hours the display is "HH:MM:SS" and reads back to the same count |
| ActivityRecordPage.FormatTimeLong | src/renderer/src/pages/ActivityRecord.js:116-121 | from 100 hours on the display is wider than eight characters |
| ActivityRecordPage.FormatTime | src/renderer/src/pages/ActivityRecord.js:116-121 | the "HH:MM:SS" display; stated by FormatTimeRoundTrip and FormatTimeLong |
| ActivityRecordPage.Validate | src/renderer/src/pages/ActivityRecord.js:146-160 | the first failing check, in order: blank description, no type, end not after start; none exactly when all pass |
| ActivityRecordPage.BlankDescriptionRejected | src/renderer/src/pages/ActivityRecord.js:147-150 | a white-space description always fails first |
| ActivityRecordPage.FieldInstant | src/renderer/src/pages/ActivityRecord.js:45-46 | a field filled from the UTC clock string reads back the zone offset before now, cut to the minute |
| ActivityRecordPage.FieldSpan | src/renderer/src/pages/ActivityRecord.js:155 | two such fields differ by the elapsed time to within a minute, whatever the offset |
| ActivityRecordPage.FieldPreviousDay | src/renderer/src/pages/ActivityRecord.js:167-168 | under UTC+8 a field filled at 02:00 local time reads back on the previous local day, eight hours early |
| ActivityRecordPage.RecordPage.constructor | src/renderer/src/pages/ActivityRecord.js:44-60 | the empty form with score 3, in manual mode, timer stopped, both times set from the clock through FieldInstant |
| ActivityRecordPage.RecordPage.StartTimer | src/renderer/src/pages/ActivityRecord.js:75-89 | starting while running changes nothing; otherwise the timer runs unpaused with the start set from the clock through FieldInstant |
| ActivityRecordPage.RecordPage.PauseTimer | src/renderer/src/pages/ActivityRecord.js:91-102 | while running, toggles the paused flag; otherwise nothing |
| ActivityRecordPage.RecordPage.StopTimer | src/renderer/src/pages/ActivityRecord.js:104-113 | ends stopped and unpaused, with the end set from the clock through FieldInstant |
| ActivityRecordPage.RecordPage.Tick | src/renderer/src/pages/ActivityRecord.js:79-100 | a second is counted only while running unpaused |
| ActivityRecordPage.RecordPage.ChangeTimeMode | src/renderer/src/pages/ActivityRecord.js:64-72 | a null mode is ignored; switching to manual stops a running timer and sets the end from the clock through FieldInstant, otherwise the end time stays; the start, form fields and messages never change |
| ActivityRecordPage.RecordPage.Submit | src/renderer/src/pages/ActivityRecord.js:162-188 | a failed check shows its message and sends nothing; otherwise the record is sent; on a store rejection the error is shown and start, end and score stay; on success the form and the elapsed time reset, both times set from the clock through FieldInstant |
| ActivityTypesPage.DefaultColorsAccepted | src/renderer/src/contexts/AppContext.js:7-14 | the reset colour and the six default colours pass the pattern |
| ActivityTypesPage.HexColorExamples | src/renderer/src/pages/ActivityTypes.js:29 | either case passes; a seventh digit, a missing '#' or a non-hex digit fails |
| ActivityTypesPage.Validate | src/renderer/src/pages/ActivityTypes.js:24-34 | a blank name fails first, then a bad colour; none exactly when both pass |
| ActivityTypesPage.BlankNameRejected | src/renderer/src/pages/ActivityTypes.js:25-28 | a white-space name fails whatever the colour |
| ActivityTypesPage.TypeEditor.constructor | src/renderer/src/pages/ActivityTypes.js:9-15 | an empty name, colour '#000000', nothing edited, no messages |
| ActivityTypesPage.TypeEditor.Edit | src/renderer/src/pages/ActivityTypes.js:66-72 | the form takes the type's name and colour and edits that type |
| ActivityTypesPage.TypeEditor.Cancel | src/renderer/src/pages/ActivityTypes.js:83-89 | back to the empty form, editing nothing; the messages stay |
| ActivityTypesPage.TypeEditor.Submit | src/renderer/src/pages/ActivityTypes.js:36-64 | a failed check shows its message; otherwise an update keeping the edited id or an add; on success the form resets and the success message is set |
| ActivityTypesPage.TypeEditor.Delete | src/renderer/src/pages/ActivityTypes.js:74-81 | requests the delete and reports success or the store's error |
| ActivityTypesPage.Apply | src/renderer/src/contexts/AppContext.js:156-184 | an add appends the new type with the store's id; activities and settings are untouched |
| ActivityTypesPage.EditSubmitUnchanged | src/renderer/src/pages/ActivityTypes.js:40-45 | editing a type and submitting it unchanged leaves the stored types as they were |

## Left out

- Storage (IndexedDB), `async`/`await` and React rendering are out of scope. A store call becomes a parameter that gives its rejection, if any, or the new id.
- Date formatting, `isToday`, `getHours` and `setHours` are functions of a `Calendar` that callers pass in. In `generateSchedule`, `setHours` also mutates the caller's date; that side effect is not modelled.
- The timer's `setInterval` is modelled as a `Tick` method that the host calls once a second. Timer handles and `clearInterval` are not modelled.
- Form times are integer milliseconds: the instant `new Date(field)` gives. A field the page fills itself is modelled by FieldInstant, with the local zone's offset a fixed constant of the page; a daylight-saving change of offset is not modelled. Parsing a string typed by the user (ISO, minute precision) is not modelled, so neither is an unparsable time.
- The record form's type is the chosen id or none (`''`). Store ids start at 1, so a falsy id 0 cannot occur.
- Message, details and suggestion strings of recommendations, tips and differences are kept as structured fields (kind, names, numbers), not rendered text. The form error messages are kept as strings.
- Numbers are exact `real`s, not IEEE doubles. A NaN mean (0/0) is `None`.
- ScheduleDiff.DifferencesOrdered: `localeCompare` between "00:00" and the third word of a time entry ("调整为") is a boolean parameter. The sort is then a stable partition of the entries.
- Object keys that look like integers are not reordered. JavaScript lists such keys first; the type names here are not numeric.
- Settings values are a flag or a text. The settings page is not part of this model.
- The weekday name of a date is the `Calendar`'s `weekdayName`, left free. The code formats it with zh-CN `'EEEE'`, which gives the wide names '星期日'…'星期六', while it compares against the short labels '周日'…'周六' that `'EEE'` gives. With the wide names every weekday cell and day count is 0, both consistency days are '周日', and `generateSchedule` always falls back to the daily average. This is stated by Habits.WideNamesNeverCounted and Scheduler.WideNamesUseDailyAverage and listed under Findings.
- Records.FindType: its own ensures says that the result is in the list and has the id, not that it is the first such type. Records.FindTypeFirst states that separately, so that the many proofs that only look a type up need not carry it.
- Dashboard.AverageEfficiency: an efficiency score is always an integer here. A missing score (a cleared rating gives `null`, and `parseInt(null)` is NaN) is not modelled, so neither is the `|| 0` guard that only this average has. The analyses in `ai.js` and the statistics trend have no such guard and would carry NaN along.
- `HabitAnalysis.js`, `Settings.js`, `db.js` and the import/export paths are not part of this model.

## Findings

| source | as written | input that shows it | evidently intended | confidence | as-written member | corrected member |
|---|---|---|---|---|---|---|
| src/renderer/src/pages/Dashboard.js:172-175 (same at 265 and 353) | hours shown as `Math.round(total / 60)` beside `total % 60` minutes | a total of 90 minutes is shown as 2 h 30 min | whole hours `Math.floor(total / 60)`, so that hours and minutes add back to the total | high (proved on the model; not executed) | Dashboard.NinetyMinutesShowTwoHours | Dashboard.Shown |
| src/renderer/src/services/ai.js:24-30 (same at 70 and 155-158) | the formatted weekday `format(date, 'EEEE', { locale: zhCN })` is compared with the labels '周日'…'周六' | any record: zh-CN 'EEEE' formats a Sunday as '星期日', which is never '周日' | the short format `'EEE'`, whose names are the labels, so that each record counts on its weekday | medium (follows the date-fns zh-CN day names; not executed) | Habits.WideNamesNeverCounted | Habits.LabelledNamesAllCounted |
