# FitnessChart core, modelled in Dafny

This project models the in-memory core of the OneRepMaxChart iOS app:

- **Record store.** `WorkoutDataManager` keeps an append-only array of logged sets (`records`). It also keeps a secondary index from exercise name to midnight day to positions in that array (`recordsIndex`), and a cursor (`lastRecordIndex`) so only new positions get indexed. Deleting is soft: it sets `isDeleted` and never touches the index.
- **Exercise chart.** `ExerciseDetailViewModel` shows one exercise's best estimated one-rep maximum (1RM) per day, over a window one `TimeFrame` wide (week, month or year). The user moves the window backward and forward. Two flags say whether the window has reached the first or the last day with data.
- **Exercise list.** `ExerciseListViewModel` lists every exercise with the integer part of its best 1RM ever.
- **Helpers.** `Utils` provides the Brzycki 1RM estimate, the label over the chart and the list of days in a window. `TimeFrame` is the window's span. `MockAPIClient.parseWorkoutData` turns "date,exercise,reps,weight" lines into records.

The modules follow the app:

- `Managers` (store.dfy) is a class with an index-validity invariant. `BuildIndex` is the index that filing each record in array order produces. `Positions` and `Matching` are reference definitions by a plain scan.
- `ExerciseDetail` (detail.dfy) is a class whose methods change its fields. `ViewOf` is the view of a window, and `GetDateRange` is the window arithmetic.
- `ExerciseList` (list.dfy) holds the summary loop.
- `Utils`, `TimeFrames` and `Networking` hold the helpers and the line parser.
- `Calendar`, `Text` and `Maxima` stand in for the parts of Foundation and the Swift standard library the app relies on.

Dates are civil dates with a second of the day, in one fixed-offset time zone. Two dates compare by `Seconds`, which `Calendar.DayNumberOrder` shows is the order of (year, month, day, second). Weeks start on Sunday and month names are English. The date formatter (`MMM dd yyyy`) and `Double(_: String)` are function parameters of the parser. `Int(_: String)` is modelled: an optional sign, decimal digits, 64-bit range.

`dateRangeString` follows the code, not its doc comment. When the two years differ, the code puts the upper year directly in front of the month name, with no space, so the label reads "2023 Dec 31 - 2024Jan 30". The doc comment promises "YYYY MMM DD - YYYY MMM DD". `Utils.LabelNewYearExample` shows the label as written.

## Model

| member | source | states |
|---|---|---|
| Calendar.DayNumberOrder | OneRepMaxChart/Utils/Utils.swift:60 | comparing two dates as instants is the lexicographic order of year, month, day and second, and equal instants are equal dates |
| Calendar.AddDays | OneRepMaxChart/Utils/Utils.swift:73 | adding n days moves the day number by n, keeps the time of day, and moves the instant by n days |
| Calendar.AddMonths | OneRepMaxChart/Views/ExerciseDetail/ExerciseDetailViewModel.swift:107 | adding n months moves the month index by n, clamps the day to the target month's length, keeps the time of day, and moves the instant in the sign's direction |
| Calendar.AddYears | OneRepMaxChart/Views/ExerciseDetail/ExerciseDetailViewModel.swift:107 | adding n years keeps month and time of day, clamps the day (29 February), and moves the instant in the sign's direction |
| Calendar.DateByAdding | OneRepMaxChart/Views/ExerciseDetail/ExerciseDetailViewModel.swift:112-131 | adding a negative amount of any unit gives an earlier date, a positive one a later date, zero the same date |
| Calendar.MidnightFacts | OneRepMaxChart/Extensions/Date+.swift:12-16 | `toMidnight` keeps the day, has second 0, and is at or before the date and less than a day before it |
| Calendar.NextDay | OneRepMaxChart/Utils/Utils.swift:73 | one day on is the next day number at the same time of day |
| Calendar.PrevDay | OneRepMaxChart/Views/ExerciseDetail/ExerciseDetailViewModel.swift:112-115 | one day back is the previous day number at the same time of day |
| Calendar.Midnight | OneRepMaxChart/Extensions/Date+.swift:12-16 | `toMidnight`; its contract is `Calendar.MidnightFacts`: the same day at second 0, at or before the date and less than a day before it |
| Calendar.StartOfWeek | OneRepMaxChart/Extensions/Date+.swift:18-21 | `startOfWeek` is a Sunday midnight whose week (7 days) contains the date |
| Calendar.StartOfWeekBounds | OneRepMaxChart/Extensions/Date+.swift:18-21 | the start of the week is at or before the date and less than a week before it |
| Calendar.StartOfWeekFixedPoint | OneRepMaxChart/Extensions/Date+.swift:18-21 | a date is its own start of week exactly when it is a Sunday midnight |
| Text.Split | OneRepMaxChart/Infrastructure/Networking/APIClient.swift:39-42 | `components(separatedBy:)` gives at least one piece and no piece holds a separator |
| Text.SplitCount | OneRepMaxChart/Infrastructure/Networking/APIClient.swift:39-42 | splitting gives one piece more than there are separators |
| Text.JoinSplit | OneRepMaxChart/Infrastructure/Networking/APIClient.swift:42 | joining the pieces of a one-separator split with that separator gives back the text |
| Text.SplitJoin | OneRepMaxChart/Infrastructure/Networking/APIClient.swift:39-42 | splitting text joined from separator-free pieces gives back the pieces |
| Text.SplitAppend | OneRepMaxChart/Infrastructure/Networking/APIClient.swift:39 | text joined at a separator splits into the pieces of its two sides, so lines are independent |
| Text.ParseInt | OneRepMaxChart/Infrastructure/Networking/APIClient.swift:51 | `Int(_: String)` yields only values in the 64-bit range |
| Text.IntToStringFree | OneRepMaxChart/Utils/Utils.swift:43 | a printed `Int` holds only digits and possibly a minus sign |
| Text.IntToString | OneRepMaxChart/Utils/Utils.swift:43 | printing an `Int`; its contract is `Text.IntToStringFree` (digits and possibly a minus sign) and `Text.IntRoundTrip` (parsing the printed form gives the number back) |
| Text.IntRoundTrip | OneRepMaxChart/Infrastructure/Networking/APIClient.swift:51 | printing a 64-bit `Int` and parsing it back gives the same `Int` |
| TimeFrames.FromRawValue | OneRepMaxChart/Models/TimeFrame.swift:10-11 | `TimeFrame(rawValue:)` returns only a case whose raw value is the given string |
| TimeFrames.Capitalized | OneRepMaxChart/Models/TimeFrame.swift:13 | capitalizing keeps the length |
| TimeFrames.AllCasesOnce | OneRepMaxChart/Models/TimeFrame.swift:10-11 | `allCases` lists each of the three cases exactly once |
| TimeFrames.RawValueRoundTrip | OneRepMaxChart/Models/TimeFrame.swift:10-11 | the raw value identifies its case |
| TimeFrames.DescriptionValues | OneRepMaxChart/Models/TimeFrame.swift:13 | the descriptions are "Week", "Month" and "Year" |
| TimeFrames.CasesDistinct | OneRepMaxChart/Models/TimeFrame.swift:12-21 | distinct cases have distinct ids, units and descriptions |
| Models.ViewState.Error | OneRepMaxChart/Views/Common/ViewState.swift:16-21 | `error` is present exactly in the failed state |
| Utils.CalculateOneRepMax | OneRepMaxChart/Utils/Utils.swift:13-18 | the estimate is 0 for any repetition count outside 1 to 36 |
| Utils.OneRepMaxScaled | OneRepMaxChart/Utils/Utils.swift:17 | for 1 to 36 repetitions, the estimate times (37 - reps) is 36 times the weight; one repetition gives the weight itself |
| Utils.OneRepMaxAtLeastWeight | OneRepMaxChart/Utils/Utils.swift:17 | for 1 to 36 repetitions and a non-negative weight, the estimate is at least the weight |
| Utils.OneRepMaxIncreasing | OneRepMaxChart/Utils/Utils.swift:17 | for a positive weight, more repetitions (within 1 to 36) give a strictly larger estimate |
| Utils.OneRepMaxExamples | OneRepMaxChart/Utils/Utils.swift:13-18 | 10 x 200 lb gives 800/3 lb; 0 or 37 repetitions give 0 |
| Utils.Trunc | OneRepMaxChart/Views/ExerciseDetail/ExerciseDetailViewModel.swift:74 | `Int(x)` is the integer part of x, rounding toward zero for either sign (the 64-bit trap is listed under Left out) |
| Utils.TruncMonotone | OneRepMaxChart/Views/ExerciseDetail/ExerciseDetailViewModel.swift:93 | truncation never decreases as its argument grows |
| Utils.MonthSymbol | OneRepMaxChart/Utils/Utils.swift:46-47 | the short month symbol has three letters |
| Utils.YearOnlyLabelRoundTrip | OneRepMaxChart/Utils/Utils.swift:42-44 | a year-only label reads back as the upper date's year |
| Utils.DateRangeString | OneRepMaxChart/Utils/Utils.swift:25-56 | `dateRangeString`; its contract is `Utils.LabelYearOnlyIff`, `Utils.YearOnlyLabelRoundTrip`, `Utils.LabelIsJoin` and `Utils.LabelWords`: the year-only label is the upper year, the full label holds the dates' year, month symbol and day in order |
| Utils.LabelYearOnlyIff | OneRepMaxChart/Utils/Utils.swift:42-53 | a label contains no space exactly when it was asked to be year-only |
| Utils.LabelIsJoin | OneRepMaxChart/Utils/Utils.swift:49-53 | the full label is its six words joined by single spaces |
| Utils.LabelWords | OneRepMaxChart/Utils/Utils.swift:49-53 | the full label splits into lower year, lower month, lower day, "-", the upper month (after the upper year when the years differ), and the upper day; the numbers read back as the dates' own |
| Utils.LabelSameYearExample | OneRepMaxChart/Utils/Utils.swift:49-55 | a window inside 2024 is labelled "2024 Feb 15 - Mar 15" |
| Utils.LabelNewYearExample | OneRepMaxChart/Utils/Utils.swift:49-53 | a window across a new year is labelled "2023 Dec 31 - 2024Jan 30", with no space after the upper year |
| Utils.DaysFrom | OneRepMaxChart/Utils/Utils.swift:59-82 | the reference list of days for `datesBetween`; its contract is `Utils.DaysFromAt`, `Utils.DaysFromLength` and `Utils.DaysFromShape` |
| Utils.DaysFromAt | OneRepMaxChart/Utils/Utils.swift:64-79 | the i-th listed day is the midnight of the start plus i days |
| Utils.DaysFromLength | OneRepMaxChart/Utils/Utils.swift:64-79 | one day per calendar day from the start's day to the end's day; the last is left out when the start's time of day would pass the end |
| Utils.DaysFromShape | OneRepMaxChart/Utils/Utils.swift:64-79 | a non-empty range lists at least one day; the days are midnights, one day apart, strictly increasing |
| Utils.DatesBetween | OneRepMaxChart/Utils/Utils.swift:59-82 | nil exactly when the start is after the end; otherwise a non-empty list whose i-th day is the midnight of the start plus i days |
| Networking.ParseLine | OneRepMaxChart/Infrastructure/Networking/APIClient.swift:41-62 | a parsed record has a non-empty exercise, is not deleted, has a 64-bit repetition count and carries `calculateOneRepMax` of its numbers |
| Networking.ParseWorkoutData | OneRepMaxChart/Infrastructure/Networking/APIClient.swift:36-68 | the loop returns the records of the newline-separated lines, in line order |
| Networking.LineRecords | OneRepMaxChart/Infrastructure/Networking/APIClient.swift:42-65 | the records one line contributes: none when the guard skips it, else its one parsed record; its contract is `Networking.ParseLineSkips` and `Networking.ParseLineFields` |
| Networking.ParsedRecords | OneRepMaxChart/Infrastructure/Networking/APIClient.swift:39-68 | the records of the lines in line order; its contract is `Networking.ParsedRecordsAppend`, `Networking.ParsedRecordsLength` and `Networking.ParsedRecordsOrigin` |
| Networking.ParseLineSkips | OneRepMaxChart/Infrastructure/Networking/APIClient.swift:47-54 | a line is skipped exactly when it has at most three fields, an empty exercise, or a date, count or weight that does not parse |
| Networking.ParseLineFields | OneRepMaxChart/Infrastructure/Networking/APIClient.swift:56-62 | a record's date, exercise, count and weight are the parsed first four fields, the exercise verbatim |
| Networking.ExtraFieldsIgnored | OneRepMaxChart/Infrastructure/Networking/APIClient.swift:49 | fields after the fourth change nothing |
| Networking.ParsedRecordsAppend | OneRepMaxChart/Infrastructure/Networking/APIClient.swift:40-65 | the records of two runs of lines are the records of each, concatenated |
| Networking.ParsedRecordsLength | OneRepMaxChart/Infrastructure/Networking/APIClient.swift:40-65 | there are never more records than lines |
| Networking.ParsedRecordsOrigin | OneRepMaxChart/Infrastructure/Networking/APIClient.swift:40-65 | every record is the record of some line |
| Networking.RowRoundTrip | OneRepMaxChart/Infrastructure/Networking/APIClient.swift:41-62 | a formatted well-formed row parses back to the record it stands for |
| Networking.RowIsOneLine | OneRepMaxChart/Infrastructure/Networking/APIClient.swift:39 | a formatted row holds no newline |
| Networking.ContentRoundTrip | OneRepMaxChart/Infrastructure/Networking/APIClient.swift:36-68 | a file of well-formed rows, one per line, parses back to their records in order |
| Networking.ParsedRows | OneRepMaxChart/Infrastructure/Networking/APIClient.swift:40-65 | formatted well-formed rows parse to their records in order |
| Managers.Insert | OneRepMaxChart/Managers/WorkoutDataManager.swift:89 | filing one position under its exercise and day; its contract is `Managers.InsertFacts` |
| Managers.BuildIndex | OneRepMaxChart/Managers/WorkoutDataManager.swift:84-93 | the index that filing every position in array order builds; its contract is `Managers.BuildIndexLookup`, `Managers.BuildIndexEntries` and `Managers.BuildIndexKeys` |
| Managers.InsertFacts | OneRepMaxChart/Managers/WorkoutDataManager.swift:89 | filing a position appends it to its own (exercise, day) entry, creating the entry if needed, and leaves every other entry alone |
| Managers.Gather | OneRepMaxChart/Managers/WorkoutDataManager.swift:50 | reading records at positions gives one record per position, in order |
| Managers.PositionsSpec | OneRepMaxChart/Managers/WorkoutDataManager.swift:85-89 | the reference positions are in range, file records of that exercise and day, strictly increase, and miss no such record |
| Managers.PositionsNonEmpty | OneRepMaxChart/Managers/WorkoutDataManager.swift:85-89 | an (exercise, day) has positions exactly when some record is filed under it |
| Managers.GatherPositions | OneRepMaxChart/Managers/WorkoutDataManager.swift:49-50 | reading the records at the reference positions gives the matching records in array order |
| Managers.IndexOneMore | OneRepMaxChart/Managers/WorkoutDataManager.swift:86-89 | indexing one more record files exactly that record's position |
| Managers.BuildIndexLookup | OneRepMaxChart/Managers/WorkoutDataManager.swift:13-18 | every lookup in the built index gives the reference positions: in range, of records with that exercise and midnight, strictly increasing |
| Managers.BuildIndexEntries | OneRepMaxChart/Managers/WorkoutDataManager.swift:89 | an index entry exists exactly when it lists something, so no entry is empty |
| Managers.BuildIndexKeys | OneRepMaxChart/Managers/WorkoutDataManager.swift:23-25 | the exercises of the index are exactly the exercises of the records |
| Managers.EntryFacts | OneRepMaxChart/Managers/WorkoutDataManager.swift:59-60 | an existing entry holds in-range positions whose records are the matching records |
| Managers.IndexSound | OneRepMaxChart/Managers/WorkoutDataManager.swift:13-18 | every listed position is in range and its record has that exercise and midnight |
| Managers.BuildIndexIgnoresFlags | OneRepMaxChart/Managers/WorkoutDataManager.swift:67-70 | records that differ only in `isDeleted` build the same index, so soft deletion keeps the index valid |
| Managers.FirstMatch | OneRepMaxChart/Managers/WorkoutDataManager.swift:74-76 | `firstIndex(where:)` gives the first position with that date and exercise, or nil when none has them |
| Managers.FirstMatchSameKeys | OneRepMaxChart/Managers/WorkoutDataManager.swift:74-76 | the first match does not depend on the deletion flags |
| Managers.Flag | OneRepMaxChart/Managers/WorkoutDataManager.swift:74-77 | soft deleting one input: flags its first match if there is one; its contract is `Managers.DeleteAllSpec` |
| Managers.DeleteAll | OneRepMaxChart/Managers/WorkoutDataManager.swift:72-81 | soft deleting the inputs in turn; its contract is `Managers.DeleteAllSpec` and `Managers.DeleteNothing` |
| Managers.DeleteAllSpec | OneRepMaxChart/Managers/WorkoutDataManager.swift:72-81 | deleting flags a record exactly when it was flagged or is some input's first match; no other field and not the count changes |
| Managers.DeleteNothing | OneRepMaxChart/Managers/WorkoutDataManager.swift:72-81 | inputs that match no stored record change nothing |
| Managers.RecordsByDay | OneRepMaxChart/Managers/WorkoutDataManager.swift:49-51 | `mapValues` keeps the day keys |
| Managers.RecordsByDaySpec | OneRepMaxChart/Managers/WorkoutDataManager.swift:49-51 | an exercise's days are exactly the midnights of its records, and each maps to that day's records in array order |
| Managers.MatchingMembers | OneRepMaxChart/Managers/WorkoutDataManager.swift:49-51 | a record is among an exercise's records of a day exactly when it is stored and filed under them |
| Managers.WorkoutDataManager.constructor | OneRepMaxChart/Managers/WorkoutDataManager.swift:11-29 | a new store is empty and valid |
| Managers.WorkoutDataManager.ExerciseList | OneRepMaxChart/Managers/WorkoutDataManager.swift:23-25 | `exerciseList` holds exactly the index's exercises, each once |
| Managers.WorkoutDataManager.LoadWorkoutData | OneRepMaxChart/Managers/WorkoutDataManager.swift:34-41 | a failed fetch rethrows and changes nothing; an empty batch changes nothing; otherwise the records become the old ones followed by the batch, and the store stays valid |
| Managers.WorkoutDataManager.UpdateIndex | OneRepMaxChart/Managers/WorkoutDataManager.swift:84-93 | from an index of the records up to the cursor, filing the positions after it gives the index of all records and moves the cursor to the last one |
| Managers.WorkoutDataManager.GetExerciseRecords | OneRepMaxChart/Managers/WorkoutDataManager.swift:44-52 | nil exactly when no record has the exercise; otherwise one key per day with a record, mapping to that day's records in array order, deleted ones included |
| Managers.WorkoutDataManager.GetExerciseRecordsByDate | OneRepMaxChart/Managers/WorkoutDataManager.swift:55-65 | the result is the records of that day of each indexed exercise in turn, one contiguous block per exercise in array order, each exercise once (`Blocks` over the exercise order); so each exercise's share is exactly its records of that day and every returned record is on that day |
| Managers.Blocks | OneRepMaxChart/Managers/WorkoutDataManager.swift:55-65 | the records of a day of each exercise of a list in turn; its contract is `Managers.BlocksProjection` and `Managers.BlocksOnDay` |
| Managers.BlocksProjection | OneRepMaxChart/Managers/WorkoutDataManager.swift:58-61 | with distinct exercises, each exercise's share of the blocks is exactly its records of the day in array order, and nothing for an exercise not listed |
| Managers.BlocksOnDay | OneRepMaxChart/Managers/WorkoutDataManager.swift:59-60 | every record of the blocks is on that day |
| Managers.WorkoutDataManager.DeleteRecords | OneRepMaxChart/Managers/WorkoutDataManager.swift:72-81 | the records become the soft deletes of the inputs applied in turn; the index and the cursor are unchanged and stay valid |
| Maxima.Larger | OneRepMaxChart/Views/ExerciseDetail/ExerciseDetailViewModel.swift:75 | `max(x, y)` is one of its arguments and at least both |
| Maxima.Max | OneRepMaxChart/Views/ExerciseList/ExerciseListViewModel.swift:33 | `max()` of a non-empty array is an element that no element exceeds |
| Maxima.MaxOfSameValues | OneRepMaxChart/Views/ExerciseList/ExerciseListViewModel.swift:32-33 | the maximum depends only on which values occur, not on their order or repetition |
| ExerciseDetail.OneRMs | OneRepMaxChart/Views/ExerciseDetail/ExerciseDetailViewModel.swift:51 | one 1RM per record, in order |
| ExerciseDetail.OneRMData | OneRepMaxChart/Views/ExerciseDetail/ExerciseDetailViewModel.swift:51 | the days are kept and each maps to its records' 1RMs |
| ExerciseDetail.DayBestSpec | OneRepMaxChart/Views/ExerciseDetail/ExerciseDetailViewModel.swift:73 | a day without values has best 0; otherwise its best is one of its values and no value exceeds it |
| ExerciseDetail.DailyPoints | OneRepMaxChart/Views/ExerciseDetail/ExerciseDetailViewModel.swift:72-74 | one chart point per day |
| ExerciseDetail.DailyPointsAt | OneRepMaxChart/Views/ExerciseDetail/ExerciseDetailViewModel.swift:72-74 | the i-th point is the i-th day with the integer part of its best 1RM |
| ExerciseDetail.WindowMaxSpec | OneRepMaxChart/Views/ExerciseDetail/ExerciseDetailViewModel.swift:69-75 | the running maximum is at least 0 and at least every day's best, and is 0 or some day's best |
| ExerciseDetail.PointsWithinMax | OneRepMaxChart/Views/ExerciseDetail/ExerciseDetailViewModel.swift:69-93 | the integer maximum is at least 0 and at least every point's value |
| ExerciseDetail.WeekStartsMembers | OneRepMaxChart/Views/ExerciseDetail/ExerciseDetailViewModel.swift:77-79 | the week starts are exactly the listed days that are their own start of week |
| ExerciseDetail.WeekStartsIncreasing | OneRepMaxChart/Views/ExerciseDetail/ExerciseDetailViewModel.swift:77-79 | increasing days give increasing week starts |
| ExerciseDetail.Spans | OneRepMaxChart/Views/ExerciseDetail/ExerciseDetailViewModel.swift:104-132 | one week, month or year separates two dates at the same time of day, with the day of the month kept unless moved back to the end of a shorter month; its contract is `ExerciseDetail.ShiftSpans` |
| ExerciseDetail.MonthBackExample | OneRepMaxChart/Views/ExerciseDetail/ExerciseDetailViewModel.swift:104-107 | the first month window ending on 15 March 2024 starts on 15 February 2024; 31 March goes back to 29 February; 29 February 2024 plus a year is 28 February 2025; 1 February is not one month before 15 March |
| ExerciseDetail.ShiftSpans | OneRepMaxChart/Views/ExerciseDetail/ExerciseDetailViewModel.swift:104-132 | one unit back from a date, or forward, is one week, month or year away at the same time of day, and for months and years on the same day of the month unless that day was moved back to the end of a shorter month |
| ExerciseDetail.ViewOf | OneRepMaxChart/Views/ExerciseDetail/ExerciseDetailViewModel.swift:68-95 | the view of a window: chart points, maximum, week starts, label, bounds and the two flags; its contract is `ExerciseDetail.ViewOfFacts` |
| ExerciseDetail.ViewOfFacts | OneRepMaxChart/Views/ExerciseDetail/ExerciseDetailViewModel.swift:68-95 | a window's view has one point per day from the lower day on, each the integer part of that day's best 1RM; its maximum bounds them and is at least 0; its week starts are exactly the window's week-starting days, increasing |
| ExerciseDetail.ChartDays | OneRepMaxChart/Views/ExerciseDetail/ExerciseDetailViewModel.swift:68-80 | the loop computes the chart points, the running maximum from 0 and the week starts of the days |
| ExerciseDetail.KeyBounds | OneRepMaxChart/Views/ExerciseDetail/ExerciseDetailViewModel.swift:49-50 | `keys.min()!` and `keys.max()!` are keys and bound every key |
| ExerciseDetail.ExerciseDetailViewModel.constructor | OneRepMaxChart/Views/ExerciseDetail/ExerciseDetailViewModel.swift:11-34 | the initial state: idle, both flags set, empty chart, month frame, both data bounds at now, no current bounds, empty label |
| ExerciseDetail.ExerciseDetailViewModel.GetDateRange | OneRepMaxChart/Views/ExerciseDetail/ExerciseDetailViewModel.swift:100-138 | the first window ends at the latest day with data; back ends the day before the current window starts and forward starts the day after it ends; the lower bound of the first and of a backward window is exactly one unit before its upper bound, and the upper bound of a forward window exactly one unit after its lower bound (same day of the month, clamped to a shorter month); moving before any window exists gives no range |
| ExerciseDetail.ExerciseDetailViewModel.LoadOneRMDataForTimeFrame | OneRepMaxChart/Views/ExerciseDetail/ExerciseDetailViewModel.swift:57-96 | without a range the view fails and every shown property stays; otherwise the view shows the new window; the data and the frame never change |
| ExerciseDetail.ExerciseDetailViewModel.ShowWindow | OneRepMaxChart/Views/ExerciseDetail/ExerciseDetailViewModel.swift:68-95 | after the guard, the chart, label, bounds and flags become the view of the window |
| ExerciseDetail.ExerciseDetailViewModel.Show | OneRepMaxChart/Views/ExerciseDetail/ExerciseDetailViewModel.swift:84-95 | the shown properties take the computed values |
| ExerciseDetail.ExerciseDetailViewModel.LoadData | OneRepMaxChart/Views/ExerciseDetail/ExerciseDetailViewModel.swift:37-55 | no records fail the view with "There is no exercise data!"; otherwise the data bounds are the earliest and latest days, each day keeps its 1RMs, the first window is shown and the view is finished |
| ExerciseDetail.ExerciseDetailViewModel.SetUp | OneRepMaxChart/Views/ExerciseDetail/ExerciseDetailViewModel.swift:41-53 | the same setup, from the records the store returned |
| ExerciseList.OneRMsOfMembers | OneRepMaxChart/Views/ExerciseList/ExerciseListViewModel.swift:32 | a value is listed exactly when some record of the exercise, deleted or not, carries it |
| ExerciseList.AllOneRMs | OneRepMaxChart/Views/ExerciseList/ExerciseListViewModel.swift:32 | the flattened values are exactly the 1RMs of the days' records, and empty exactly when every day is empty |
| ExerciseList.DayRecordsOneRMs | OneRepMaxChart/Views/ExerciseList/ExerciseListViewModel.swift:31-32 | the 1RMs of an exercise's records by day are those of its records |
| ExerciseList.SummaryIsBest | OneRepMaxChart/Views/ExerciseList/ExerciseListViewModel.swift:32-36 | a summary's value is the integer part of one of the exercise's 1RMs, and no record of it truncates higher |
| ExerciseList.SummariesSpec | OneRepMaxChart/Views/ExerciseList/ExerciseListViewModel.swift:30-41 | each summary is that of a listed exercise with records; every listed exercise with records has one; distinct names give distinct summaries |
| ExerciseList.IndexedHaveRecords | OneRepMaxChart/Views/ExerciseList/ExerciseListViewModel.swift:28-33 | an exercise is indexed exactly when it has at least one 1RM, so every listed exercise gets a summary |
| ExerciseList.ExerciseListViewModel.constructor | OneRepMaxChart/Views/ExerciseList/ExerciseListViewModel.swift:11-18 | a new list is idle and empty |
| ExerciseList.ExerciseListViewModel.LoadData | OneRepMaxChart/Views/ExerciseList/ExerciseListViewModel.swift:21-48 | a failed load fails the view with no summaries; otherwise the batch is stored, the view is finished, and it lists every stored exercise once with the integer part of its best 1RM |
| ExerciseList.ExerciseListViewModel.Summarize | OneRepMaxChart/Views/ExerciseList/ExerciseListViewModel.swift:28-41 | the loop leaves one summary per indexed exercise, each the integer part of that exercise's best 1RM over all its records |

## Left out

- Calendar: one fixed-offset time zone without daylight saving; the proleptic Gregorian calendar with English month names and Sunday as first weekday stands for `Calendar.current` and its locale.
- Calendar: the nil branches of `toMidnight`, `startOfWeek`, `date(byAdding:)` and `dateComponents` are never taken; these calls are total functions here.
- Text: text is a sequence of characters and splitting looks at one character at a time; UTF-16 code units, grapheme clusters and text encodings are not modelled.
- Networking: the date formatter and `Double(_: String)` are parameters, so no claim is made about which texts they accept; `fetchWorkoutData` and `loadDataFile` (sleep, bundle file read) are I/O and not modelled.
- Utils.CalculateOneRepMax and Utils.Trunc: `Double` is modelled by exact reals, so rounding, infinities and NaN are not modelled.
- Utils.Trunc: `Int(_: Double)` traps on a value outside -2^63 to 2^63-1 (at ExerciseDetailViewModel.swift:74 and :93 and ExerciseListViewModel.swift:36, e.g. after a line with weight 1e19); `Trunc` returns the unbounded integer part instead, so the model finishes the chart and the list where the app would stop.
- Managers.WorkoutDataManager.LoadWorkoutData: the fetch is a parameter holding its outcome; the repository, the dependency container and the unused `range` argument are not modelled.
- Managers.WorkoutDataManager.ExerciseList: dictionary key order is unspecified in Swift, and the model picks the keys in an unspecified order too.
- ExerciseList.ExerciseListViewModel.Summarize: the order of the summaries is not stated, since it follows `exerciseList`'s unspecified order.
- Concurrency: actor isolation, `async`/`await` and `Task` blocks are left out; every operation runs to completion in sequence.
- ExerciseDetail.ExerciseDetailViewModel.constructor: `Date.now` is a parameter.
- ExerciseDetail.ExerciseDetailViewModel.LoadData: the model runs the body of the `Task` at once, so the transient `loading` state is overwritten before the method returns.
- ExerciseDetail.ExerciseDetailViewModel.LoadOneRMDataForTimeFrame: nothing consults `backwardButtonDisabled` or `forwardButtonDisabled` before moving, as in the code; only the views disable the buttons.
- Views: the SwiftUI views and their display rules (axis labels, the fallback chart range) are presentation only.
- `ViewState.error` wraps the foreign `localizedDescription`; a failure carries its message as a string.
