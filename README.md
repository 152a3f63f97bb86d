# Active week visualizer: a Dafny model of its workout computations

The application is a React workout tracker. A page component keeps one
in-memory list of workout records. Every other component computes from that
list:

- The **store** (`src/pages/Index.tsx`) adds, updates and deletes records.
  Each operation replaces the list with a new list built from the old one by
  spread, `map` or `filter`.
- **Analytics** (`src/components/Analytics.tsx`) totals the minutes per
  activity name. A secondary activity earns 30% of the record's *primary*
  duration. Analytics also rounds the totals for the bar and pie charts,
  formats them as "Xh Ym", and computes count, total, rounded average and the
  most active activity.
- **Reports** (`src/components/Reports.tsx`) keeps the records of the current
  week, month and year. For each window it computes a per-activity count and
  duration table, the totals and the rounded average.
- **Import** (`src/components/DataManager.tsx`) takes the parsed file and
  checks that it is an array. It keeps the records whose `id`, `date`,
  `activity` and `duration` are all truthy, and fails when none is kept.
- The **add-workout form** (`src/components/WorkoutForm.tsx`) holds four text
  and selection fields. Choosing an activity other than Resistance clears
  the exercise type. The form has a submit-enabled rule and a payload built
  with `parseInt`.
- The **calendar views**:
  - `WorkoutCalendar.tsx` and `calendar/MonthlyCalendar.tsx` show a
    Monday-first month grid;
  - `calendar/ListView.tsx` shows a day list;
  - `calendar/WorkoutItem.tsx` builds the labels of one workout card.

  They filter workouts per day, build count, name and duration texts, and
  offer an add button on current-month days. Only the month grid of
  `calendar/MonthlyCalendar.tsx` caps a day's indicators at three, adding a
  "+N more" line (`MonthlyCalendar.Indicators`, `MonthlyCalendar.MoreText`);
  `WorkoutCalendar.tsx` and `calendar/ListView.tsx` show every workout of
  the day.

Modelling choices:

- **Days.** A day is an integer and day 0 is a Monday, so the weekday is
  `d % 7`. `startOfWeek` and `endOfWeek` with `weekStartsOn: 1` become
  `d - d % 7` and that day plus 6. A month is the interval from its first
  day to its last, 28 to 31 days long. The week window is computed from a
  `now` parameter; the month and year windows are parameters.
- **Tenths.** Totals are held exactly in tenths of a minute: a primary
  duration `d` adds `10 * d` and the 30% share adds `3 * d`.
- **Rounding.** `Math.round(a / b)` for `b > 0` is `(2a + b) div (2b)`.
- **JavaScript behaviour that is written out:**
  - `%` is truncating (`JsText.JsRem`);
  - `parseInt` skips leading white space, takes an optional sign and a digit run,
    and otherwise gives `NaN` (`JsText.ParseInt`);
  - a template literal writes integers in decimal (`JsText.IntToString`);
  - `${undefined}` prints as "undefined";
  - a string is truthy when it is non-empty;
  - `JSON.parse` keeps the last of repeated keys.
- **State.**
  - The store is the class `Workouts.WorkoutStore`.
  - The form state is `WorkoutForm.FormState`.
  - The calendar's `selectedDate` and `showForm` are
    `WorkoutCalendar.CalendarState`.
  - The click selection of the grid and the list is `Calendar.DaySelection`.
- **Loops.** The in-place accumulations are methods with loops, each proved
  equal to a specification function:
  - Analytics' per-name reduce (`Analytics.WeeklyData`), whose single update
    step is `Analytics.AddTo`;
  - the most-active scan (`Analytics.MostActiveActivity`);
  - Reports' `calculateStats` (`Reports.CalculateStats`);
  - WorkoutCalendar's `while` grid loop (`WorkoutCalendar.CalendarDays`).

  Lemmas about the specification functions then prove what the components
  promise.

Behaviour of the code that is easy to misread:

- **Which duration the 30% uses.** The share is 30% of the primary
  duration, not of the secondary one. The proved grand total is therefore
  `10·Σduration + 3·Σ(duration of records with a secondary activity)`
  tenths.
- **How the most active activity is chosen.** The scan compares each raw
  total with the *rounded* total it stored for the current leader. When every
  total is whole, ties keep the first name (`Analytics.ScanWholeMinutes`).
  A later name tying with the leader's total wins exactly when that total's
  fraction lies strictly between 0 and one half (`Analytics.ScanLaterTieWins`,
  `Analytics.ScanHalfTieKeepsFirst`), and a later, smaller total can win
  (`Analytics.ScanCanPreferSmallerTotal`).
- **Which revision each file is.** `WorkoutForm.tsx` and `WorkoutCalendar.tsx`
  still use the older record: a five-way activity list with "BJJ", no
  secondary fields, and a `notes` field. They are modelled on their own types
  (`WorkoutForm.FormActivity`, `WorkoutForm.FormPayload`), not on the
  eight-way record of `Index.tsx`.
- **Whether durations are positive.** `handleSubmit` itself checks only
  that the duration text is non-empty, and then passes `parseInt` of it on.
  The number input (`type="number"`, `min="1"`) that feeds it is not
  modelled, so the model's form accepts any text.

## Model

| member | source | states |
|---|---|---|
| Workouts.ActivityLabel | src/pages/Index.tsx:12 | each of the eight activities has its stored string, at least five characters long |
| Workouts.ActivityLabelInjective | src/pages/Index.tsx:12 | two activities have the same stored string exactly when they are the same activity |
| Workouts.WithIdRoundTrip | src/pages/Index.tsx:26-29 | the added record carries the given id and, without it, is exactly the supplied fields |
| Workouts.Merge | src/pages/Index.tsx:35-37 | `{...workout, ...data}` keeps id and date, takes activity and duration from the data, and for optional fields takes a present key (even `undefined`) and keeps the old value for an absent one |
| Workouts.MergeIdempotent | src/pages/Index.tsx:36 | merging the same data twice equals merging it once |
| Workouts.MergeOmittedKeeps | src/pages/Index.tsx:36 | data with every optional key absent changes only activity and duration |
| Workouts.Appended | src/pages/Index.tsx:25-31 | `[...prev, newWorkout]`; Workouts.AppendedSpec states the old records kept in order and the one new record at the end |
| Workouts.AppendedSpec | src/pages/Index.tsx:25-31 | adding grows the list by one at the end, leaves every earlier record unchanged, and the new record is the supplied fields with the id |
| Workouts.Updated | src/pages/Index.tsx:33-39 | the `map` of updateWorkout; Workouts.UpdatedSpec states length, order and ids kept, matching records merged and the others unchanged |
| Workouts.UpdatedSpec | src/pages/Index.tsx:33-39 | updating keeps length, order and every id; records with another id are unchanged and matching ones are merged |
| Workouts.UpdatedAbsent | src/pages/Index.tsx:34-38 | updating an id no record has leaves the list unchanged |
| Workouts.UpdatedIdempotent | src/pages/Index.tsx:33-39 | applying the same update twice equals applying it once |
| Workouts.Deleted | src/pages/Index.tsx:41-43 | the `filter` of deleteWorkout; Workouts.DeletedSpec states that exactly the records with another id are kept |
| Workouts.DeletedSpec | src/pages/Index.tsx:41-43 | after deleting, no record has the id, every record with another id survives, and nothing new appears |
| Workouts.DeletedConcat | src/pages/Index.tsx:42 | deletion distributes over concatenation, so survivors keep their relative order |
| Workouts.DeletedAbsent | src/pages/Index.tsx:41-43 | deleting an id no record has leaves the list unchanged |
| Workouts.DeleteUndoesAdd | src/pages/Index.tsx:25-43 | adding a record with a fresh id and then deleting that id gives back the old list |
| Workouts.TotalDuration | src/components/Analytics.tsx:76 | the reduce summing primary durations; Workouts.TotalDurationConcat states its additivity, and Reports.StatsOfTotals that it is the sum of the per-activity durations |
| Workouts.TotalDurationConcat | src/components/Analytics.tsx:76 | the sum of primary durations of two lists joined is the sum of their sums |
| Workouts.AverageDuration | src/components/Analytics.tsx:77 | the average is 0 for no records, else the whole number nearest to total / count (halves up) |
| Workouts.WorkoutStore.constructor | src/pages/Index.tsx:23 | the store starts empty |
| Workouts.WorkoutStore.AddWorkout | src/pages/Index.tsx:25-31 | the new list is the old list plus one record at the end; the old records are kept as a prefix |
| Workouts.WorkoutStore.UpdateWorkout | src/pages/Index.tsx:33-39 | the new list is the mapped update of the old one, of the same length, and unchanged when no record has the id |
| Workouts.WorkoutStore.DeleteWorkout | src/pages/Index.tsx:41-43 | the new list is the old one filtered by id, holds no record with the id, and is unchanged when none had it |
| Seqs.Filter | src/pages/Index.tsx:42 | `filter` keeps exactly the elements satisfying the predicate and adds nothing |
| JsText.NatToString | src/components/Analytics.tsx:29 | the decimal text of a number is a non-empty digit run with no leading zero |
| JsText.IntToString | src/components/calendar/WorkoutItem.tsx:38 | an integer in a template literal: non-empty, and JsText.ParseIntToString proves that `parseInt` reads it back; JsText.NoPlusInIntToString that it holds no "+" |
| JsText.ReadNatToString | src/components/DataManager.tsx:70 | reading a digit run back from a number's decimal text followed by a non-digit gives the number and the rest |
| JsText.ParseInt | src/components/WorkoutForm.tsx:29 | `parseInt` without a radix; JsText.ParseIntToString and JsText.ParseIntNat state that it reads back every integer's decimal text, and WorkoutForm.ParsePadded and WorkoutForm.NonNumericDuration its white-space and NaN cases |
| JsText.ParseIntToString | src/components/WorkoutForm.tsx:29 | `parseInt` of an integer's decimal text followed by text not starting with a digit gives that integer |
| JsText.ParseIntNat | src/components/WorkoutForm.tsx:29 | `parseInt` of a natural number's decimal text gives the number |
| JsText.RoundDiv | src/components/Analytics.tsx:77 | `Math.round(a / b)` is the integer within one half of a / b, halves rounded up |
| JsText.JsRem | src/components/Analytics.tsx:26 | JavaScript's `%`: the dividend minus the result is a multiple of the divisor, and the result has the sign of the dividend and magnitude below the divisor |
| JsText.Take | src/components/calendar/MonthlyCalendar.tsx:187 | `slice(0, n)` is the prefix of length min(n, length) |
| Durations.FormatDuration | src/components/Analytics.tsx:23-35 | the formatted duration; its four shapes are stated by Durations.FormatDurationCases, and Durations.FormatDurationRoundTrip proves that it reads back through an independent parser |
| Durations.FormatDurationCases | src/components/Analytics.tsx:23-35 | for n ≥ 0 the text is "0m", "{m}m", "{h}h" or "{h}h {m}m" with h = n div 60 and m = n mod 60, each in exactly its case |
| Durations.ReadMinutesOnly | src/components/Reports.tsx:18 | the "{m}m" shape reads back to m minutes |
| Durations.ReadHoursOnly | src/components/Reports.tsx:20 | the "{h}h" shape reads back to 60·h minutes |
| Durations.ReadHoursAndMinutes | src/components/Reports.tsx:22 | the "{h}h {m}m" shape with m < 60 reads back to 60·h + m minutes |
| Durations.FormatDurationRoundTrip | src/components/Reports.tsx:12-24 | every formatted non-negative duration reads back to the same number of minutes |
| Durations.FormatDurationInjective | src/components/Analytics.tsx:23-35 | two non-negative durations with the same text are equal |
| Analytics.PrimaryName | src/components/Analytics.tsx:40-42 | a record's primary minutes go to its custom name when the activity is "Other" and that name is non-empty, otherwise to the activity's string |
| Analytics.SecondaryName | src/components/Analytics.tsx:46-49 | the 30% share has a key exactly when there is a secondary activity, chosen by the same "Other" rule |
| Analytics.AddTo | src/components/Analytics.tsx:43 | one accumulator update gives the specified add: an existing name grows by the amount, a new name is appended with it |
| Analytics.WeeklyData | src/components/Analytics.tsx:39-54 | the reduce loop computes exactly the distribution function of the records |
| Analytics.AddKeepsValid | src/components/Analytics.tsx:43 | an add keeps the keys distinct and all present, and never loses a key |
| Analytics.AddAt | src/components/Analytics.tsx:43 | after an add, a name is a key exactly when it was one or is the added name, and its total grows only if it is the added name |
| Analytics.Distribution | src/components/Analytics.tsx:39-54 | the value of the per-name reduce; Analytics.DistributionSpec states which names have a total and what each total is, and Analytics.DistributionTotal the grand total |
| Analytics.StepValid | src/components/Analytics.tsx:39-54 | one record makes a name a key exactly when it was one or the record mentions it, adding the record's contribution |
| Analytics.DistributionSpec | src/components/Analytics.tsx:39-54 | a name has a total exactly when some record mentions it, and the total is 10·primary plus 3·primary minutes of every record naming it primary or secondary |
| Analytics.NameTenthsUnmentioned | src/components/Analytics.tsx:39-54 | a name no record mentions collects nothing |
| Analytics.DistributionKeysStable | src/components/Analytics.tsx:39-54 | more records never remove a name nor reorder the names seen so far |
| Analytics.SumKeysOther | src/components/Analytics.tsx:65 | changing a name outside the keys leaves the sum of totals unchanged |
| Analytics.SumKeysBump | src/components/Analytics.tsx:65 | adding to one of distinct keys raises the sum of totals by that amount |
| Analytics.SumKeysAppend | src/components/Analytics.tsx:65 | appending a new key with a value raises the sum of totals by that value |
| Analytics.AddTotal | src/components/Analytics.tsx:43 | an add of an amount raises the sum of all totals by that amount |
| Analytics.DistributionTotal | src/components/Analytics.tsx:39-54 | the sum of all totals is 10·Σduration + 3·Σ(duration of records with a secondary activity) tenths |
| Analytics.RoundedMinutes | src/components/Analytics.tsx:59 | `Math.round(total)` is the whole minute within half a minute of the total |
| Analytics.ChartLabel | src/components/Analytics.tsx:57 | names up to 12 characters are kept; longer names become their first 12 characters and "..." |
| Analytics.ChartData | src/components/Analytics.tsx:56-62 | one bar per name |
| Analytics.PieData | src/components/Analytics.tsx:66-72 | one slice per name |
| Analytics.ChartFill | src/components/Analytics.tsx:61 | the chart colour lookup with a grey default; Analytics.ChartFillCustom states that a custom name gets the grey of "Other", and Analytics.ChartDataSpec that bar and slice i both carry the fill of name i |
| Analytics.ChartFillCustom | src/components/Analytics.tsx:61 | a name that is no activity's string is drawn in the grey that "Other" has |
| Analytics.ChartDataSpec | src/components/Analytics.tsx:56-72 | bar i and slice i are for name i, carry the total rounded to the nearest minute, show a text reading back to that value, and the chart label of name i, at most 15 characters, and the same fill, that of name i |
| Analytics.MostActiveActivity | src/components/Analytics.tsx:78-81 | the scan loop computes exactly the fold of the reduce |
| Analytics.Scan | src/components/Analytics.tsx:78-81 | the fold of the most-active reduce; Analytics.ScanSpec and Analytics.ScanWholeMinutes state which name and duration it reports |
| Analytics.ScanSpec | src/components/Analytics.tsx:78-81 | the reported duration is the largest rounded total (0 if none is positive), it bounds every rounded total, it is "None"/0 for no positive totals, and otherwise the reported name is one of the names |
| Analytics.MaxRoundedAtMost | src/components/Analytics.tsx:78-81 | the largest rounded total is below any bound that every rounded total is below |
| Analytics.ScanWholeMinutes | src/components/Analytics.tsx:78-81 | when every total is whole minutes, the first name with the largest positive total wins, with that total |
| Analytics.ScanCanPreferSmallerTotal | src/components/Analytics.tsx:79 | comparing a raw total with the stored rounded one lets a later, smaller total (10.3 after 10.4 minutes) become the leader |
| Analytics.ScanLaterTieWins | src/components/Analytics.tsx:79 | a later name tying at 10.3 minutes replaces the leader, because the raw 10.3 exceeds the stored rounded 10 |
| Analytics.ScanHalfTieKeepsFirst | src/components/Analytics.tsx:79 | a later name tying at 10.5 minutes does not replace the leader, whose stored rounded 11 is larger |
| Analytics.AnalyticsData | src/components/Analytics.tsx:74-90 | the view's count, plain total, average, chart and pie data are those of the records, and the most active activity and duration are those of the first-to-last scan of the distribution, the duration being the largest rounded total |
| Calendar.Weekday | src/components/calendar/MonthlyCalendar.tsx:79 | a day's column is one of the seven Monday-to-Sunday positions |
| Calendar.StartOfWeek | src/components/WorkoutCalendar.tsx:32 | `startOfWeek` is the Monday at most six days before the day |
| Calendar.EndOfWeek | src/components/WorkoutCalendar.tsx:33 | `endOfWeek` is the Sunday at most six days after the day |
| Calendar.DaysFrom | src/components/calendar/MonthlyCalendar.tsx:55 | `eachDayOfInterval` yields every day of the interval, consecutively; the model returns [] for an end before the start, which no view passes |
| Calendar.MonthGrid | src/components/calendar/MonthlyCalendar.tsx:49-56 | the grid's days; Calendar.MonthGridShape, Calendar.MonthGridColumns and Calendar.MonthGridSplit state its shape |
| Calendar.MonthGridShape | src/components/calendar/MonthlyCalendar.tsx:49-56 | the grid starts on a Monday, ends on a Sunday, holds 4 to 6 whole weeks of consecutive days and contains every day of the month |
| Calendar.MonthGridColumns | src/components/WorkoutCalendar.tsx:104 | grid cell i is the weekday of header column i mod 7 |
| Calendar.MonthGridSplit | src/components/calendar/MonthlyCalendar.tsx:52-55 | the grid is the padding before the month, the month's days and the padding after them |
| Calendar.AddButtonDays | src/components/calendar/MonthlyCalendar.tsx:157-169 | the cells with an add button; Calendar.CurrentMonthCells states that they are the month's days in order |
| Calendar.CurrentMonthCells | src/components/calendar/MonthlyCalendar.tsx:157-169 | the cells that get an add button are exactly the month's days, in order |
| Calendar.DaySelection.Click | src/components/calendar/MonthlyCalendar.tsx:143 | a click makes the clicked day the selected one |
| Calendar.DaySelection.constructor | src/components/calendar/MonthlyCalendar.tsx:37 | nothing is selected at first |
| Calendar.ClickSelectsOneDay | src/components/calendar/MonthlyCalendar.tsx:131 | after a click exactly the clicked day is highlighted |
| Calendar.WorkoutsOn | src/components/calendar/MonthlyCalendar.tsx:58-62 | the `isSameDay` filter; Calendar.WorkoutsOnSpec states that exactly the records of that day are kept, in order |
| Calendar.WorkoutsOnSpec | src/components/calendar/MonthlyCalendar.tsx:58-62 | a day's workouts are exactly the records dated that day, and the filter distributes over concatenation, so order is kept |
| Calendar.WorkoutsOnOtherDay | src/components/WorkoutCalendar.tsx:42-46 | adding a record dated another day does not change a day's workouts |
| Calendar.ActivityColor | src/components/calendar/ListView.tsx:55-67 | the dot colour lookup with a grey default; Calendar.ActivityColorTotal states the colour of every string |
| Calendar.ActivityColorTotal | src/components/calendar/ListView.tsx:55-67 | each of the eight activities finds its own table colour, no two activities share one, the table holds no other name, and any other string that is not an inherited property name of the object literal gets 'bg-gray-500', the colour of "Other" |
| Reports.WeekWindow | src/components/Reports.tsx:30-31 | the week window runs from a Monday to the Sunday six days later and contains `now` |
| Reports.InWindow | src/components/Reports.tsx:32-34 | the `isWithinInterval` filter; Reports.InWindowSpec states that exactly the records within the window are kept, in order |
| Reports.InWindowSpec | src/components/Reports.tsx:32-48 | a window keeps exactly the records with start ≤ date ≤ end and distributes over concatenation, so order is kept |
| Reports.InWindowIncludesEnds | src/components/Reports.tsx:33 | records dated on either end of a window are kept |
| Reports.StatsOf | src/components/Reports.tsx:51-59 | the per-activity table of calculateStats; Reports.StatsOfKeys and Reports.StatsOfSpec state its entries, Reports.StatsOfTotals its column sums |
| Reports.ReportOf | src/components/Reports.tsx:61-70 | the object calculateStats returns; Reports.CalculateStats computes it, and Reports.StatsOfTotals and Workouts.AverageDuration state its figures |
| Reports.CalculateStats | src/components/Reports.tsx:50-70 | the reduce loop with its in-place entry updates yields the specified per-activity table, with total, count and average |
| Reports.RecordValid | src/components/Reports.tsx:53-57 | one record keeps the table's keys distinct and present and loses none |
| Reports.RecordAt | src/components/Reports.tsx:53-57 | after one record, an activity has an entry exactly when it had one or is the record's, and only that entry gains one and the record's minutes |
| Reports.StatsOfValid | src/components/Reports.tsx:51-59 | the table built from any records is well formed |
| Reports.StatsOfKeys | src/components/Reports.tsx:53-56 | an activity has an entry exactly when some record has that raw activity |
| Reports.StatsOfSpec | src/components/Reports.tsx:51-59 | an entry's count is the number of records with that activity, at least 1, and its duration is their summed primary duration |
| Reports.NoActivityZero | src/components/Reports.tsx:51-59 | an activity no record has counts zero records and zero minutes |
| Reports.SumsOther | src/components/Reports.tsx:51-59 | changing an activity outside the keys leaves both column sums unchanged |
| Reports.SumsReplace | src/components/Reports.tsx:51-59 | replacing one of distinct keys' entries changes the column sums by the difference |
| Reports.WithEntryValid | src/components/Reports.tsx:53-55 | creating a missing `{count: 0, duration: 0}` entry keeps the table well formed and loses no key |
| Reports.WithEntrySums | src/components/Reports.tsx:53-55 | creating the fresh entry leaves both column sums unchanged |
| Reports.NewEntrySums | src/components/Reports.tsx:54 | a new key with a zero entry adds nothing to either column sum |
| Reports.BumpCounts | src/components/Reports.tsx:56 | `count += 1` raises the count column sum by one |
| Reports.BumpDurations | src/components/Reports.tsx:57 | `duration += d` raises the duration column sum by d |
| Reports.RecordCounts | src/components/Reports.tsx:53-57 | one record raises the count column sum by one |
| Reports.RecordDurations | src/components/Reports.tsx:53-57 | one record raises the duration column sum by its primary duration |
| Reports.StatsOfTotals | src/components/Reports.tsx:51-62 | the counts sum to `totalWorkouts` and the durations sum to `totalDuration` |
| Reports.BuildReports | src/components/Reports.tsx:26-82 | the weekly, monthly and yearly reports are the statistics of the records within the week of `now`, the month and the year |
| DataManager.LastIndex | src/components/DataManager.tsx:55-58 | the property read finds the last member with the name, or reports that there is none |
| DataManager.Keep | src/components/DataManager.tsx:54-59 | the validity filter; DataManager.Import states that exactly the records passing it are imported, DataManager.FalsyFieldsDropped and DataManager.ImportExample its falsy cases |
| DataManager.Import | src/components/DataManager.tsx:49-65 | the import fails for a non-array, for an array holding `null`, and when nothing is kept; otherwise it passes on a non-empty list of input records holding every record with truthy `id`, `date`, `activity` and `duration` and no other; the list passed on is the `filter` of the input by the validity test, so order and multiplicity are those of the input |
| DataManager.ImportConcat | src/components/DataManager.tsx:54-59 | when each of two arrays imports on its own, importing them joined passes on the kept records of each, in order |
| DataManager.ToastCount | src/components/DataManager.tsx:68-71 | the success message's number reads back to the number of records passed on |
| DataManager.FalsyFieldsDropped | src/components/DataManager.tsx:55-58 | a record with duration 0 or an empty id is dropped, so a file holding only it fails |
| DataManager.ImportExample | src/components/DataManager.tsx:54-65 | a complete record is passed on and a following record with an empty activity is dropped |
| DataManager.Toast | src/components/DataManager.tsx:67-78 | the toast after an import; DataManager.ToastCount states that the success message reads back to the number of records |
| WorkoutForm.FormState.constructor | src/components/WorkoutForm.tsx:19-22 | the four fields start empty |
| WorkoutForm.FormState.SelectActivity | src/components/WorkoutForm.tsx:47-51 | choosing an activity other than Resistance clears the exercise type; Resistance keeps it; the other fields stay |
| WorkoutForm.FormState.SelectExerciseType | src/components/WorkoutForm.tsx:66-69 | the exercise type is set only while Resistance is chosen; the other fields stay |
| WorkoutForm.FormState.SetDuration | src/components/WorkoutForm.tsx:88 | typing sets the duration text only |
| WorkoutForm.FormState.SetNotes | src/components/WorkoutForm.tsx:99 | typing sets the notes only |
| WorkoutForm.FormState.Submission | src/components/WorkoutForm.tsx:24-34 | a payload is sent exactly when activity and duration text are non-empty; it carries `parseInt` of the text, the exercise type only for Resistance, and notes only when non-empty |
| WorkoutForm.FormState.SubmitEnabled | src/components/WorkoutForm.tsx:106 | the negation of the button's `disabled` expression; WorkoutForm.EnabledSubmits states that an enabled button always leads to a payload, WorkoutForm.SubmitWithoutExerciseType that the handler does not re-check it |
| WorkoutForm.EnabledSubmits | src/components/WorkoutForm.tsx:106 | an enabled button always leads to a payload |
| WorkoutForm.SubmitWithoutExerciseType | src/components/WorkoutForm.tsx:26 | with Resistance and no exercise type the button is disabled, yet `handleSubmit` itself does not re-check, so the handler passes a payload without one |
| WorkoutForm.PayloadExerciseType | src/components/WorkoutForm.tsx:30 | under the form's invariant the payload's exercise type is the selected one |
| WorkoutForm.DurationReadBack | src/components/WorkoutForm.tsx:29 | a duration text of blanks then a number's decimal text submits that number |
| WorkoutForm.ParsePadded | src/components/WorkoutForm.tsx:29 | `parseInt` ignores leading blanks |
| WorkoutForm.NonNumericDuration | src/components/WorkoutForm.tsx:29 | `handleSubmit` checks only non-emptiness: text starting with anything but white space, a sign or a digit gives a `NaN` duration |
| WorkoutItem.BaseName | src/components/calendar/WorkoutItem.tsx:25 | the name on the card is the activity itself or, for "Other" only, the record's own non-empty custom name |
| WorkoutItem.BaseNameIsChartName | src/components/calendar/WorkoutItem.tsx:25 | the names on the card, primary and secondary, are the names the analytics totals are kept under |
| WorkoutItem.FormatActivityDisplay | src/components/calendar/WorkoutItem.tsx:24-34 | the label is the base name, then " - " and the exercise type if set, else " - " and the split if set, else nothing |
| WorkoutItem.ExerciseTypeFirst | src/components/calendar/WorkoutItem.tsx:27-31 | with an exercise type set, the split does not change the label |
| WorkoutItem.PrimaryLabel | src/components/calendar/WorkoutItem.tsx:43 | the first line starts with the primary base name |
| WorkoutItem.SecondaryLabel | src/components/calendar/WorkoutItem.tsx:44-46 | the second line exists exactly when there is a secondary activity, and starts with its base name |
| WorkoutItem.PrimaryIgnoresSplit | src/components/calendar/WorkoutItem.tsx:43 | the first line depends on neither the split nor the secondary activity |
| WorkoutItem.SecondaryIgnoresExerciseType | src/components/calendar/WorkoutItem.tsx:45 | the second line does not depend on the exercise type |
| WorkoutItem.PrimaryShowsExerciseType | src/components/calendar/WorkoutItem.tsx:43 | with an exercise type, the first line is the base name, " - " and the type |
| WorkoutItem.FormatDurationDisplay | src/components/calendar/WorkoutItem.tsx:36-41 | the duration text reads back to the primary duration and always ends in "min"; it holds a "+" exactly when the secondary duration is truthy, and then what follows the primary number and its "+" reads back to the secondary duration; otherwise "min" directly follows the number |
| WorkoutItem.TwoNumberDisplay | src/components/calendar/WorkoutItem.tsx:38 | "{d}+{s}min" reads back to d, has its "+" right after d's digits, reads back to s after it, and ends in "min" |
| WorkoutItem.OneNumberDisplay | src/components/calendar/WorkoutItem.tsx:40 | "{d}min" reads back to d, holds no "+", and is d's digits followed by "min" |
| WorkoutItem.ZeroSecondaryHidden | src/components/calendar/WorkoutItem.tsx:37 | a secondary duration of 0 prints as if absent |
| WorkoutCalendar.CalendarDays | src/components/WorkoutCalendar.tsx:30-40 | the `while` loop yields exactly the month grid: every day from the Monday before the first day to the Sunday after the last |
| WorkoutCalendar.CalendarState.constructor | src/components/WorkoutCalendar.tsx:26-27 | no day is selected and the form is hidden |
| WorkoutCalendar.CalendarState.HandleAddWorkout | src/components/WorkoutCalendar.tsx:48-51 | the add button selects its day and shows the form |
| WorkoutCalendar.CalendarState.HandleFormSubmit | src/components/WorkoutCalendar.tsx:53-62 | with a selected day exactly one submission, dated that day, is passed on and the form closes; without one nothing is passed on and nothing changes |
| WorkoutCalendar.CalendarState.Cancel | src/components/WorkoutCalendar.tsx:175-178 | cancelling hides the form and clears the selection |
| MonthlyCalendar.Indicators | src/components/calendar/MonthlyCalendar.tsx:174 | a cell draws the first min(3, n) of its workouts |
| MonthlyCalendar.MoreText | src/components/calendar/MonthlyCalendar.tsx:191-195 | the overflow line appears exactly when a day has more than three workouts |
| MonthlyCalendar.Hidden | src/components/calendar/MonthlyCalendar.tsx:191-195 | the number on the overflow line; MonthlyCalendar.IndicatorsAccountForAll states that it is the count of undrawn workouts |
| MonthlyCalendar.IndicatorsAccountForAll | src/components/calendar/MonthlyCalendar.tsx:174-195 | drawn indicators plus the number on the overflow line equal the day's workouts |
| MonthlyCalendar.IndicatorsAreFirst | src/components/calendar/MonthlyCalendar.tsx:174 | the drawn indicators are the day's first workouts in list order |
| MonthlyCalendar.IndicatorText | src/components/calendar/MonthlyCalendar.tsx:187 | the text is the activity's first three characters, or for "Other" the custom name's first three, absent when the name is |
| MonthlyCalendar.OtherHasNoFallback | src/components/calendar/MonthlyCalendar.tsx:187 | an unnamed "Other" shows nothing rather than "Oth" |
| MonthlyCalendar.IndicatorColor | src/components/calendar/MonthlyCalendar.tsx:179 | an indicator's colour is its activity's colour |
| ListView.ListDays | src/components/calendar/ListView.tsx:76-80 | the list holds the month's days, first to last, consecutively, with no padding |
| ListView.ListDaysAreMonthCells | src/components/calendar/ListView.tsx:76-80 | the listed days are the grid's add-button cells, and no more than the grid |
| ListView.CountText | src/components/calendar/ListView.tsx:121-190 | "No workouts" exactly for none; otherwise the number's decimal text, then " workout", then an "s" exactly when the number is not 1, and nothing else |
| ListView.CountTextReadsBack | src/components/calendar/ListView.tsx:189 | the count line reads back to the number of workouts |
| ListView.NameText | src/components/calendar/ListView.tsx:225 | the name line is the name the analytics totals use, except that an unnamed "Other" is blank here where the charts show "Other" |
| ListView.SecondaryText | src/components/calendar/ListView.tsx:229 | present exactly when there is a secondary activity; it starts with " + ", what follows reads back to the secondary duration when there is one, and it ends with "min " and the secondary name |
| ListView.SecondaryShown | src/components/calendar/ListView.tsx:229 | the secondary name in the detail line is the analytics secondary key, except that "Other" prints "undefined" without a custom name and nothing with an empty one, where the charts use "Other" |
| ListView.SecondaryUndefined | src/components/calendar/ListView.tsx:229 | unset secondary fields print as "undefined" inside the text |
| ListView.DetailText | src/components/calendar/ListView.tsx:228-229 | the detail line starts with the primary duration and is just "{d} minutes" without a secondary activity |
| ListView.DetailTextReadsBack | src/components/calendar/ListView.tsx:228-229 | the detail line reads back to the primary duration |

## Left out

- Dates: date-fns and `Date` are not modelled. This covers ISO date strings, time zones, `isSameDay`/`isSameMonth` on real dates, and the clock-dependent labels `isToday`, `isYesterday` and `isThisWeek` (src/components/calendar/ListView.tsx:69-74). Days are integers and "now" is a parameter.
- Reports.BuildReports: the month and year windows are parameters rather than computed with `startOfMonth`/`endOfYear`, and the `period` label strings are not built.
- Floating point: the IEEE result of `duration * 0.3` and the `toFixed(1)` percentage of the pie slices are replaced by exact tenths. The percentage is not modelled.
- Import and export I/O: `JSON.parse`, `FileReader`, `JSON.stringify`, the download link, dialog state and toasts as effects. Import starts from the parsed value. JSON numbers are integers.
- Workouts.WorkoutStore.AddWorkout: the id from `Date.now()` is a parameter, and no uniqueness is claimed.
- `onImportData`'s caller is not part of the files modelled, so what the page does with imported records is not modelled.
- Global `jumpToToday` window events, `navigateMonth`/`setMonth`, and the week navigation and slider components.
- Rendering: JSX, class names other than the activity colours, icons, dialogs, charts as drawn, the WorkoutCalendar badge and its colour, and indicator titles.
- Analytics.WeeklyData: JavaScript orders integer-like property names first and inherits prototype keys such as "constructor". The model keeps names in first-seen order with no inherited keys.
- Calendar.ActivityColor and Analytics.ChartFill: a lookup of an inherited property name such as "constructor" or "toString" in the colour object literal is truthy in JavaScript and would not fall back to the default colour. The model treats every name outside the table as missing.
- Durations: durations are unbounded whole numbers. JavaScript numbers are doubles: a non-integer duration from an imported file, the precision lost above 2^53, and the exponent notation `String(n)` uses from 1e21 are not modelled.
- JsText.ParseInt: decimal digits, JavaScript white space and an optional sign are read. Hex prefixes and radix arguments are not modelled.
- Analytics.ChartLabel, JsText.Take and MonthlyCalendar.IndicatorText: JavaScript measures and slices strings in UTF-16 code units, while Dafny strings are sequences of Unicode scalar values. Names with characters outside the Basic Multilingual Plane are therefore cut at different places.
- The form's number input: the browser's value cleaning of `type="number"` and its `min="1"` validation are not modelled (src/components/WorkoutForm.tsx:86-90).
- Analytics.ScanSpec: the first-maximum tie-break that ties are expected to give is proved only for whole-minute totals (Analytics.ScanWholeMinutes), because the code compares raw totals with rounded ones.
- WorkoutForm.FormState.SelectExerciseType: the requirement that Resistance is chosen stands for the select being rendered only then (src/components/WorkoutForm.tsx:66).
- The form's `date` prop title formatting and the `toISOString` date that WorkoutCalendar attaches are not modelled; the submitted day stays a day number.
