/**
 * Day arithmetic and per-day filtering shared by the three calendar views
 * (src/components/WorkoutCalendar.tsx, src/components/calendar/MonthlyCalendar.tsx
 * and src/components/calendar/ListView.tsx). Days are integers and day 0 is a Monday.
 */
module Calendar {
  import opened Wrappers
  import opened Seqs
  import opened Workouts

  /** 0 is Monday, 6 is Sunday (weeks start on Monday in every view). */
  function Weekday(d: Day): (w: int)
    ensures 0 <= w < 7
  {
    d % 7
  }

  /** `startOfWeek(d, { weekStartsOn: 1 })` */
  function StartOfWeek(d: Day): (s: Day)
    ensures Weekday(s) == 0 && s <= d < s + 7
  {
    d - Weekday(d)
  }

  /** `endOfWeek(d, { weekStartsOn: 1 })`, as a day */
  function EndOfWeek(d: Day): (e: Day)
    ensures Weekday(e) == 6 && e - 7 < d <= e
  {
    StartOfWeek(d) + 6
  }

  /** A calendar month as the interval of its first and last day. */
  datatype Month = Month(first: Day, last: Day)

  predicate ValidMonth(m: Month) {
    28 <= m.last - m.first + 1 <= 31
  }

  /** `isSameMonth(day, currentDate)` */
  predicate InMonth(m: Month, d: Day) {
    m.first <= d <= m.last
  }

  /** `eachDayOfInterval({ start, end })`: every day from `start` to `end`, in order. */
  function DaysFrom(start: Day, end: Day): (days: seq<Day>)
    ensures |days| == if end < start then 0 else end - start + 1
    ensures forall i :: 0 <= i < |days| ==> days[i] == start + i
  {
    if end < start then [] else seq(end - start + 1, i => start + i)
  }

  /** The month grid: whole weeks from the Monday before the first day to the Sunday after the last. */
  function MonthGrid(m: Month): seq<Day>
  {
    DaysFrom(StartOfWeek(m.first), EndOfWeek(m.last))
  }

  /**
   * The grid starts on a Monday and ends on a Sunday, holds four to six whole
   * weeks, and contains every day of the month.
   */
  lemma MonthGridShape(m: Month)
    requires ValidMonth(m)
    ensures var g := MonthGrid(m);
      && Weekday(g[0]) == 0 && Weekday(g[|g| - 1]) == 6
      && |g| % 7 == 0 && 28 <= |g| <= 42
      && (forall d :: InMonth(m, d) ==> d in g)
      && (forall i :: 0 <= i < |g| - 1 ==> g[i + 1] == g[i] + 1)
  {
    var g := MonthGrid(m);
    var s := StartOfWeek(m.first);
    forall d | InMonth(m, d) ensures d in g {
      assert g[d - s] == d;
    }
  }

  /** Cell `i` of the grid falls in column `i % 7`, matching the Mon..Sun header. */
  lemma MonthGridColumns(m: Month, i: int)
    requires 0 <= i < |MonthGrid(m)|
    ensures Weekday(MonthGrid(m)[i]) == i % 7
  {
    var s := StartOfWeek(m.first);
    assert MonthGrid(m)[i] == s + i;
    var k := s / 7;
    assert s == 7 * k;
    WeeksShiftNoColumn(k, i);
  }

  /** Moving a day by whole weeks keeps its column. */
  lemma WeeksShiftNoColumn(k: int, i: int)
    ensures (7 * k + i) % 7 == i % 7
  {
    var q, r := i / 7, i % 7;
    assert 7 * k + i == 7 * (k + q) + r;
  }

  /** `DaysFrom` splits at any day inside its interval. */
  lemma DaysFromSplit(start: Day, mid: Day, end: Day)
    requires start <= mid <= end + 1
    ensures DaysFrom(start, end) == DaysFrom(start, mid - 1) + DaysFrom(mid, end)
  {
  }

  function InMonthOf(m: Month): Day -> bool
  {
    d => InMonth(m, d)
  }

  /** The grid cells for which `isSameMonth(day, currentDate)` holds: the ones with an add button. */
  function AddButtonDays(m: Month): seq<Day>
  {
    Filter(MonthGrid(m), InMonthOf(m))
  }

  /** The cells with an add button are exactly the days of the month, in order. */
  lemma CurrentMonthCells(m: Month)
    requires ValidMonth(m)
    ensures AddButtonDays(m) == DaysFrom(m.first, m.last)
  {
    var before := DaysFrom(StartOfWeek(m.first), m.first - 1);
    var days := DaysFrom(m.first, m.last);
    var after := DaysFrom(m.last + 1, EndOfWeek(m.last));
    MonthGridSplit(m);
    FilterMiddle(before, days, after, InMonthOf(m));
  }

  /** The grid is the padding before the month, the month, and the padding after it. */
  lemma MonthGridSplit(m: Month)
    requires ValidMonth(m)
    ensures MonthGrid(m) == DaysFrom(StartOfWeek(m.first), m.first - 1)
                            + (DaysFrom(m.first, m.last) + DaysFrom(m.last + 1, EndOfWeek(m.last)))
  {
    DaysFromSplit(StartOfWeek(m.first), m.first, EndOfWeek(m.last));
    DaysFromSplit(m.first, m.last + 1, EndOfWeek(m.last));
  }

  /** The `selectedDate` state of the month grid and the list view: a click selects that day. */
  class DaySelection {
    var selectedDate: Option<Day>

    constructor ()
      ensures selectedDate == None
    {
      selectedDate := None;
    }

    /** `onClick={() => setSelectedDate(day)}` */
    method Click(d: Day)
      modifies this
      ensures selectedDate == Some(d)
    {
      selectedDate := Some(d);
    }

    /** `selectedDate && isSameDay(day, selectedDate)` */
    predicate IsSelected(d: Day)
      reads this
    {
      selectedDate == Some(d)
    }
  }

  /** After a click exactly the clicked day is highlighted. */
  lemma ClickSelectsOneDay(s: DaySelection, d: Day, e: Day)
    requires s.selectedDate == Some(d)
    ensures s.IsSelected(e) <==> e == d
  {
  }

  predicate OnDay(d: Day, w: WorkoutEntry) {
    w.date == d
  }

  /** `workouts.filter(workout => isSameDay(workout.date, date))` */
  function WorkoutsOn(ws: seq<WorkoutEntry>, d: Day): seq<WorkoutEntry>
  {
    Filter(ws, w => OnDay(d, w))
  }

  /** The workouts of a day are the records dated that day, in list order. */
  lemma WorkoutsOnSpec(ws: seq<WorkoutEntry>, more: seq<WorkoutEntry>, d: Day)
    ensures forall w :: w in WorkoutsOn(ws, d) ==> w in ws && w.date == d
    ensures forall i :: 0 <= i < |ws| && ws[i].date == d ==> ws[i] in WorkoutsOn(ws, d)
    ensures WorkoutsOn(ws + more, d) == WorkoutsOn(ws, d) + WorkoutsOn(more, d)
  {
    var r := WorkoutsOn(ws, d);
    forall w | w in r ensures w in ws && OnDay(d, w) {
      var i :| 0 <= i < |r| && r[i] == w;
    }
    FilterConcat(ws, more, w => OnDay(d, w));
  }

  /** Records on other days do not change a day's list. */
  lemma WorkoutsOnOtherDay(ws: seq<WorkoutEntry>, w: WorkoutEntry, d: Day)
    requires w.date != d
    ensures WorkoutsOn(ws + [w], d) == WorkoutsOn(ws, d)
  {
    FilterConcat(ws, [w], w' => OnDay(d, w'));
    FilterSingleton(w, w' => OnDay(d, w'));
  }

  /** The dot colour of MonthlyCalendar.tsx and ListView.tsx, by the stored activity string. */
  const ActivityColors: map<string, string> := map[
    "Brazilian Jiu-Jitsu" := "bg-purple-500", "Cycling" := "bg-blue-500", "Hiking" := "bg-green-500",
    "Kickboxing" := "bg-red-500", "Resistance" := "bg-orange-500", "Running" := "bg-yellow-500",
    "Swimming" := "bg-cyan-500", "Other" := "bg-gray-500"]

  /** `colors[activity] || 'bg-gray-500'` */
  function ActivityColor(activity: string): string
  {
    if activity in ActivityColors then ActivityColors[activity] else "bg-gray-500"
  }

  /** No two activities share a colour. */
  lemma ActivityColorsDistinct(a: Activity, b: Activity)
    requires ActivityColor(ActivityLabel(a)) == ActivityColor(ActivityLabel(b))
    ensures a == b
  {
    match a
    case BrazilianJiuJitsu =>
    case Cycling =>
    case Hiking =>
    case Kickboxing =>
    case Resistance =>
    case Running =>
    case Swimming =>
    case Other =>
  }

  /** The table's keys are the eight activity strings. */
  lemma ActivityColorsKeys()
    ensures ActivityColors.Keys == {ActivityLabel(BrazilianJiuJitsu), ActivityLabel(Cycling), ActivityLabel(Hiking),
      ActivityLabel(Kickboxing), ActivityLabel(Resistance), ActivityLabel(Running), ActivityLabel(Swimming),
      ActivityLabel(Other)}
  {
  }

  /** Each activity finds its own entry of the table. */
  lemma ActivityColorKnown(a: Activity)
    ensures ActivityLabel(a) in ActivityColors
    ensures ActivityColor(ActivityLabel(a)) == ActivityColors[ActivityLabel(a)]
  {
    ActivityColorsKeys();
  }

  /** A string of the table is the string of some activity. */
  lemma ActivityColorsOnlyActivities(s: string)
    requires s in ActivityColors
    ensures exists a :: ActivityLabel(a) == s
  {
    ActivityColorsKeys();
    assert s in ActivityColors.Keys;
  }

  /** A string that is no activity's gets the default grey. */
  lemma ActivityColorDefault(s: string)
    requires forall a :: ActivityLabel(a) != s
    ensures ActivityColor(s) == "bg-gray-500"
  {
    assert ActivityLabel(Cycling) != s && ActivityLabel(Hiking) != s && ActivityLabel(Other) != s;
    assert ActivityLabel(BrazilianJiuJitsu) != s && ActivityLabel(Kickboxing) != s;
    assert ActivityLabel(Resistance) != s && ActivityLabel(Running) != s && ActivityLabel(Swimming) != s;
  }

  /**
   * The lookup is total: each of the eight activities finds its own entry of
   * the table, no two of them share a colour, the table holds nothing else,
   * and any other string gets the grey that "Other" has.
   */
  lemma ActivityColorTotal(s: string)
    ensures forall a :: ActivityLabel(a) in ActivityColors && ActivityColor(ActivityLabel(a)) == ActivityColors[ActivityLabel(a)]
    ensures forall a, b :: ActivityColor(ActivityLabel(a)) == ActivityColor(ActivityLabel(b)) ==> a == b
    ensures s in ActivityColors ==> exists a :: ActivityLabel(a) == s
    ensures (forall a :: ActivityLabel(a) != s) ==> ActivityColor(s) == "bg-gray-500" == ActivityColor(ActivityLabel(Other))
  {
    forall a ensures ActivityLabel(a) in ActivityColors && ActivityColor(ActivityLabel(a)) == ActivityColors[ActivityLabel(a)] {
      ActivityColorKnown(a);
    }
    forall a, b | ActivityColor(ActivityLabel(a)) == ActivityColor(ActivityLabel(b)) ensures a == b {
      ActivityColorsDistinct(a, b);
    }
    if s in ActivityColors {
      ActivityColorsOnlyActivities(s);
    }
    if forall a :: ActivityLabel(a) != s {
      ActivityColorDefault(s);
      ActivityColorKnown(Other);
    }
  }

}
