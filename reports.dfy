/**
 * The weekly, monthly and yearly reports of src/components/Reports.tsx: each
 * window keeps the records whose day lies within it, both ends included, and
 * summarises them per raw activity.
 */
module Reports {
  import opened Wrappers
  import opened Seqs
  import opened Workouts
  import opened Calendar

  /** An inclusive interval of days. */
  datatype Window = Window(start: Day, end: Day)

  /** The Monday-to-Sunday week containing `now`. */
  function WeekWindow(now: Day): (w: Window)
    ensures Weekday(w.start) == 0 && w.end == w.start + 6
    ensures w.start <= now <= w.end
  {
    Window(StartOfWeek(now), EndOfWeek(now))
  }

  predicate Within(win: Window, w: WorkoutEntry) {
    win.start <= w.date <= win.end
  }

  /** `workouts.filter(workout => isWithinInterval(workout.date, {start, end}))` */
  function InWindow(ws: seq<WorkoutEntry>, win: Window): seq<WorkoutEntry>
  {
    Filter(ws, w => Within(win, w))
  }

  /** A window keeps exactly the records dated inside it, in their original order. */
  lemma InWindowSpec(ws: seq<WorkoutEntry>, more: seq<WorkoutEntry>, win: Window)
    ensures forall w :: w in InWindow(ws, win) ==> w in ws && win.start <= w.date <= win.end
    ensures forall i :: 0 <= i < |ws| && win.start <= ws[i].date <= win.end ==> ws[i] in InWindow(ws, win)
    ensures InWindow(ws + more, win) == InWindow(ws, win) + InWindow(more, win)
  {
    var r := InWindow(ws, win);
    forall w | w in r ensures w in ws && Within(win, w) {
      var i :| 0 <= i < |r| && r[i] == w;
    }
    FilterConcat(ws, more, w => Within(win, w));
  }

  /** Both ends of a window are included. */
  lemma InWindowIncludesEnds(w: WorkoutEntry, win: Window)
    requires w.date == win.start || w.date == win.end
    requires win.start <= win.end
    ensures InWindow([w], win) == [w]
  {
    FilterSingleton(w, w' => Within(win, w'));
  }

  // ----- calculateStats -----

  datatype Stat = Stat(count: int, duration: int)

  /** The per-activity accumulator: keys in insertion order and their statistics. */
  datatype ActivityStats = ActivityStats(keys: seq<Activity>, stats: map<Activity, Stat>)

  predicate Valid(a: ActivityStats) {
    && (forall i, j :: 0 <= i < j < |a.keys| ==> a.keys[i] != a.keys[j])
    && (forall i :: 0 <= i < |a.keys| ==> a.keys[i] in a.stats)
    && (forall k :: k in a.stats ==> k in a.keys)
  }

  /** One step of the reduce: create the entry if needed, then count the record and add its duration. */
  function Record(a: ActivityStats, w: WorkoutEntry): ActivityStats
  {
    var k := w.activity;
    var base := WithEntry(a, k);
    ActivityStats(base.keys, base.stats[k := Bump(base.stats[k], w.duration)])
  }

  function StatsOf(ws: seq<WorkoutEntry>): ActivityStats
  {
    if ws == [] then ActivityStats([], map[]) else Record(StatsOf(ws[..|ws| - 1]), ws[|ws| - 1])
  }

  datatype Report = Report(activityStats: ActivityStats, totalDuration: int, totalWorkouts: nat,
                           averageDuration: int)

  /** The report of a window's records; what each figure means is proved below. */
  function ReportOf(ws: seq<WorkoutEntry>): Report
  {
    Report(StatsOf(ws), TotalDuration(ws), |ws|, AverageDuration(ws))
  }

  method CalculateStats(ws: seq<WorkoutEntry>) returns (r: Report)
    ensures r == ReportOf(ws)
  {
    var acc := ActivityStats([], map[]);
    var i := 0;
    while i < |ws|
      invariant 0 <= i <= |ws|
      invariant acc == StatsOf(ws[..i])
    {
      assert ws[..i + 1][..i] == ws[..i];
      var activity := ws[i].activity;
      if activity !in acc.stats {
        acc := ActivityStats(acc.keys + [activity], acc.stats[activity := Stat(0, 0)]);
      }
      var s := acc.stats[activity];
      acc := acc.(stats := acc.stats[activity := Stat(s.count + 1, s.duration + ws[i].duration)]);
      i := i + 1;
    }
    assert ws[..i] == ws;
    r := Report(acc, TotalDuration(ws), |ws|, AverageDuration(ws));
  }

  // ----- What the statistics mean -----

  function CountOf(ws: seq<WorkoutEntry>, a: Activity): nat
  {
    if ws == [] then 0 else CountOf(ws[..|ws| - 1], a) + (if ws[|ws| - 1].activity == a then 1 else 0)
  }

  function DurationOf(ws: seq<WorkoutEntry>, a: Activity): int
  {
    if ws == [] then 0 else DurationOf(ws[..|ws| - 1], a) + (if ws[|ws| - 1].activity == a then ws[|ws| - 1].duration else 0)
  }

  predicate HasActivity(ws: seq<WorkoutEntry>, a: Activity) {
    exists i :: 0 <= i < |ws| && ws[i].activity == a
  }

  /** The entry an activity has before a step: the stored one, or the fresh `{count: 0, duration: 0}`. */
  function Prior(acc: ActivityStats, a: Activity): Stat
  {
    if a in acc.stats then acc.stats[a] else Stat(0, 0)
  }

  /** A step keeps the accumulator well formed and only appends keys. */
  lemma RecordValid(acc: ActivityStats, w: WorkoutEntry)
    requires Valid(acc)
    ensures Valid(Record(acc, w))
    ensures acc.keys <= Record(acc, w).keys
  {
    WithEntryValid(acc, w.activity);
  }

  /** A step touches the record's own activity and no other. */
  lemma RecordAt(acc: ActivityStats, w: WorkoutEntry, a: Activity)
    ensures a in Record(acc, w).stats <==> a in acc.stats || a == w.activity
    ensures a in Record(acc, w).stats ==>
      (Record(acc, w).stats[a] ==
         if a == w.activity then Stat(Prior(acc, a).count + 1, Prior(acc, a).duration + w.duration)
         else Prior(acc, a))
  {
  }

  lemma {:induction false} StatsOfValid(ws: seq<WorkoutEntry>)
    ensures Valid(StatsOf(ws))
  {
    if ws != [] {
      StatsOfValid(ws[..|ws| - 1]);
      RecordValid(StatsOf(ws[..|ws| - 1]), ws[|ws| - 1]);
    }
  }

  /** An activity has an entry exactly when some record in the window has it as its raw `activity`. */
  lemma {:induction false} StatsOfKeys(ws: seq<WorkoutEntry>, a: Activity)
    ensures a in StatsOf(ws).stats <==> HasActivity(ws, a)
  {
    if ws != [] {
      var init := ws[..|ws| - 1];
      var w := ws[|ws| - 1];
      StatsOfKeys(init, a);
      RecordAt(StatsOf(init), w, a);
      if HasActivity(ws, a) && w.activity != a {
        var i :| 0 <= i < |ws| && ws[i].activity == a;
        assert init[i] == ws[i];
      }
      if HasActivity(init, a) {
        var i :| 0 <= i < |init| && init[i].activity == a;
        assert ws[i] == init[i];
      }
    }
  }

  /**
   * An activity's entry counts the records that have it as their raw `activity`
   * (custom names and secondary activities play no part), at least one, and
   * sums their durations.
   */
  lemma {:induction false} StatsOfSpec(ws: seq<WorkoutEntry>, a: Activity)
    ensures a in StatsOf(ws).stats ==>
      StatsOf(ws).stats[a] == Stat(CountOf(ws, a), DurationOf(ws, a)) && CountOf(ws, a) >= 1
  {
    if ws != [] {
      var init := ws[..|ws| - 1];
      var w := ws[|ws| - 1];
      StatsOfSpec(init, a);
      RecordAt(StatsOf(init), w, a);
      if a !in StatsOf(init).stats {
        StatsOfKeys(init, a);
        forall i | 0 <= i < |init| ensures init[i].activity != a {}
        NoActivityZero(init, a);
      }
    }
  }

  lemma {:induction false} NoActivityZero(ws: seq<WorkoutEntry>, a: Activity)
    requires forall i :: 0 <= i < |ws| ==> ws[i].activity != a
    ensures CountOf(ws, a) == 0 && DurationOf(ws, a) == 0
  {
    if ws != [] {
      var init := ws[..|ws| - 1];
      assert forall i :: 0 <= i < |init| ==> init[i] == ws[i];
      NoActivityZero(init, a);
    }
  }

  function SumCounts(keys: seq<Activity>, m: map<Activity, Stat>): int
    requires forall i :: 0 <= i < |keys| ==> keys[i] in m
  {
    if keys == [] then 0 else SumCounts(keys[..|keys| - 1], m) + m[keys[|keys| - 1]].count
  }

  function SumDurations(keys: seq<Activity>, m: map<Activity, Stat>): int
    requires forall i :: 0 <= i < |keys| ==> keys[i] in m
  {
    if keys == [] then 0 else SumDurations(keys[..|keys| - 1], m) + m[keys[|keys| - 1]].duration
  }

  lemma {:induction false} SumsOther(keys: seq<Activity>, m: map<Activity, Stat>, k: Activity, v: Stat)
    requires forall i :: 0 <= i < |keys| ==> keys[i] in m
    requires k !in keys
    ensures SumCounts(keys, m[k := v]) == SumCounts(keys, m)
    ensures SumDurations(keys, m[k := v]) == SumDurations(keys, m)
  {
    if keys != [] {
      SumsOther(keys[..|keys| - 1], m, k, v);
    }
  }

  lemma {:induction false} SumsReplace(keys: seq<Activity>, m: map<Activity, Stat>, k: Activity, v: Stat)
    requires forall i :: 0 <= i < |keys| ==> keys[i] in m
    requires forall i, j :: 0 <= i < j < |keys| ==> keys[i] != keys[j]
    requires k in keys
    ensures SumCounts(keys, m[k := v]) == SumCounts(keys, m) - m[k].count + v.count
    ensures SumDurations(keys, m[k := v]) == SumDurations(keys, m) - m[k].duration + v.duration
  {
    var init := keys[..|keys| - 1];
    if keys[|keys| - 1] == k {
      assert k !in init;
      SumsOther(init, m, k, v);
    } else {
      SumsReplace(init, m, k, v);
    }
  }

  /** The entry created for a new activity counts nothing. */
  function WithEntry(acc: ActivityStats, k: Activity): ActivityStats
  {
    if k in acc.stats then acc else ActivityStats(acc.keys + [k], acc.stats[k := Stat(0, 0)])
  }

  lemma WithEntryValid(acc: ActivityStats, k: Activity)
    requires Valid(acc)
    ensures Valid(WithEntry(acc, k)) && k in WithEntry(acc, k).stats
    ensures acc.keys <= WithEntry(acc, k).keys
  {
    if k !in acc.stats {
      assert k !in acc.keys;
    }
  }

  lemma WithEntrySums(acc: ActivityStats, k: Activity)
    requires Valid(acc)
    ensures Valid(WithEntry(acc, k)) && k in WithEntry(acc, k).stats
    ensures SumCounts(WithEntry(acc, k).keys, WithEntry(acc, k).stats) == SumCounts(acc.keys, acc.stats)
    ensures SumDurations(WithEntry(acc, k).keys, WithEntry(acc, k).stats) == SumDurations(acc.keys, acc.stats)
  {
    WithEntryValid(acc, k);
    if k !in acc.stats {
      NewEntrySums(acc.keys, acc.stats, k);
    }
  }

  lemma NewEntrySums(keys: seq<Activity>, m: map<Activity, Stat>, k: Activity)
    requires forall i :: 0 <= i < |keys| ==> keys[i] in m
    requires k !in m
    ensures SumCounts(keys + [k], m[k := Stat(0, 0)]) == SumCounts(keys, m)
    ensures SumDurations(keys + [k], m[k := Stat(0, 0)]) == SumDurations(keys, m)
  {
    var keys' := keys + [k];
    assert keys'[..|keys'| - 1] == keys;
    SumsOther(keys, m, k, Stat(0, 0));
  }

  /** `{count: s.count + 1, duration: s.duration + d}` */
  function Bump(s: Stat, d: int): Stat
  {
    Stat(s.count + 1, s.duration + d)
  }

  lemma BumpCounts(b: ActivityStats, k: Activity, d: int)
    requires Valid(b) && k in b.stats
    ensures SumCounts(b.keys, b.stats[k := Bump(b.stats[k], d)]) == SumCounts(b.keys, b.stats) + 1
  {
    SumsReplace(b.keys, b.stats, k, Bump(b.stats[k], d));
  }

  lemma BumpDurations(b: ActivityStats, k: Activity, d: int)
    requires Valid(b) && k in b.stats
    ensures SumDurations(b.keys, b.stats[k := Bump(b.stats[k], d)]) == SumDurations(b.keys, b.stats) + d
  {
    SumsReplace(b.keys, b.stats, k, Bump(b.stats[k], d));
  }

  /** Each step adds one to the sum of the counts... */
  lemma RecordCounts(acc: ActivityStats, w: WorkoutEntry)
    requires Valid(acc)
    ensures SumCounts(Record(acc, w).keys, Record(acc, w).stats) == SumCounts(acc.keys, acc.stats) + 1
  {
    WithEntrySums(acc, w.activity);
    BumpCounts(WithEntry(acc, w.activity), w.activity, w.duration);
  }

  /** ...and the record's duration to the sum of the durations. */
  lemma RecordDurations(acc: ActivityStats, w: WorkoutEntry)
    requires Valid(acc)
    ensures SumDurations(Record(acc, w).keys, Record(acc, w).stats) == SumDurations(acc.keys, acc.stats) + w.duration
  {
    WithEntrySums(acc, w.activity);
    BumpDurations(WithEntry(acc, w.activity), w.activity, w.duration);
  }

  /** The per-activity counts add up to `totalWorkouts` and the durations to `totalDuration`. */
  lemma {:induction false} StatsOfTotals(ws: seq<WorkoutEntry>)
    ensures Valid(StatsOf(ws))
    ensures SumCounts(StatsOf(ws).keys, StatsOf(ws).stats) == |ws|
    ensures SumDurations(StatsOf(ws).keys, StatsOf(ws).stats) == TotalDuration(ws)
  {
    if ws != [] {
      var init := ws[..|ws| - 1];
      StatsOfTotals(init);
      RecordValid(StatsOf(init), ws[|ws| - 1]);
      RecordCounts(StatsOf(init), ws[|ws| - 1]);
      RecordDurations(StatsOf(init), ws[|ws| - 1]);
    }
  }

  // ----- The three reports -----

  datatype Reports = Reports(weekly: Report, monthly: Report, yearly: Report)

  /**
   * The week is computed from `now`; the month and the year that contain `now`
   * are given as day intervals, the calendar being outside this model.
   */
  method BuildReports(ws: seq<WorkoutEntry>, now: Day, month: Window, year: Window) returns (r: Reports)
    ensures r.weekly == ReportOf(InWindow(ws, WeekWindow(now)))
    ensures r.monthly == ReportOf(InWindow(ws, month))
    ensures r.yearly == ReportOf(InWindow(ws, year))
  {
    var weekly := CalculateStats(InWindow(ws, WeekWindow(now)));
    var monthly := CalculateStats(InWindow(ws, month));
    var yearly := CalculateStats(InWindow(ws, year));
    r := Reports(weekly, monthly, yearly);
  }
}
