/**
 * The figures of src/components/Analytics.tsx: per-activity duration totals
 * (a secondary activity weighted at 30% of the PRIMARY duration), the bar and
 * pie chart entries, and the summary cards. Totals are kept exactly, in tenths
 * of a minute, so that 0.3 * d is 3 * d tenths.
 */
module Analytics {
  import opened Wrappers
  import opened JsText
  import opened Workouts
  import opened Durations

  /** The key a record's primary duration is added to. */
  function PrimaryName(w: WorkoutEntry): (name: string)
    ensures w.activity != Other ==> name == ActivityLabel(w.activity)
    ensures w.activity == Other && Truthy(w.customActivityName) ==> name == w.customActivityName.value
    ensures w.activity == Other && !Truthy(w.customActivityName) ==> name == "Other"
  {
    if w.activity == Other && Truthy(w.customActivityName) then w.customActivityName.value
    else ActivityLabel(w.activity)
  }

  /** The key the 30% share goes to, when the record has a secondary activity. */
  function SecondaryName(w: WorkoutEntry): (name: Option<string>)
    ensures name.Some? <==> w.secondaryActivity.Some?
    ensures w.secondaryActivity.Some? && w.secondaryActivity.value != Other ==>
      name == Some(ActivityLabel(w.secondaryActivity.value))
    ensures w.secondaryActivity == Some(Other) ==>
      name == Some(if Truthy(w.customSecondaryActivityName) then w.customSecondaryActivityName.value else "Other")
  {
    match w.secondaryActivity
    case None => None
    case Some(a) =>
      Some(if a == Other && Truthy(w.customSecondaryActivityName) then w.customSecondaryActivityName.value
           else ActivityLabel(a))
  }

  /** The accumulator of the reduce: its keys in insertion order and their totals in tenths of a minute. */
  datatype Totals = Totals(keys: seq<string>, tenths: map<string, int>)

  predicate Valid(t: Totals) {
    && (forall i, j :: 0 <= i < j < |t.keys| ==> t.keys[i] != t.keys[j])
    && (forall i :: 0 <= i < |t.keys| ==> t.keys[i] in t.tenths)
    && (forall k :: k in t.tenths ==> k in t.keys)
  }

  /** `acc[name] = (acc[name] || 0) + amount` */
  function Add(t: Totals, name: string, amount: int): Totals
  {
    if name in t.tenths then Totals(t.keys, t.tenths[name := t.tenths[name] + amount])
    else Totals(t.keys + [name], t.tenths[name := amount])
  }

  /** What one record adds: 10·d tenths to its primary name and 3·d tenths to its secondary name. */
  function Step(t: Totals, w: WorkoutEntry): Totals
  {
    var t1 := Add(t, PrimaryName(w), 10 * w.duration);
    match SecondaryName(w)
    case None => t1
    case Some(n) => Add(t1, n, 3 * w.duration)
  }

  /** The value of the reduce over the records. */
  function Distribution(ws: seq<WorkoutEntry>): Totals
  {
    if ws == [] then Totals([], map[]) else Step(Distribution(ws[..|ws| - 1]), ws[|ws| - 1])
  }

  /** `acc[name] = (acc[name] || 0) + amount`, as the update it is. */
  method AddTo(acc: Totals, name: string, amount: int) returns (r: Totals)
    ensures r == Add(acc, name, amount)
  {
    if name in acc.tenths {
      r := acc.(tenths := acc.tenths[name := acc.tenths[name] + amount]);
    } else {
      r := Totals(acc.keys + [name], acc.tenths[name := amount]);
    }
  }

  /** The reduce as the loop it performs, updating the accumulator in place. */
  method WeeklyData(ws: seq<WorkoutEntry>) returns (acc: Totals)
    ensures acc == Distribution(ws)
  {
    acc := Totals([], map[]);
    var i := 0;
    while i < |ws|
      invariant 0 <= i <= |ws|
      invariant acc == Distribution(ws[..i])
    {
      var w := ws[i];
      assert Distribution(ws[..i + 1]) == Step(acc, w) by {
        assert ws[..i + 1][..i] == ws[..i];
      }
      ghost var prev := acc;
      acc := AddTo(acc, PrimaryName(w), 10 * w.duration);
      if w.secondaryActivity.Some? {
        acc := AddTo(acc, SecondaryName(w).value, 3 * w.duration);
      }
      assert acc == Step(prev, w);
      i := i + 1;
    }
    assert ws[..i] == ws;
  }

  // ----- An independent account of the totals -----

  /** The tenths one record contributes to `name`. */
  function Contribution(w: WorkoutEntry, name: string): int
  {
    (if PrimaryName(w) == name then 10 * w.duration else 0)
    + (if SecondaryName(w) == Some(name) then 3 * w.duration else 0)
  }

  function NameTenths(ws: seq<WorkoutEntry>, name: string): int
  {
    if ws == [] then 0 else NameTenths(ws[..|ws| - 1], name) + Contribution(ws[|ws| - 1], name)
  }

  predicate Mentions(w: WorkoutEntry, name: string) {
    PrimaryName(w) == name || SecondaryName(w) == Some(name)
  }

  predicate Mentioned(ws: seq<WorkoutEntry>, name: string) {
    exists i :: 0 <= i < |ws| && Mentions(ws[i], name)
  }

  lemma AddKeepsValid(t: Totals, name: string, amount: int)
    requires Valid(t)
    ensures Valid(Add(t, name, amount))
    ensures t.keys <= Add(t, name, amount).keys
  {
  }

  lemma AddAt(t: Totals, k: string, v: int, name: string)
    ensures name in Add(t, k, v).tenths <==> name in t.tenths || name == k
    ensures name in Add(t, k, v).tenths ==>
      Add(t, k, v).tenths[name] == (if name in t.tenths then t.tenths[name] else 0) + (if name == k then v else 0)
  {
  }

  lemma StepValid(t: Totals, w: WorkoutEntry, name: string)
    requires Valid(t)
    ensures Valid(Step(t, w))
    ensures name in Step(t, w).tenths <==> name in t.tenths || Mentions(w, name)
    ensures name in Step(t, w).tenths ==>
      Step(t, w).tenths[name] == (if name in t.tenths then t.tenths[name] else 0) + Contribution(w, name)
    ensures t.keys <= Step(t, w).keys
  {
    var p := PrimaryName(w);
    var t1 := Add(t, p, 10 * w.duration);
    AddKeepsValid(t, p, 10 * w.duration);
    AddAt(t, p, 10 * w.duration, name);
    var extra := if p == name then 10 * w.duration else 0;
    match SecondaryName(w)
    case None =>
      assert Step(t, w) == t1;
      assert Contribution(w, name) == extra;
    case Some(n) =>
      AddKeepsValid(t1, n, 3 * w.duration);
      AddAt(t1, n, 3 * w.duration, name);
      assert Step(t, w) == Add(t1, n, 3 * w.duration);
      assert Contribution(w, name) == extra + (if n == name then 3 * w.duration else 0);
  }

  /**
   * Every key of the totals is a name some record mentions and conversely, and
   * each key's total is the sum of what the records contribute to it.
   */
  lemma {:induction false} DistributionSpec(ws: seq<WorkoutEntry>, name: string)
    ensures Valid(Distribution(ws))
    ensures name in Distribution(ws).tenths <==> Mentioned(ws, name)
    ensures name in Distribution(ws).tenths ==> Distribution(ws).tenths[name] == NameTenths(ws, name)
  {
    if ws != [] {
      var init := ws[..|ws| - 1];
      var w := ws[|ws| - 1];
      DistributionSpec(init, name);
      StepValid(Distribution(init), w, name);
      if Mentioned(ws, name) && !Mentions(w, name) {
        var i :| 0 <= i < |ws| && Mentions(ws[i], name);
        assert i < |ws| - 1 && init[i] == ws[i];
      }
      if Mentioned(init, name) {
        var i :| 0 <= i < |init| && Mentions(init[i], name);
        assert ws[i] == init[i];
      }
      if name !in Distribution(init).tenths {
        NameTenthsUnmentioned(init, name);
      }
    }
  }

  lemma {:induction false} NameTenthsUnmentioned(ws: seq<WorkoutEntry>, name: string)
    requires !Mentioned(ws, name)
    ensures NameTenths(ws, name) == 0
  {
    if ws != [] {
      var init := ws[..|ws| - 1];
      forall i | 0 <= i < |init| ensures !Mentions(init[i], name) {
        assert init[i] == ws[i];
      }
      assert !Mentions(ws[|ws| - 1], name);
      NameTenthsUnmentioned(init, name);
    }
  }

  /** Keys are never reordered: the keys after a prefix of the records start the keys after all of them. */
  lemma {:induction false} DistributionKeysStable(a: seq<WorkoutEntry>, b: seq<WorkoutEntry>)
    ensures Distribution(a).keys <= Distribution(a + b).keys
  {
    if b != [] {
      assert (a + b)[..|a + b| - 1] == a + b[..|b| - 1];
      DistributionKeysStable(a, b[..|b| - 1]);
      DistributionSpec(a + b[..|b| - 1], "");
      StepValid(Distribution(a + b[..|b| - 1]), b[|b| - 1], "");
    } else {
      assert a + b == a;
    }
  }

  // ----- Sum of all totals -----

  function SumKeys(keys: seq<string>, m: map<string, int>): int
    requires forall i :: 0 <= i < |keys| ==> keys[i] in m
  {
    if keys == [] then 0 else SumKeys(keys[..|keys| - 1], m) + m[keys[|keys| - 1]]
  }

  /** The sum over all keys: `Object.values(weeklyData).reduce(...)`, in tenths. */
  function GrandTenths(t: Totals): int
    requires Valid(t)
  {
    SumKeys(t.keys, t.tenths)
  }

  lemma {:induction false} SumKeysOther(keys: seq<string>, m: map<string, int>, k: string, v: int)
    requires forall i :: 0 <= i < |keys| ==> keys[i] in m
    requires k !in keys
    ensures SumKeys(keys, m[k := v]) == SumKeys(keys, m)
  {
    if keys != [] {
      SumKeysOther(keys[..|keys| - 1], m, k, v);
    }
  }

  lemma {:induction false} SumKeysBump(keys: seq<string>, m: map<string, int>, k: string, v: int)
    requires forall i :: 0 <= i < |keys| ==> keys[i] in m
    requires forall i, j :: 0 <= i < j < |keys| ==> keys[i] != keys[j]
    requires k in keys
    ensures SumKeys(keys, m[k := m[k] + v]) == SumKeys(keys, m) + v
  {
    var init := keys[..|keys| - 1];
    if keys[|keys| - 1] == k {
      assert k !in init;
      SumKeysOther(init, m, k, m[k] + v);
    } else {
      SumKeysBump(init, m, k, v);
    }
  }

  lemma SumKeysAppend(keys: seq<string>, m: map<string, int>, k: string, v: int)
    requires forall i :: 0 <= i < |keys| ==> keys[i] in m
    requires k !in keys
    ensures SumKeys(keys + [k], m[k := v]) == SumKeys(keys, m) + v
  {
    var keys' := keys + [k];
    assert keys'[..|keys'| - 1] == keys;
    SumKeysOther(keys, m, k, v);
  }

  lemma AddTotal(t: Totals, name: string, amount: int)
    requires Valid(t)
    ensures Valid(Add(t, name, amount))
    ensures GrandTenths(Add(t, name, amount)) == GrandTenths(t) + amount
  {
    AddKeepsValid(t, name, amount);
    var r := Add(t, name, amount);
    if name in t.tenths {
      assert r.keys == t.keys && r.tenths == t.tenths[name := t.tenths[name] + amount];
      SumKeysBump(t.keys, t.tenths, name, amount);
    } else {
      assert r.keys == t.keys + [name] && r.tenths == t.tenths[name := amount];
      SumKeysAppend(t.keys, t.tenths, name, amount);
    }
    assert GrandTenths(r) == SumKeys(r.keys, r.tenths);
  }

  /** The sum of the primary durations of the records that have a secondary activity. */
  function SecondaryBase(ws: seq<WorkoutEntry>): int
  {
    if ws == [] then 0
    else SecondaryBase(ws[..|ws| - 1]) + (if ws[|ws| - 1].secondaryActivity.Some? then ws[|ws| - 1].duration else 0)
  }

  /** All totals together: ten tenths per primary minute plus three per minute of a record with a secondary activity. */
  lemma {:induction false} DistributionTotal(ws: seq<WorkoutEntry>)
    ensures Valid(Distribution(ws))
    ensures GrandTenths(Distribution(ws)) == 10 * TotalDuration(ws) + 3 * SecondaryBase(ws)
  {
    if ws == [] {
    } else {
      var init := ws[..|ws| - 1];
      var w := ws[|ws| - 1];
      DistributionTotal(init);
      var t := Distribution(init);
      var t1 := Add(t, PrimaryName(w), 10 * w.duration);
      AddTotal(t, PrimaryName(w), 10 * w.duration);
      if SecondaryName(w).Some? {
        AddTotal(t1, SecondaryName(w).value, 3 * w.duration);
      }
    }
  }

  // ----- Chart entries -----

  /** `Math.round(duration)` of a total held in tenths. */
  function RoundedMinutes(tenths: int): (r: int)
    ensures 10 * r - 5 <= tenths < 10 * r + 5
  {
    RoundDiv(tenths, 10)
  }

  /** Names longer than 12 characters are cut to 12 followed by "...". */
  function ChartLabel(name: string): (shown: string)
    ensures |name| <= 12 ==> shown == name
    ensures |name| > 12 ==> |shown| == 15 && shown[..12] == name[..12] && shown[12..] == "..."
  {
    if |name| > 12 then name[..12] + "..." else name
  }

  /** The chart colour of each enum activity, by its stored string. */
  const ChartColors: map<string, string> := map[
    "Brazilian Jiu-Jitsu" := "#8b5cf6", "Cycling" := "#06b6d4", "Hiking" := "#84cc16",
    "Kickboxing" := "#ef4444", "Resistance" := "#f97316", "Running" := "#22c55e",
    "Swimming" := "#3b82f6", "Other" := "#6b7280"]

  function ChartFill(name: string): string
  {
    if name in ChartColors then ChartColors[name] else "#6b7280"
  }

  /** A custom name, which is no activity's string, is drawn in the grey of "Other". */
  lemma ChartFillCustom(name: string)
    requires forall a :: ActivityLabel(a) != name
    ensures ChartFill(name) == "#6b7280" == ChartFill(ActivityLabel(Other))
  {
    assert ActivityLabel(Cycling) != name && ActivityLabel(Hiking) != name;
    assert ActivityLabel(BrazilianJiuJitsu) != name && ActivityLabel(Kickboxing) != name;
    assert ActivityLabel(Resistance) != name && ActivityLabel(Running) != name && ActivityLabel(Swimming) != name;
    assert ActivityLabel(Other) in ChartColors;
  }

  datatype ChartEntry = ChartEntry(activity: string, fullActivity: string, duration: int,
                                   durationFormatted: string, fill: string)

  datatype PieEntry = PieEntry(name: string, value: int, valueFormatted: string, fill: string)

  function ChartData(t: Totals): (chart: seq<ChartEntry>)
    requires Valid(t)
    ensures |chart| == |t.keys|
  {
    seq(|t.keys|, i requires 0 <= i < |t.keys| =>
      var d := RoundedMinutes(t.tenths[t.keys[i]]);
      ChartEntry(ChartLabel(t.keys[i]), t.keys[i], d, FormatDuration(d), ChartFill(t.keys[i])))
  }

  function PieData(t: Totals): (pie: seq<PieEntry>)
    requires Valid(t)
    ensures |pie| == |t.keys|
  {
    seq(|t.keys|, i requires 0 <= i < |t.keys| =>
      var d := RoundedMinutes(t.tenths[t.keys[i]]);
      PieEntry(t.keys[i], d, FormatDuration(d), ChartFill(t.keys[i])))
  }

  /** One bar per key, in key order, each the nearest whole minute to its total and showing that figure as text. */
  lemma ChartDataSpec(t: Totals, i: nat)
    requires Valid(t) && i < |t.keys|
    ensures ChartData(t)[i].fullActivity == t.keys[i] == PieData(t)[i].name
    ensures ChartData(t)[i].duration == PieData(t)[i].value
    ensures 10 * ChartData(t)[i].duration - 5 <= t.tenths[t.keys[i]] < 10 * ChartData(t)[i].duration + 5
    ensures ChartData(t)[i].duration >= 0 ==>
      ReadDuration(ChartData(t)[i].durationFormatted) == Some(ChartData(t)[i].duration)
    ensures ChartData(t)[i].activity == ChartLabel(t.keys[i])
    ensures |ChartData(t)[i].activity| <= 15
    ensures ChartData(t)[i].fill == PieData(t)[i].fill == ChartFill(t.keys[i])
  {
    var d := ChartData(t)[i].duration;
    if d >= 0 {
      FormatDurationRoundTrip(d);
    }
  }

  // ----- Most active activity -----

  datatype Leader = Leader(activity: string, duration: int)

  /**
   * The reduce over the entries from `{activity: 'None', duration: 0}`: an entry
   * replaces the running leader when its raw total exceeds the leader's stored,
   * already rounded, duration.
   */
  function Scan(keys: seq<string>, tenths: map<string, int>): Leader
    requires forall i :: 0 <= i < |keys| ==> keys[i] in tenths
  {
    if keys == [] then Leader("None", 0)
    else
      var m := Scan(keys[..|keys| - 1], tenths);
      var k := keys[|keys| - 1];
      if tenths[k] > 10 * m.duration then Leader(k, RoundedMinutes(tenths[k])) else m
  }

  method MostActiveActivity(t: Totals) returns (max: Leader)
    requires Valid(t)
    ensures max == Scan(t.keys, t.tenths)
  {
    max := Leader("None", 0);
    var i := 0;
    while i < |t.keys|
      invariant 0 <= i <= |t.keys|
      invariant max == Scan(t.keys[..i], t.tenths)
    {
      ScanStep(t.keys, t.tenths, i);
      var duration := t.tenths[t.keys[i]];
      if duration > 10 * max.duration {
        max := Leader(t.keys[i], RoundedMinutes(duration));
      }
      i := i + 1;
    }
    assert t.keys[..i] == t.keys;
  }

  /** One more name extends the scan by one comparison. */
  lemma ScanStep(keys: seq<string>, tenths: map<string, int>, i: nat)
    requires forall j :: 0 <= j < |keys| ==> keys[j] in tenths
    requires i < |keys|
    ensures var m := Scan(keys[..i], tenths);
      Scan(keys[..i + 1], tenths)
        == if tenths[keys[i]] > 10 * m.duration then Leader(keys[i], RoundedMinutes(tenths[keys[i]])) else m
  {
    assert keys[..i + 1][..i] == keys[..i];
  }

  /** The largest rounded total, or 0 when there is none above 0. */
  function MaxRounded(keys: seq<string>, tenths: map<string, int>): int
    requires forall i :: 0 <= i < |keys| ==> keys[i] in tenths
  {
    if keys == [] then 0
    else
      var m := MaxRounded(keys[..|keys| - 1], tenths);
      var r := RoundedMinutes(tenths[keys[|keys| - 1]]);
      if r > m then r else m
  }

  /**
   * The duration shown for the most active activity is the largest rounded total
   * (0 if none is positive), and the leader is the initial "None"/0 or a key
   * whose rounded total is that duration.
   */
  lemma {:induction false} ScanSpec(keys: seq<string>, tenths: map<string, int>)
    requires forall i :: 0 <= i < |keys| ==> keys[i] in tenths
    ensures Scan(keys, tenths).duration == MaxRounded(keys, tenths)
    ensures Scan(keys, tenths) == Leader("None", 0)
         || (Scan(keys, tenths).activity in keys
             && RoundedMinutes(tenths[Scan(keys, tenths).activity]) == Scan(keys, tenths).duration)
    ensures forall i :: 0 <= i < |keys| ==> RoundedMinutes(tenths[keys[i]]) <= Scan(keys, tenths).duration
    ensures (forall i :: 0 <= i < |keys| ==> tenths[keys[i]] <= 0) ==> Scan(keys, tenths) == Leader("None", 0)
    ensures (exists i :: 0 <= i < |keys| && tenths[keys[i]] > 0) ==> Scan(keys, tenths).activity in keys
  {
    if keys != [] {
      var init := keys[..|keys| - 1];
      ScanSpec(init, tenths);
      var m := Scan(init, tenths);
      assert m.duration >= 0;
      forall i | 0 <= i < |keys| - 1 ensures keys[i] == init[i] {}
      if exists i :: 0 <= i < |keys| && tenths[keys[i]] > 0 {
        var i :| 0 <= i < |keys| && tenths[keys[i]] > 0;
        if i < |keys| - 1 {
          assert init[i] == keys[i];
        }
      }
    }
  }

  /** Every rounded total at most `bound` (and `bound` at least 0) bounds `MaxRounded`. */
  lemma {:induction false} MaxRoundedAtMost(keys: seq<string>, tenths: map<string, int>, bound: int)
    requires forall i :: 0 <= i < |keys| ==> keys[i] in tenths
    requires bound >= 0
    requires forall i :: 0 <= i < |keys| ==> RoundedMinutes(tenths[keys[i]]) <= bound
    ensures MaxRounded(keys, tenths) <= bound
  {
    if keys != [] {
      MaxRoundedAtMost(keys[..|keys| - 1], tenths, bound);
    }
  }

  /** Key `i` holds a maximal total and every earlier key a strictly smaller one. */
  predicate FirstMaximum(keys: seq<string>, tenths: map<string, int>, i: int)
    requires forall j :: 0 <= j < |keys| ==> keys[j] in tenths
  {
    && 0 <= i < |keys|
    && (forall j :: 0 <= j < |keys| ==> tenths[keys[j]] <= tenths[keys[i]])
    && (forall j :: 0 <= j < i ==> tenths[keys[j]] < tenths[keys[i]])
  }

  /**
   * When every total is a whole number of minutes (no record has a secondary
   * activity, for one), the leader is the first key with the largest positive total.
   */
  lemma {:induction false} ScanWholeMinutes(keys: seq<string>, tenths: map<string, int>, i: int)
    requires forall j :: 0 <= j < |keys| ==> keys[j] in tenths
    requires forall j :: 0 <= j < |keys| ==> tenths[keys[j]] % 10 == 0
    requires FirstMaximum(keys, tenths, i) && tenths[keys[i]] > 0
    ensures Scan(keys, tenths) == Leader(keys[i], tenths[keys[i]] / 10)
  {
    var init := keys[..|keys| - 1];
    var last := keys[|keys| - 1];
    assert forall j :: 0 <= j < |init| ==> init[j] == keys[j];
    if i < |keys| - 1 {
      assert FirstMaximum(init, tenths, i);
      ScanWholeMinutes(init, tenths, i);
    } else {
      var top := tenths[keys[i]];
      forall j | 0 <= j < |init| ensures RoundedMinutes(tenths[init[j]]) <= top / 10 - 1 {
        assert tenths[init[j]] % 10 == 0 && tenths[init[j]] < top;
      }
      MaxRoundedAtMost(init, tenths, top / 10 - 1);
      ScanSpec(init, tenths);
    }
  }

  /**
   * As written, the rounded comparison can crown a smaller total: with 10.4
   * minutes recorded first and 10.3 minutes second, the second replaces the
   * first, because 10.3 exceeds the stored rounded 10.
   */
  lemma ScanCanPreferSmallerTotal()
    ensures Scan(["Swimming", "Cycling"], map["Swimming" := 104, "Cycling" := 103]) == Leader("Cycling", 10)
  {
    var keys := ["Swimming", "Cycling"];
    var m := map["Swimming" := 104, "Cycling" := 103];
    assert keys[..1] == ["Swimming"];
    assert keys[..1][..0] == [];
  }
  /** A tie at a total whose fraction is below one half lets the later name win. */
  lemma ScanLaterTieWins()
    ensures Scan(["Swimming", "Cycling"], map["Swimming" := 103, "Cycling" := 103]) == Leader("Cycling", 10)
  {
    var keys := ["Swimming", "Cycling"];
    assert keys[..1] == ["Swimming"];
    assert keys[..1][..0] == [];
  }

  /** A tie at a total whose fraction is one half or more keeps the first name. */
  lemma ScanHalfTieKeepsFirst()
    ensures Scan(["Swimming", "Cycling"], map["Swimming" := 105, "Cycling" := 105]) == Leader("Swimming", 11)
  {
    var keys := ["Swimming", "Cycling"];
    assert keys[..1] == ["Swimming"];
    assert keys[..1][..0] == [];
  }


  // ----- The memoised analytics object -----

  datatype AnalyticsView = AnalyticsView(
    weeklyChartData: seq<ChartEntry>,
    pieData: seq<PieEntry>,
    totalWorkouts: nat,
    totalDuration: int,
    averageDuration: int,
    mostActiveActivity: Leader)

  method AnalyticsData(ws: seq<WorkoutEntry>) returns (v: AnalyticsView)
    ensures v.totalWorkouts == |ws| && v.totalDuration == TotalDuration(ws)
    ensures v.averageDuration == AverageDuration(ws)
    ensures Valid(Distribution(ws))
    ensures v.weeklyChartData == ChartData(Distribution(ws)) && v.pieData == PieData(Distribution(ws))
    ensures v.mostActiveActivity == Scan(Distribution(ws).keys, Distribution(ws).tenths)
    ensures v.mostActiveActivity.duration == MaxRounded(Distribution(ws).keys, Distribution(ws).tenths)
  {
    var weeklyData := WeeklyData(ws);
    DistributionSpec(ws, "");
    var leader := MostActiveActivity(weeklyData);
    ScanSpec(weeklyData.keys, weeklyData.tenths);
    v := AnalyticsView(ChartData(weeklyData), PieData(weeklyData), |ws|, TotalDuration(ws),
                       AverageDuration(ws), leader);
  }
}
