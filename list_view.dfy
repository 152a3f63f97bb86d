/**
 * The day list of src/components/calendar/ListView.tsx: one row per day of
 * the month (no week padding), each with a count line and one line per
 * workout.
 */
module ListView {
  import opened Wrappers
  import opened JsText
  import opened Workouts
  import opened Calendar
  import Analytics

  /** `eachDayOfInterval({ start: startOfMonth, end: endOfMonth })` */
  function ListDays(m: Month): (days: seq<Day>)
    requires ValidMonth(m)
    ensures 28 <= |days| <= 31
    ensures days[0] == m.first && days[|days| - 1] == m.last
    ensures forall d :: d in days <==> InMonth(m, d)
    ensures forall i :: 0 <= i < |days| - 1 ==> days[i + 1] == days[i] + 1
  {
    var days := DaysFrom(m.first, m.last);
    assert forall d :: InMonth(m, d) ==> days[d - m.first] == d;
    days
  }

  /** The list shows the same days as the grid's current-month cells, without the padding weeks. */
  lemma ListDaysAreMonthCells(m: Month)
    requires ValidMonth(m)
    ensures ListDays(m) == AddButtonDays(m)
    ensures |ListDays(m)| <= |MonthGrid(m)|
  {
    CurrentMonthCells(m);
    MonthGridShape(m);
  }

  /** "No workouts", or "{n} workout" with an "s" unless n is 1. */
  function CountText(n: nat): (text: string)
    ensures |text| > 0
    ensures n == 0 <==> text == "No workouts"
    ensures n > 0 ==> |text| == |NatToString(n)| + 8 + (if n != 1 then 1 else 0)
    ensures n > 0 ==> text[..|NatToString(n)|] == NatToString(n)
    ensures n > 0 ==> text[|NatToString(n)|..|NatToString(n)| + 8] == " workout"
    ensures n > 0 ==> (text[|text| - 1] == 's' <==> n != 1)
  {
    if n == 0 then "No workouts"
    else
      var digits := NatToString(n);
      var text := digits + " workout" + (if n != 1 then "s" else "");
      assert text[0] == digits[0] && IsDigit(text[0]);
      assert text[..|digits|] == digits;
      assert text[|digits|..|digits| + 8] == " workout";
      text
  }

  /** The count line of a day with workouts starts with their number. */
  lemma CountTextReadsBack(n: nat)
    requires n > 0
    ensures ParseInt(CountText(n)) == Int(n)
  {
    var rest := " workout" + (if n != 1 then "s" else "");
    assert CountText(n) == NatToString(n) + rest;
    assert IntToString(n) == NatToString(n);
    ParseIntToString(n, rest);
  }

  /** What React draws for an optional string child: the text, or nothing. */
  function Shown(s: Option<string>): string
  {
    if s.Some? then s.value else ""
  }

  /** What a template literal writes for an optional value: the text, or "undefined". */
  function Interpolated(s: Option<string>): string
  {
    if s.Some? then s.value else "undefined"
  }

  /**
   * The name line: the name the analytics totals use, except that an unnamed
   * "Other" is blank here where the charts fall back to "Other".
   */
  function NameText(w: WorkoutEntry): (text: string)
    ensures Truthy(w.customActivityName) || w.activity != Other ==> text == Analytics.PrimaryName(w)
    ensures w.activity == Other && !Truthy(w.customActivityName) ==>
      text == "" && Analytics.PrimaryName(w) == "Other"
  {
    if w.activity == Other then Shown(w.customActivityName) else ActivityLabel(w.activity)
  }

  /**
   * The secondary name in the detail line: the name the analytics totals use,
   * except that "Other" without a custom name prints "undefined" here, and with
   * an empty one prints nothing, where the charts fall back to "Other".
   */
  function SecondaryShown(w: WorkoutEntry): (name: string)
    requires w.secondaryActivity.Some?
    ensures Truthy(w.customSecondaryActivityName) || w.secondaryActivity.value != Other ==>
      Analytics.SecondaryName(w) == Some(name)
    ensures w.secondaryActivity.value == Other && w.customSecondaryActivityName.None? ==>
      name == "undefined" && Analytics.SecondaryName(w) == Some("Other")
    ensures w.secondaryActivity.value == Other && w.customSecondaryActivityName == Some("") ==>
      name == "" && Analytics.SecondaryName(w) == Some("Other")
  {
    if w.secondaryActivity.value == Other then Interpolated(w.customSecondaryActivityName)
    else ActivityLabel(w.secondaryActivity.value)
  }

  function NumberText(n: Option<int>): string
  {
    if n.Some? then IntToString(n.value) else "undefined"
  }

  /**
   * ` + {secondaryDuration}min {name}`, present exactly when there is a
   * secondary activity: after the " + " it reads back to the secondary
   * duration, and it ends with "min " and the secondary name.
   */
  function SecondaryText(w: WorkoutEntry): (text: string)
    ensures text == "" <==> w.secondaryActivity.None?
    ensures w.secondaryActivity.Some? ==> " + " <= text
    ensures w.secondaryActivity.Some? && w.secondaryDuration.Some? ==>
      ParseInt(text[3..]) == Int(w.secondaryDuration.value)
    ensures w.secondaryActivity.Some? ==>
      var tail := "min " + SecondaryShown(w);
      |text| >= 3 + |tail| && text[|text| - |tail|..] == tail
  {
    if w.secondaryActivity.Some? then
      var number := NumberText(w.secondaryDuration);
      var tail := "min " + SecondaryShown(w);
      var text := " + " + number + tail;
      PrefixedText(number, tail);
      if w.secondaryDuration.Some? then
        assert ParseInt(number + tail) == Int(w.secondaryDuration.value) by {
          ParseIntToString(w.secondaryDuration.value, tail);
        }
        text
      else
        text
    else ""
  }

  /** The parts of ` + {number}{tail}` are found at their places. */
  lemma PrefixedText(number: string, tail: string)
    ensures (" + " + number + tail)[3..] == number + tail
    ensures |" + " + number + tail| >= 3 + |tail|
    ensures (" + " + number + tail)[|" + " + number + tail| - |tail|..] == tail
  {
  }

  /** Unset fields inside the template show up as the text "undefined". */
  lemma SecondaryUndefined(w: WorkoutEntry)
    requires w.secondaryActivity == Some(Other) && w.secondaryDuration == None && w.customSecondaryActivityName == None
    ensures SecondaryText(w) == " + undefinedmin undefined"
  {
  }

  /** The detail line: "{duration} minutes" followed by the secondary text. */
  function DetailText(w: WorkoutEntry): (text: string)
    ensures IntToString(w.duration) <= text
    ensures w.secondaryActivity.None? ==> text == IntToString(w.duration) + " minutes"
  {
    IntToString(w.duration) + " minutes" + SecondaryText(w)
  }

  /** The detail line reads back to the primary duration. */
  lemma DetailTextReadsBack(w: WorkoutEntry)
    ensures ParseInt(DetailText(w)) == Int(w.duration)
  {
    var rest := " minutes" + SecondaryText(w);
    assert DetailText(w) == IntToString(w.duration) + rest;
    ParseIntToString(w.duration, rest);
  }
}
