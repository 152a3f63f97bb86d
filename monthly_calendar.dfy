/**
 * The cells of src/components/calendar/MonthlyCalendar.tsx: each day of the
 * Monday-start grid shows at most three workout indicators, an overflow
 * line for the rest, and an add button when the day is in the current month.
 */
module MonthlyCalendar {
  import opened Wrappers
  import opened JsText
  import opened Workouts
  import opened Calendar

  /** `dayWorkouts.slice(0, 3)`: the indicators drawn in a cell. */
  function Indicators(dayWorkouts: seq<WorkoutEntry>): (shown: seq<WorkoutEntry>)
    ensures |shown| == if |dayWorkouts| < 3 then |dayWorkouts| else 3
    ensures shown <= dayWorkouts
  {
    if |dayWorkouts| <= 3 then dayWorkouts else dayWorkouts[..3]
  }

  /** The overflow line `+{dayWorkouts.length - 3} more`, when there are more than three. */
  function MoreText(dayWorkouts: seq<WorkoutEntry>): (text: Option<string>)
    ensures text.Some? <==> |dayWorkouts| > 3
  {
    if |dayWorkouts| > 3 then Some("+" + NatToString(|dayWorkouts| - 3) + " more") else None
  }

  /** The number on the overflow line, as `parseInt` reads it back, or 0 without one. */
  function Hidden(dayWorkouts: seq<WorkoutEntry>): ParsedInt
  {
    match MoreText(dayWorkouts)
    case None => Int(0)
    case Some(text) => ParseInt(text)
  }

  /** Drawn indicators plus the overflow number account for every workout of the day. */
  lemma IndicatorsAccountForAll(dayWorkouts: seq<WorkoutEntry>)
    ensures Hidden(dayWorkouts).Int?
    ensures |Indicators(dayWorkouts)| + Hidden(dayWorkouts).value == |dayWorkouts|
  {
    if |dayWorkouts| > 3 {
      ParseIntPlus(|dayWorkouts| - 3, " more");
    }
  }

  /** The first three workouts of a day in list order are the ones drawn. */
  lemma IndicatorsAreFirst(ws: seq<WorkoutEntry>, d: Day, i: int)
    requires 0 <= i < |Indicators(WorkoutsOn(ws, d))|
    ensures Indicators(WorkoutsOn(ws, d))[i] == WorkoutsOn(ws, d)[i]
    ensures i < 3
  {
  }

  /**
   * The indicator's text: the first three characters of the activity, or of
   * `customActivityName` for "Other" (undefined, drawn as nothing, when unset).
   */
  function IndicatorText(w: WorkoutEntry): (text: Option<string>)
    ensures w.activity != Other ==> text.Some? && |text.value| == 3 && text.value <= ActivityLabel(w.activity)
    ensures w.activity == Other ==> (text.Some? <==> w.customActivityName.Some?)
    ensures w.activity == Other && text.Some? ==>
      text.value <= w.customActivityName.value
      && |text.value| == (if |w.customActivityName.value| < 3 then |w.customActivityName.value| else 3)
  {
    if w.activity == Other then
      match w.customActivityName
      case None => None
      case Some(name) => Some(Take(name, 3))
    else Some(Take(ActivityLabel(w.activity), 3))
  }

  /** Unlike the chart names, an "Other" indicator never falls back to the text "Oth". */
  lemma OtherHasNoFallback(w: WorkoutEntry)
    requires w.activity == Other
    requires w.customActivityName == None || w.customActivityName == Some("")
    ensures IndicatorText(w) == None || IndicatorText(w) == Some("")
  {
  }

  /** The dot colour of an indicator. */
  function IndicatorColor(w: WorkoutEntry): (color: string)
    ensures ActivityLabel(w.activity) in ActivityColors && color == ActivityColors[ActivityLabel(w.activity)]
  {
    ActivityColorTotal(ActivityLabel(w.activity));
    ActivityColor(ActivityLabel(w.activity))
  }
}
