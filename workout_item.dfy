/**
 * The labels of one workout card in src/components/calendar/WorkoutItem.tsx:
 * the primary and secondary activity lines and the duration line.
 */
module WorkoutItem {
  import opened Wrappers
  import opened JsText
  import opened Workouts
  import Analytics

  /**
   * The name a label starts with: the activity itself, or, for "Other" only,
   * the record's own custom name, never an empty one.
   */
  function BaseName(activity: string, customName: Option<string>): (name: string)
    ensures name == activity || (activity == "Other" && customName == Some(name) && name != "")
  {
    if activity == "Other" && Truthy(customName) then customName.value else activity
  }

  /** A card names both of a record's activities exactly as the analytics totals do. */
  lemma BaseNameIsChartName(w: WorkoutEntry)
    ensures BaseName(ActivityLabel(w.activity), w.customActivityName) == Analytics.PrimaryName(w)
    ensures w.secondaryActivity.Some? ==>
      Some(BaseName(ActivityLabel(w.secondaryActivity.value), w.customSecondaryActivityName))
        == Analytics.SecondaryName(w)
  {
    ActivityLabelInjective(w.activity, Other);
    if w.secondaryActivity.Some? {
      ActivityLabelInjective(w.secondaryActivity.value, Other);
    }
  }

  /**
   * `formatActivityDisplay`: the base name, then " - " and the exercise type
   * when it is set, otherwise " - " and the split when that is set.
   */
  function FormatActivityDisplay(activity: string, customName: Option<string>,
                                 exerciseType: Option<string>, pplSplit: Option<string>): (text: string)
    ensures BaseName(activity, customName) <= text
    ensures Truthy(exerciseType) ==> text[|BaseName(activity, customName)|..] == " - " + exerciseType.value
    ensures !Truthy(exerciseType) && Truthy(pplSplit) ==>
      text[|BaseName(activity, customName)|..] == " - " + pplSplit.value
    ensures !Truthy(exerciseType) && !Truthy(pplSplit) ==> text == BaseName(activity, customName)
  {
    var base := BaseName(activity, customName);
    if Truthy(exerciseType) then base + " - " + exerciseType.value
    else if Truthy(pplSplit) then base + " - " + pplSplit.value
    else base
  }

  /** The exercise type takes precedence: once it is set, the split plays no part. */
  lemma ExerciseTypeFirst(activity: string, customName: Option<string>, e: string, p: Option<string>)
    requires e != ""
    ensures FormatActivityDisplay(activity, customName, Some(e), p)
         == FormatActivityDisplay(activity, customName, Some(e), None)
  {
  }

  function SplitName(s: Option<Split>): Option<string>
  {
    match s
    case None => None
    case Some(x) => Some(SplitLabel(x))
  }

  /** The first line: built with the exercise type and without the split. */
  function PrimaryLabel(w: WorkoutEntry): (text: string)
    ensures BaseName(ActivityLabel(w.activity), w.customActivityName) <= text
  {
    FormatActivityDisplay(ActivityLabel(w.activity), w.customActivityName, SplitName(w.exerciseType), None)
  }

  /** The "+" line: present iff there is a secondary activity, built with the split and without the exercise type. */
  function SecondaryLabel(w: WorkoutEntry): (text: Option<string>)
    ensures text.Some? <==> w.secondaryActivity.Some?
    ensures text.Some? ==> BaseName(ActivityLabel(w.secondaryActivity.value), w.customSecondaryActivityName) <= text.value
  {
    match w.secondaryActivity
    case None => None
    case Some(a) =>
      Some(FormatActivityDisplay(ActivityLabel(a), w.customSecondaryActivityName, None, SplitName(w.pplSplit)))
  }

  /** Each line shows only its own subtype: the primary line ignores the split... */
  lemma PrimaryIgnoresSplit(w: WorkoutEntry, s: Option<Split>)
    ensures PrimaryLabel(w.(pplSplit := s)) == PrimaryLabel(w)
    ensures PrimaryLabel(w.(secondaryActivity := None)) == PrimaryLabel(w)
  {
  }

  /** ...and the secondary line ignores the exercise type. */
  lemma SecondaryIgnoresExerciseType(w: WorkoutEntry, e: Option<Split>)
    ensures SecondaryLabel(w.(exerciseType := e)) == SecondaryLabel(w)
  {
  }

  /** With an exercise type, the primary line ends in " - " and its name. */
  lemma PrimaryShowsExerciseType(w: WorkoutEntry)
    requires w.exerciseType.Some?
    ensures PrimaryLabel(w) == BaseName(ActivityLabel(w.activity), w.customActivityName)
                               + " - " + SplitLabel(w.exerciseType.value)
  {
  }

  /** A number in a condition: truthy unless zero (durations are never NaN here). */
  predicate TruthyNumber(n: Option<int>) {
    n.Some? && n.value != 0
  }

  /**
   * `formatDurationDisplay`: `parseInt` of the text gives back the primary
   * duration; a "+" appears exactly when the secondary duration is truthy, and
   * the text after it gives back the secondary duration; otherwise only "min"
   * follows the number.
   */
  function FormatDurationDisplay(duration: int, secondaryDuration: Option<int>): (text: string)
    ensures ParseInt(text) == Int(duration)
    ensures |IntToString(duration)| < |text|
    ensures TruthyNumber(secondaryDuration) <==> '+' in text
    ensures TruthyNumber(secondaryDuration) ==>
      && text[|IntToString(duration)|] == '+'
      && ParseInt(text[|IntToString(duration)| + 1..]) == Int(secondaryDuration.value)
    ensures !TruthyNumber(secondaryDuration) ==> text[|IntToString(duration)|..] == "min"
    ensures |text| >= 3 && text[|text| - 3..] == "min"
  {
    if TruthyNumber(secondaryDuration) then TwoNumberDisplay(duration, secondaryDuration.value)
    else OneNumberDisplay(duration)
  }

  /** `${duration}+${secondaryDuration}min` */
  function TwoNumberDisplay(duration: int, second: int): (text: string)
    ensures ParseInt(text) == Int(duration)
    ensures |IntToString(duration)| < |text|
    ensures '+' in text && text[|IntToString(duration)|] == '+'
    ensures ParseInt(text[|IntToString(duration)| + 1..]) == Int(second)
    ensures |text| >= 3 && text[|text| - 3..] == "min"
  {
    var number := IntToString(duration);
    var second' := IntToString(second);
    assert '+' !in number by { NoPlusInIntToString(duration); }
    assert '+' !in second' by { NoPlusInIntToString(second); }
    var rest := "+" + second' + "min";
    assert ParseInt(number + rest) == Int(duration) by { ParseIntToString(duration, rest); }
    assert ParseInt(second' + "min") == Int(second) by { ParseIntToString(second, "min"); }
    TwoNumberText(number, second');
    number + rest
  }

  /** `${duration}min` */
  function OneNumberDisplay(duration: int): (text: string)
    ensures ParseInt(text) == Int(duration)
    ensures |IntToString(duration)| < |text|
    ensures '+' !in text
    ensures text[|IntToString(duration)|..] == "min"
    ensures |text| >= 3 && text[|text| - 3..] == "min"
  {
    var number := IntToString(duration);
    assert '+' !in number by { NoPlusInIntToString(duration); }
    assert ParseInt(number + "min") == Int(duration) by { ParseIntToString(duration, "min"); }
    OneNumberText(number);
    number + "min"
  }

  lemma TwoNumberText(number: string, second: string)
    requires '+' !in number && '+' !in second
    ensures var text := number + ("+" + second + "min");
      && text[|number|] == '+' && '+' in text
      && text[|number| + 1..] == second + "min"
      && text[|text| - 3..] == "min"
  {
    var text := number + ("+" + second + "min");
    assert text[|number|] == '+';
    assert text[|number| + 1..] == second + "min";
    assert text[|text| - 3..] == "min";
  }

  lemma OneNumberText(number: string)
    requires '+' !in number
    ensures '+' !in number + "min"
    ensures (number + "min")[|number|..] == "min"
    ensures (number + "min")[|number + "min"| - 3..] == "min"
  {
    assert "min"[0] != '+' && "min"[1] != '+' && "min"[2] != '+';
  }

  /** A secondary duration of 0 prints exactly as an absent one. */
  lemma ZeroSecondaryHidden(d: int)
    ensures FormatDurationDisplay(d, Some(0)) == FormatDurationDisplay(d, None) == IntToString(d) + "min"
  {
  }
}
