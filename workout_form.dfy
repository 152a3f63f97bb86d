/**
 * The add-workout form of src/components/WorkoutForm.tsx. It is written
 * against an older revision of the record type (five activities, a `notes`
 * field), so it has its own activity and payload types here.
 */
module WorkoutForm {
  import opened Wrappers
  import opened JsText
  import Workouts

  /** The activities the form's select offers. */
  datatype FormActivity = BJJ | Kickboxing | Swimming | Running | Resistance

  /** What `onSubmit` receives; `handleSubmit` itself does not rule out a `duration` of NaN. */
  datatype FormPayload = FormPayload(
    activity: FormActivity,
    duration: ParsedInt,
    exerciseType: Option<Workouts.Split>,
    notes: Option<string>)

  /** The four `useState` fields; the empty selection `''` is None. */
  class FormState {
    var activity: Option<FormActivity>
    var duration: string
    var exerciseType: Option<Workouts.Split>
    var notes: string

    /** The exercise-type select is only rendered, and so only set, for Resistance. */
    ghost predicate Valid()
      reads this
    {
      exerciseType.Some? ==> activity == Some(Resistance)
    }

    constructor ()
      ensures activity == None && duration == "" && exerciseType == None && notes == ""
      ensures Valid()
    {
      activity := None;
      duration := "";
      exerciseType := None;
      notes := "";
    }

    /** The activity select: any activity but Resistance clears the exercise type. */
    method SelectActivity(a: FormActivity)
      requires Valid()
      modifies this
      ensures activity == Some(a)
      ensures exerciseType == if a == Resistance then old(exerciseType) else None
      ensures duration == old(duration) && notes == old(notes)
      ensures Valid()
    {
      activity := Some(a);
      if a != Resistance {
        exerciseType := None;
      }
    }

    method SelectExerciseType(s: Workouts.Split)
      requires Valid() && activity == Some(Resistance)
      modifies this
      ensures exerciseType == Some(s)
      ensures activity == old(activity) && duration == old(duration) && notes == old(notes)
      ensures Valid()
    {
      exerciseType := Some(s);
    }

    method SetDuration(text: string)
      requires Valid()
      modifies this
      ensures duration == text
      ensures activity == old(activity) && exerciseType == old(exerciseType) && notes == old(notes)
      ensures Valid()
    {
      duration := text;
    }

    method SetNotes(text: string)
      requires Valid()
      modifies this
      ensures notes == text
      ensures activity == old(activity) && exerciseType == old(exerciseType) && duration == old(duration)
      ensures Valid()
    {
      notes := text;
    }

    /** The submit button is enabled (the negation of its `disabled` expression). */
    predicate SubmitEnabled()
      reads this
    {
      !(activity.None? || duration == "" || (activity == Some(Resistance) && exerciseType.None?))
    }

    /** What `handleSubmit` passes to `onSubmit`, or None when it passes nothing. */
    function Submission(): (p: Option<FormPayload>)
      reads this
      ensures p.Some? <==> activity.Some? && duration != ""
      ensures p.Some? ==> p.value.activity == activity.value && p.value.duration == ParseInt(duration)
      ensures p.Some? ==> (p.value.exerciseType.Some? <==> activity == Some(Resistance) && exerciseType.Some?)
      ensures p.Some? && p.value.exerciseType.Some? ==> p.value.exerciseType == exerciseType
      ensures p.Some? ==> (p.value.notes.None? <==> notes == "")
      ensures p.Some? && p.value.notes.Some? ==> p.value.notes.value == notes
    {
      if activity.Some? && duration != "" then
        Some(FormPayload(
          activity.value,
          ParseInt(duration),
          if activity == Some(Resistance) && exerciseType.Some? then exerciseType else None,
          if notes != "" then Some(notes) else None))
      else None
    }
  }

  /** An enabled button always leads to a submission... */
  lemma EnabledSubmits(f: FormState)
    ensures f.SubmitEnabled() ==> f.Submission().Some?
    ensures f.Submission().None? ==> !f.SubmitEnabled()
  {
  }

  /**
   * ...but not the other way round: the disabled button is the only guard on
   * the exercise type. `handleSubmit` itself does not re-check it, so the
   * handler, called on a Resistance form without one, passes the workout on
   * without an exercise type.
   */
  lemma SubmitWithoutExerciseType(f: FormState)
    requires f.activity == Some(Resistance) && f.duration != "" && f.exerciseType == None
    ensures !f.SubmitEnabled()
    ensures f.Submission().Some? && f.Submission().value.exerciseType == None
  {
  }

  /** Under the form's invariant the payload carries the selected exercise type unchanged. */
  lemma PayloadExerciseType(f: FormState)
    requires f.Valid()
    ensures f.Submission().Some? ==> f.Submission().value.exerciseType == f.exerciseType
  {
  }

  /** Typing the decimal text of a whole number, optionally preceded by blanks, submits that number. */
  lemma DurationReadBack(f: FormState, n: nat, blanks: nat)
    requires f.activity.Some?
    requires f.duration == seq(blanks, _ => ' ') + NatToString(n)
    ensures f.Submission().Some? && f.Submission().value.duration == Int(n)
  {
    var digits := NatToString(n);
    assert IsDigit(digits[0]);
    ParsePadded(seq(blanks, _ => ' '), digits);
    ParseIntNat(n);
  }

  /** `parseInt` skips the blanks in front of the text it reads. */
  lemma ParsePadded(pad: string, t: string)
    requires forall i :: 0 <= i < |pad| ==> pad[i] == ' '
    requires t == [] || !IsSpace(t[0])
    ensures ParseInt(pad + t) == ParseInt(t)
  {
    TrimPadding(pad, t);
    TrimStartNoSpace(t);
    ParseIntAfterTrim(pad + t, t);
  }

  /** `parseInt` only sees the text after its leading white space. */
  lemma ParseIntAfterTrim(s: string, t: string)
    requires TrimStart(s) == TrimStart(t)
    ensures ParseInt(s) == ParseInt(t)
  {
  }

  lemma {:induction false} TrimPadding(pad: string, s: string)
    requires forall i :: 0 <= i < |pad| ==> pad[i] == ' '
    ensures TrimStart(pad + s) == TrimStart(s)
  {
    if pad != [] {
      assert (pad + s)[0] == ' ' && IsSpace((pad + s)[0]);
      assert (pad + s)[1..] == pad[1..] + s;
      assert TrimStart(pad + s) == TrimStart(pad[1..] + s);
      TrimPadding(pad[1..], s);
    } else {
      assert pad + s == s;
    }
  }

  /**
   * `handleSubmit` itself checks only that the duration text is non-empty:
   * given text with no leading digit, it passes on NaN. (The number input's
   * own value cleaning, which normally keeps such text out, is not modelled.)
   */
  lemma NonNumericDuration(f: FormState)
    requires f.activity.Some? && f.duration != ""
    requires !IsSpace(f.duration[0]) && !IsDigit(f.duration[0]) && f.duration[0] != '-' && f.duration[0] != '+'
    ensures f.Submission().Some? && f.Submission().value.duration == NaN
  {
    TrimStartNoSpace(f.duration);
  }
}
