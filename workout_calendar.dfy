/**
 * The month view of src/components/WorkoutCalendar.tsx: the day grid that
 * its `while` loop builds, and the `selectedDate` / `showForm` state through
 * which a form submission becomes a new workout. Its form is the older one
 * of WorkoutForm.tsx.
 */
module WorkoutCalendar {
  import opened Wrappers
  import opened Workouts
  import opened Calendar
  import Form = WorkoutForm

  /** The grid loop: push `day` and step one day until past the Sunday after the month. */
  method CalendarDays(m: Month) returns (days: seq<Day>)
    ensures days == MonthGrid(m)
  {
    var startDate := StartOfWeek(m.first);
    var endDate := EndOfWeek(m.last);
    days := [];
    var day := startDate;
    while day <= endDate
      invariant startDate <= day
      invariant day <= if startDate <= endDate then endDate + 1 else startDate
      invariant days == DaysFrom(startDate, day - 1)
      decreases endDate - day
    {
      DaysFromSplit(startDate, day, day);
      days := days + [day];
      day := day + 1;
    }
    assert DaysFrom(startDate, day - 1) == DaysFrom(startDate, endDate);
  }

  /** What `onAddWorkout` receives: the form's fields plus the selected day. */
  datatype Submitted = Submitted(data: Form.FormPayload, date: Day)

  class CalendarState {
    var selectedDate: Option<Day>
    var showForm: bool

    /** The form is shown exactly while a day is selected. */
    ghost predicate Valid()
      reads this
    {
      showForm <==> selectedDate.Some?
    }

    constructor ()
      ensures selectedDate == None && !showForm
      ensures Valid()
    {
      selectedDate := None;
      showForm := false;
    }

    /** The add button of a cell: select its day and open the form. */
    method HandleAddWorkout(d: Day)
      modifies this
      ensures selectedDate == Some(d) && showForm
      ensures Valid()
    {
      selectedDate := Some(d);
      showForm := true;
    }

    /**
     * With a selected day the form's data is passed on once, dated that day,
     * and the form closes; without one nothing is passed on and nothing changes.
     */
    method HandleFormSubmit(data: Form.FormPayload) returns (sent: Option<Submitted>)
      requires Valid()
      modifies this
      ensures old(selectedDate).Some? ==>
        sent == Some(Submitted(data, old(selectedDate).value)) && selectedDate == None && !showForm
      ensures old(selectedDate).None? ==>
        sent == None && selectedDate == old(selectedDate) && showForm == old(showForm)
      ensures sent.Some? <==> old(FormVisible())
      ensures Valid()
    {
      sent := None;
      if selectedDate.Some? {
        sent := Some(Submitted(data, selectedDate.value));
        showForm := false;
        selectedDate := None;
      }
    }

    method Cancel()
      modifies this
      ensures selectedDate == None && !showForm
      ensures Valid()
    {
      showForm := false;
      selectedDate := None;
    }

    /** `showForm && selectedDate`: when the form is rendered. */
    predicate FormVisible()
      reads this
    {
      showForm && selectedDate.Some?
    }
  }
}
