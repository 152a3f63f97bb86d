/**
 * The workout record of src/pages/Index.tsx and the in-memory store that the
 * page keeps in React state: add, update and delete each replace the list by a
 * new list computed from the old one.
 */
module Workouts {
  import opened Wrappers
  import opened Seqs
  import JsText

  /** The eight activity kinds of the record type. */
  datatype Activity =
    | BrazilianJiuJitsu | Cycling | Hiking | Kickboxing | Other | Resistance | Running | Swimming

  /** The push/pull/legs split of a resistance session. */
  datatype Split = Push | Pull | Legs

  /** The string value that the application stores for an activity. */
  function ActivityLabel(a: Activity): (s: string)
    ensures |s| >= 5
  {
    match a
    case BrazilianJiuJitsu => "Brazilian Jiu-Jitsu"
    case Cycling => "Cycling"
    case Hiking => "Hiking"
    case Kickboxing => "Kickboxing"
    case Other => "Other"
    case Resistance => "Resistance"
    case Running => "Running"
    case Swimming => "Swimming"
  }

  lemma ActivityLabelInjective(a: Activity, b: Activity)
    ensures ActivityLabel(a) == ActivityLabel(b) <==> a == b
  {
  }

  function SplitLabel(s: Split): string
  {
    match s
    case Push => "Push"
    case Pull => "Pull"
    case Legs => "Legs"
  }

  /** An optional JavaScript string in a condition: present and non-empty. */
  predicate Truthy(s: Option<string>) {
    s.Some? && s.value != ""
  }

  /** A day number: the calendar day a workout was logged for. */
  type Day = int

  /** One logged workout. Optional fields are `None` when the property is absent. */
  datatype WorkoutEntry = WorkoutEntry(
    id: string,
    date: Day,
    activity: Activity,
    secondaryActivity: Option<Activity>,
    duration: int,
    secondaryDuration: Option<int>,
    exerciseType: Option<Split>,
    pplSplit: Option<Split>,
    customActivityName: Option<string>,
    customSecondaryActivityName: Option<string>)

  /** A record without its id, as the calendar hands it to `addWorkout`. */
  datatype NewWorkout = NewWorkout(
    date: Day,
    activity: Activity,
    secondaryActivity: Option<Activity>,
    duration: int,
    secondaryDuration: Option<int>,
    exerciseType: Option<Split>,
    pplSplit: Option<Split>,
    customActivityName: Option<string>,
    customSecondaryActivityName: Option<string>)

  /**
   * One optional property of an update object: `Omitted` when the key is not in
   * the object (the spread keeps the old value) and `Given(v)` when it is, even
   * with the value `undefined` (`Given(None)`), which the spread then copies.
   */
  datatype Field<T> = Omitted | Given(value: Option<T>)

  /** The argument of `updateWorkout`: every field except `id` and `date`. */
  datatype WorkoutData = WorkoutData(
    activity: Activity,
    duration: int,
    secondaryActivity: Field<Activity>,
    secondaryDuration: Field<int>,
    exerciseType: Field<Split>,
    pplSplit: Field<Split>,
    customActivityName: Field<string>,
    customSecondaryActivityName: Field<string>)

  /** The record `{...workout, id}` built by `addWorkout`. */
  function WithId(w: NewWorkout, id: string): WorkoutEntry
  {
    WorkoutEntry(id, w.date, w.activity, w.secondaryActivity, w.duration, w.secondaryDuration,
                 w.exerciseType, w.pplSplit, w.customActivityName, w.customSecondaryActivityName)
  }

  /** The record without its id. */
  function WithoutId(e: WorkoutEntry): NewWorkout
  {
    NewWorkout(e.date, e.activity, e.secondaryActivity, e.duration, e.secondaryDuration,
               e.exerciseType, e.pplSplit, e.customActivityName, e.customSecondaryActivityName)
  }

  /** The record `addWorkout` builds is exactly the supplied fields plus the given id. */
  lemma WithIdRoundTrip(w: NewWorkout, id: string)
    ensures WithId(w, id).id == id
    ensures WithoutId(WithId(w, id)) == w
    ensures WithId(WithoutId(WithId(w, id)), id) == WithId(w, id)
  {
  }

  function Spread<T>(old_: Option<T>, f: Field<T>): Option<T>
  {
    match f
    case Omitted => old_
    case Given(v) => v
  }

  /** `{...workout, ...data}`: the properties present in `data` replace those of `workout`. */
  function Merge(w: WorkoutEntry, data: WorkoutData): (r: WorkoutEntry)
    ensures r.id == w.id && r.date == w.date
    ensures r.activity == data.activity && r.duration == data.duration
    ensures data.exerciseType.Omitted? ==> r.exerciseType == w.exerciseType
    ensures data.exerciseType.Given? ==> r.exerciseType == data.exerciseType.value
    ensures data.secondaryActivity.Omitted? ==> r.secondaryActivity == w.secondaryActivity
    ensures data.secondaryActivity.Given? ==> r.secondaryActivity == data.secondaryActivity.value
    ensures data.secondaryDuration.Omitted? ==> r.secondaryDuration == w.secondaryDuration
    ensures data.secondaryDuration.Given? ==> r.secondaryDuration == data.secondaryDuration.value
    ensures data.pplSplit.Omitted? ==> r.pplSplit == w.pplSplit
    ensures data.pplSplit.Given? ==> r.pplSplit == data.pplSplit.value
    ensures data.customActivityName.Omitted? ==> r.customActivityName == w.customActivityName
    ensures data.customActivityName.Given? ==> r.customActivityName == data.customActivityName.value
    ensures data.customSecondaryActivityName.Omitted? ==>
      r.customSecondaryActivityName == w.customSecondaryActivityName
    ensures data.customSecondaryActivityName.Given? ==>
      r.customSecondaryActivityName == data.customSecondaryActivityName.value
  {
    WorkoutEntry(w.id, w.date, data.activity,
                 Spread(w.secondaryActivity, data.secondaryActivity),
                 data.duration,
                 Spread(w.secondaryDuration, data.secondaryDuration),
                 Spread(w.exerciseType, data.exerciseType),
                 Spread(w.pplSplit, data.pplSplit),
                 Spread(w.customActivityName, data.customActivityName),
                 Spread(w.customSecondaryActivityName, data.customSecondaryActivityName))
  }

  /** Merging the same data twice is the same as merging it once. */
  lemma MergeIdempotent(w: WorkoutEntry, data: WorkoutData)
    ensures Merge(Merge(w, data), data) == Merge(w, data)
  {
  }

  /** A merge with every optional key omitted changes only activity and duration. */
  lemma MergeOmittedKeeps(w: WorkoutEntry, data: WorkoutData)
    requires data.secondaryActivity.Omitted? && data.secondaryDuration.Omitted?
    requires data.exerciseType.Omitted? && data.pplSplit.Omitted?
    requires data.customActivityName.Omitted? && data.customSecondaryActivityName.Omitted?
    ensures Merge(w, data) == w.(activity := data.activity, duration := data.duration)
  {
  }

  // ----- The three list transformations -----

  /** `[...prev, newWorkout]` */
  function Appended(ws: seq<WorkoutEntry>, w: NewWorkout, id: string): seq<WorkoutEntry>
  {
    ws + [WithId(w, id)]
  }

  /** `prev.map(workout => workout.id === id ? {...workout, ...data} : workout)` */
  function Updated(ws: seq<WorkoutEntry>, id: string, data: WorkoutData): seq<WorkoutEntry>
  {
    seq(|ws|, i requires 0 <= i < |ws| => if ws[i].id == id then Merge(ws[i], data) else ws[i])
  }

  predicate KeepsOther(id: string, w: WorkoutEntry)
  {
    w.id != id
  }

  /** `prev.filter(w => w.id !== id)` */
  function Deleted(ws: seq<WorkoutEntry>, id: string): seq<WorkoutEntry>
  {
    Filter(ws, w => KeepsOther(id, w))
  }

  predicate HasId(ws: seq<WorkoutEntry>, id: string)
  {
    exists i :: 0 <= i < |ws| && ws[i].id == id
  }

  /** Adding grows the list by one at the end and leaves every earlier record as it was. */
  lemma AppendedSpec(ws: seq<WorkoutEntry>, w: NewWorkout, id: string)
    ensures |Appended(ws, w, id)| == |ws| + 1
    ensures Appended(ws, w, id)[..|ws|] == ws
    ensures Appended(ws, w, id)[|ws|].id == id
    ensures WithoutId(Appended(ws, w, id)[|ws|]) == w
  {
    assert (ws + [WithId(w, id)])[..|ws|] == ws;
  }

  /** Updating keeps length and order; only records with a matching id are merged with the data. */
  lemma UpdatedSpec(ws: seq<WorkoutEntry>, id: string, data: WorkoutData)
    ensures |Updated(ws, id, data)| == |ws|
    ensures forall i :: 0 <= i < |ws| && ws[i].id != id ==> Updated(ws, id, data)[i] == ws[i]
    ensures forall i :: 0 <= i < |ws| && ws[i].id == id ==> Updated(ws, id, data)[i] == Merge(ws[i], data)
    ensures forall i :: 0 <= i < |ws| ==> Updated(ws, id, data)[i].id == ws[i].id
  {
  }

  /** Updating an id that no record has changes nothing. */
  lemma UpdatedAbsent(ws: seq<WorkoutEntry>, id: string, data: WorkoutData)
    requires !HasId(ws, id)
    ensures Updated(ws, id, data) == ws
  {
  }

  /** Applying the same update twice is the same as applying it once. */
  lemma UpdatedIdempotent(ws: seq<WorkoutEntry>, id: string, data: WorkoutData)
    ensures Updated(Updated(ws, id, data), id, data) == Updated(ws, id, data)
  {
    var once := Updated(ws, id, data);
    var twice := Updated(once, id, data);
    forall i | 0 <= i < |ws| ensures twice[i] == once[i] {
      if ws[i].id == id {
        MergeIdempotent(ws[i], data);
      }
    }
  }

  /** Deleting removes exactly the records with that id and keeps the others in order. */
  lemma DeletedSpec(ws: seq<WorkoutEntry>, id: string)
    ensures !HasId(Deleted(ws, id), id)
    ensures forall i :: 0 <= i < |ws| && ws[i].id != id ==> ws[i] in Deleted(ws, id)
    ensures forall w :: w in Deleted(ws, id) ==> w in ws
  {
    var r := Deleted(ws, id);
    forall w | w in r ensures w in ws && w.id != id {
      var i :| 0 <= i < |r| && r[i] == w;
    }
  }

  /** Deleting from a concatenation deletes from each part: the survivors keep their order. */
  lemma DeletedConcat(a: seq<WorkoutEntry>, b: seq<WorkoutEntry>, id: string)
    ensures Deleted(a + b, id) == Deleted(a, id) + Deleted(b, id)
  {
    FilterConcat(a, b, w => KeepsOther(id, w));
  }

  /** Deleting an id that no record has leaves the list unchanged. */
  lemma DeletedAbsent(ws: seq<WorkoutEntry>, id: string)
    requires !HasId(ws, id)
    ensures Deleted(ws, id) == ws
  {
    FilterAll(ws, w => KeepsOther(id, w));
  }

  /** After an add with a fresh id, deleting that id gives back the old list. */
  lemma DeleteUndoesAdd(ws: seq<WorkoutEntry>, w: NewWorkout, id: string)
    requires !HasId(ws, id)
    ensures Deleted(Appended(ws, w, id), id) == ws
  {
    DeletedConcat(ws, [WithId(w, id)], id);
    DeletedAbsent(ws, id);
    FilterSingleton(WithId(w, id), w' => KeepsOther(id, w'));
  }

  // ----- Sums shared by the analytics and report summaries -----

  /** The plain sum of the primary durations. */
  function TotalDuration(ws: seq<WorkoutEntry>): int
  {
    if ws == [] then 0 else TotalDuration(ws[..|ws| - 1]) + ws[|ws| - 1].duration
  }

  lemma {:induction false} TotalDurationConcat(a: seq<WorkoutEntry>, b: seq<WorkoutEntry>)
    ensures TotalDuration(a + b) == TotalDuration(a) + TotalDuration(b)
  {
    if b != [] {
      assert (a + b)[..|a + b| - 1] == a + b[..|b| - 1];
      TotalDurationConcat(a, b[..|b| - 1]);
    } else {
      assert a + b == a;
    }
  }

  /** `count > 0 ? Math.round(total / count) : 0` */
  function AverageDuration(ws: seq<WorkoutEntry>): (r: int)
    ensures ws == [] ==> r == 0
    ensures ws != [] ==> |ws| * (2 * r - 1) <= 2 * TotalDuration(ws) < |ws| * (2 * r + 1)
  {
    if |ws| > 0 then JsText.RoundDiv(TotalDuration(ws), |ws|) else 0
  }

  /** The store that the page component owns. */
  class WorkoutStore {
    var workouts: seq<WorkoutEntry>

    constructor ()
      ensures workouts == []
    {
      workouts := [];
    }

    /** `addWorkout`; the id, which the application takes from the clock, is a parameter here. */
    method AddWorkout(w: NewWorkout, id: string)
      modifies this
      ensures workouts == Appended(old(workouts), w, id)
      ensures |workouts| == |old(workouts)| + 1 && workouts[..|old(workouts)|] == old(workouts)
    {
      AppendedSpec(workouts, w, id);
      workouts := Appended(workouts, w, id);
    }

    method UpdateWorkout(id: string, data: WorkoutData)
      modifies this
      ensures workouts == Updated(old(workouts), id, data)
      ensures |workouts| == |old(workouts)|
      ensures !HasId(old(workouts), id) ==> workouts == old(workouts)
    {
      if !HasId(workouts, id) {
        UpdatedAbsent(workouts, id, data);
      }
      workouts := Updated(workouts, id, data);
    }

    method DeleteWorkout(id: string)
      modifies this
      ensures workouts == Deleted(old(workouts), id)
      ensures !HasId(workouts, id)
      ensures !HasId(old(workouts), id) ==> workouts == old(workouts)
    {
      DeletedSpec(workouts, id);
      if !HasId(workouts, id) {
        DeletedAbsent(workouts, id);
      }
      workouts := Deleted(workouts, id);
    }
  }
}
