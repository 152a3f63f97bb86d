/**
 * The import half of src/components/DataManager.tsx, from the value that
 * `JSON.parse` produced: the array check, the truthiness filter over the
 * four required properties, and the empty-result failure.
 */
module DataManager {
  import opened Wrappers
  import opened Seqs
  import JsText

  /** A parsed JSON value; numbers are integers here. */
  datatype Json =
    | JNull
    | JBool(b: bool)
    | JNum(n: int)
    | JStr(s: string)
    | JArr(items: seq<Json>)
    | JObj(members: seq<(string, Json)>)

  /** The position of the last member named `key`, or -1 when there is none. */
  function LastIndex(members: seq<(string, Json)>, key: string): (r: int)
    ensures -1 <= r < |members|
    ensures r == -1 ==> forall i :: 0 <= i < |members| ==> members[i].0 != key
    ensures r >= 0 ==> members[r].0 == key && forall j :: r < j < |members| ==> members[j].0 != key
  {
    if members == [] then -1
    else if members[|members| - 1].0 == key then |members| - 1
    else LastIndex(members[..|members| - 1], key)
  }

  /** The value bound to `key`; `JSON.parse` keeps the last of repeated keys. */
  function Lookup(members: seq<(string, Json)>, key: string): Option<Json>
  {
    var i := LastIndex(members, key);
    if i < 0 then None else Some(members[i].1)
  }

  /**
   * `value.key` on a value that is not null: only an object has own
   * properties with these names; anything else reads as `undefined` (None).
   */
  function Prop(v: Json, key: string): Option<Json>
  {
    if v.JObj? then Lookup(v.members, key) else None
  }

  /** JavaScript truthiness; `undefined` is None. */
  predicate Truthy(v: Option<Json>) {
    match v
    case None => false
    case Some(JNull) => false
    case Some(JBool(b)) => b
    case Some(JNum(n)) => n != 0
    case Some(JStr(s)) => s != ""
    case Some(JArr(_)) => true
    case Some(JObj(_)) => true
  }

  /** `workout.id && workout.date && workout.activity && workout.duration` */
  predicate Keep(w: Json) {
    Truthy(Prop(w, "id")) && Truthy(Prop(w, "date")) && Truthy(Prop(w, "activity")) && Truthy(Prop(w, "duration"))
  }

  /** Reading a property of `null` throws, and the handler's `catch` reports a failed import. */
  predicate HasNull(items: seq<Json>) {
    exists i :: 0 <= i < |items| && items[i].JNull?
  }

  /** `Failed` is the catch branch; `Imported` carries what `onImportData` receives. */
  datatype ImportOutcome = Failed | Imported(workouts: seq<Json>)

  function Import(parsed: Json): (r: ImportOutcome)
    ensures !parsed.JArr? ==> r == Failed
    ensures parsed.JArr? && HasNull(parsed.items) ==> r == Failed
    ensures r.Imported? ==>
      && parsed.JArr? && |r.workouts| > 0
      && (forall i :: 0 <= i < |r.workouts| ==> r.workouts[i] in parsed.items && Keep(r.workouts[i]))
      && (forall i :: 0 <= i < |parsed.items| && Keep(parsed.items[i]) ==> parsed.items[i] in r.workouts)
    ensures r.Imported? ==> r.workouts == Filter(parsed.items, Keep)
    ensures r == Failed && parsed.JArr? && !HasNull(parsed.items) ==>
      forall i :: 0 <= i < |parsed.items| ==> !Keep(parsed.items[i])
  {
    if !parsed.JArr? || HasNull(parsed.items) then Failed
    else
      var kept := Filter(parsed.items, Keep);
      if kept == [] then Failed else Imported(kept)
  }

  /** The toast shown after an import, as (title, description). */
  function Toast(r: ImportOutcome): (string, string)
  {
    match r
    case Failed => ("Import Failed", "Invalid file format or corrupted data.")
    case Imported(ws) => ("Data Imported", "Successfully imported " + JsText.NatToString(|ws|) + " workouts.")
  }

  /** The success message states the number of records passed on, and reads back to it. */
  lemma ToastCount(ws: seq<Json>)
    ensures Toast(Imported(ws)).1[..22] == "Successfully imported "
    ensures JsText.ReadNat(Toast(Imported(ws)).1[22..]) == (|ws|, " workouts.")
  {
    var d := Toast(Imported(ws)).1;
    var n := JsText.NatToString(|ws|);
    assert d == "Successfully imported " + (n + " workouts.");
    assert d[22..] == n + " workouts.";
    JsText.ReadNatToString(|ws|, " workouts.");
  }

  /**
   * Importing a concatenation passes on the kept records of each part, in
   * order, whenever both parts import on their own.
   */
  lemma ImportConcat(a: seq<Json>, b: seq<Json>)
    requires Import(JArr(a)).Imported? && Import(JArr(b)).Imported?
    ensures Import(JArr(a + b)) == Imported(Import(JArr(a)).workouts + Import(JArr(b)).workouts)
  {
    FilterConcat(a, b, Keep);
    forall i | 0 <= i < |a + b| ensures !(a + b)[i].JNull? {
      if i < |a| {
        assert (a + b)[i] == a[i];
      } else {
        assert (a + b)[i] == b[i - |a|];
      }
    }
  }

  function Entry(id: Json, date: Json, activity: Json, duration: Json): Json
  {
    JObj([("id", id), ("date", date), ("activity", activity), ("duration", duration)])
  }

  lemma EntryProps(id: Json, date: Json, activity: Json, duration: Json)
    ensures Prop(Entry(id, date, activity, duration), "id") == Some(id)
    ensures Prop(Entry(id, date, activity, duration), "date") == Some(date)
    ensures Prop(Entry(id, date, activity, duration), "activity") == Some(activity)
    ensures Prop(Entry(id, date, activity, duration), "duration") == Some(duration)
  {
    var m := Entry(id, date, activity, duration).members;
    var m3 := [("id", id), ("date", date), ("activity", activity)];
    var m2 := [("id", id), ("date", date)];
    var m1 := [("id", id)];
    assert m[..3] == m3 && m3[..2] == m2 && m2[..1] == m1 && m1[..0] == [];
    assert "duration" != "id" && "duration" != "date" && "duration" != "activity" by {
      assert "duration"[0] != "id"[0] && "duration"[1] != "date"[1] && "duration"[0] != "activity"[0];
    }
    assert "activity" != "id" && "activity" != "date" by {
      assert "activity"[0] != "id"[0] && "activity"[0] != "date"[0];
    }
    assert "date" != "id" by {
      assert "date"[0] != "id"[0];
    }
    assert Lookup(m, "id") == Lookup(m3, "id") == Lookup(m2, "id") == Lookup(m1, "id");
    assert Lookup(m, "date") == Lookup(m3, "date") == Lookup(m2, "date");
    assert Lookup(m, "activity") == Lookup(m3, "activity");
  }

  /** Truthiness drops a zero duration and an empty id, so a file holding only such records fails. */
  lemma FalsyFieldsDropped()
    ensures Import(JArr([Entry(JStr("1"), JStr("2024-01-01"), JStr("Running"), JNum(0))])) == Failed
    ensures Import(JArr([Entry(JStr(""), JStr("2024-01-01"), JStr("Running"), JNum(30))])) == Failed
  {
    var zero := Entry(JStr("1"), JStr("2024-01-01"), JStr("Running"), JNum(0));
    EntryProps(JStr("1"), JStr("2024-01-01"), JStr("Running"), JNum(0));
    FilterSingleton(zero, Keep);
    var noId := Entry(JStr(""), JStr("2024-01-01"), JStr("Running"), JNum(30));
    EntryProps(JStr(""), JStr("2024-01-01"), JStr("Running"), JNum(30));
    FilterSingleton(noId, Keep);
  }

  /** A well-formed record survives, and a later record with a falsy field is dropped. */
  lemma ImportExample()
    ensures Import(JArr([Entry(JStr("1"), JStr("2024-01-01"), JStr("Running"), JNum(30)),
                         Entry(JStr("2"), JStr("2024-01-02"), JStr(""), JNum(45))]))
         == Imported([Entry(JStr("1"), JStr("2024-01-01"), JStr("Running"), JNum(30))])
  {
    var good := Entry(JStr("1"), JStr("2024-01-01"), JStr("Running"), JNum(30));
    var bad := Entry(JStr("2"), JStr("2024-01-02"), JStr(""), JNum(45));
    EntryProps(JStr("1"), JStr("2024-01-01"), JStr("Running"), JNum(30));
    EntryProps(JStr("2"), JStr("2024-01-02"), JStr(""), JNum(45));
    assert Keep(good) && !Keep(bad);
    FilterSingleton(good, Keep);
    FilterSingleton(bad, Keep);
    FilterConcat([good], [bad], Keep);
    assert [good, bad] == [good] + [bad];
    assert Filter([good, bad], Keep) == [good];
    assert !HasNull([good, bad]);
  }
}
