/** The behaviour the repository's tests describe, on concrete collections:
    a record gets its changes and a snapshot of the old values, a record
    that does not exist makes the apply throw and the revert do nothing,
    and a revert of a key the record never had leaves that key undefined. */
module OptimisticScenarios {
  import opened JsValue
  import opened EntityAdapter
  import opened Optimistic
  import opened OptimisticProperties

  const Bob: Fields := map["id" := Str("1"), "name" := Str("Bob"), "age" := Num(20)]
  const Jim: Fields := map["id" := Str("2"), "name" := Str("Jim"), "age" := Num(32)]

  /** The two updates of the tests: Bob turns 21; Jim becomes James, 33. */
  const BobTurns21: Value := Request("1", map["age" := Num(21)])
  const JimToJames: Value := Request("2", map["name" := Str("James"), "age" := Num(33)])
  /** An update of a field Bob's record does not have. */
  const BlueEyes: Value := Request("1", map["eyes" := Str("blue")])

  function Request(id: string, changes: Fields): Value
  {
    Obj(map["id" := Str(id), "changes" := Obj(changes)])
  }

  /** A request built from an id and a changes object parses back to both. */
  lemma RequestParses(id: string, changes: Fields)
    ensures ParseUpdate(Request(id, changes)) == Success(Update(id, changes))
  {
    assert Prop(Request(id, changes), "id") == Str(id);
    assert Prop(Request(id, changes), "changes") == Obj(changes);
  }

  function Single(id: string, record: Fields): Collection
  {
    Collection([id], map[id := record])
  }

  /** performOptimisticUpdate on a one-record collection, for a request
      that names that record: the record becomes the stamped record with
      the changes merged in. */
  lemma ApplyToSingle(id: string, record: Fields, update: Value, changes: Fields)
    requires ParseUpdate(update) == Success(Update(id, changes))
    ensures ApplyOne(Single(id, record), update) == Success(Single(id, Merge(Stamp(record, changes), changes)))
  {
    var stamped := map[id := record][id := Stamp(record, changes)];
    assert stamped == map[id := Stamp(record, changes)];
    assert UpdateOne(stamped, Update(id, changes)) == map[id := Merge(Stamp(record, changes), changes)];
  }

  /** An update of a record that does not exist throws before anything is
      written; the revert the failed request triggers finds no snapshot,
      so the empty collection stays empty. */
  lemma UnknownRecordLeavesStateEmpty()
    ensures
      var empty := Collection([], map[]);
      var applied := ApplyOne(empty, Request("foo", map["n" := Num(1)]));
      && applied == Failure(TypeError)
      && Committed(empty, applied) == empty
      && RevertOne(empty, Str("foo")) == Success(empty)
  {
    var update := Request("foo", map["n" := Num(1)]);
    assert Prop(update, "id") == Str("foo");
    assert Prop(update, "changes") == Obj(map["n" := Num(1)]);
  }

  /** The records the tests expect after each update. */
  const Bob21: Fields :=
    map["id" := Str("1"), "name" := Str("Bob"), "age" := Num(21), "previousChanges" := Obj(map["age" := Num(20)])]
  const James33: Fields :=
    map["id" := Str("2"), "name" := Str("James"), "age" := Num(33),
        "previousChanges" := Obj(map["name" := Str("Jim"), "age" := Num(32)])]

  /** Bob's age goes from 20 to 21 and `previousChanges` records 20. */
  lemma OneFieldUpdate()
    ensures ApplyOne(Single("1", Bob), BobTurns21) == Success(Single("1", Bob21))
  {
    var changes := map["age" := Num(21)];
    RequestParses("1", changes);
    assert Merge(Stamp(Bob, changes), changes) == Bob21 by {
      var snap := Snapshot(Bob, changes);
      assert snap.Keys == {"age"};
      assert snap == map["age" := Num(20)];
    }
    ApplyToSingle("1", Bob, BobTurns21, changes);
  }

  /** Jim becomes James, 32 becomes 33, and both old values are recorded. */
  lemma TwoFieldUpdate()
    ensures ApplyOne(Single("2", Jim), JimToJames) == Success(Single("2", James33))
  {
    var changes := map["name" := Str("James"), "age" := Num(33)];
    RequestParses("2", changes);
    assert Merge(Stamp(Jim, changes), changes) == James33 by {
      var snap := Snapshot(Jim, changes);
      assert snap.Keys == {"name", "age"};
      assert snap == map["name" := Str("Jim"), "age" := Num(32)];
    }
    ApplyToSingle("2", Jim, JimToJames, changes);
  }

  /** Reverting Bob's update brings back age 20; the snapshot stays. */
  lemma OneFieldRevert()
    ensures
      RevertOne(Single("1", Bob21), Str("1")) == Success(Single("1", Bob21["age" := Num(20)]))
  {
    assert Lookup(Bob21, PreviousChangesKey) == Obj(map["age" := Num(20)]);
    assert StoredSnapshot(map["1" := Bob21], "1") == Some(map["age" := Num(20)]);
    assert Merge(Bob21, map["age" := Num(20)]) == Bob21["age" := Num(20)];
    assert UpdateOne(map["1" := Bob21], Update("1", map["age" := Num(20)])) == map["1" := Bob21["age" := Num(20)]];
  }

  /** A key the record did not have before the apply is snapshotted as
      undefined, so the revert leaves the key on the record, holding
      undefined, rather than removing it. */
  lemma AbsentKeyRevertsToUndefined()
    ensures
      var applied := ApplyOne(Single("1", Bob), BlueEyes);
      && applied.Success?
      && var reverted := RevertOne(applied.value, Str("1"));
      && reverted.Success?
      && "eyes" in reverted.value.entities["1"]
      && reverted.value.entities["1"]["eyes"] == Undefined
  {
    var changes := map["eyes" := Str("blue")];
    RequestParses("1", changes);
    ApplyToSingle("1", Bob, BlueEyes, changes);
    RevertLeavesAbsentKeyUndefined(Single("1", Bob), BlueEyes, "eyes");
  }
}
