/** What the optimistic-update helpers promise across several calls:
    apply then revert restores, reverting is idempotent, a second apply
    replaces the snapshot, a batch snapshots every record before merging,
    and a batch revert is the single reverts done in order. */
module OptimisticProperties {
  import opened JsValue
  import opened EntityAdapter
  import opened Optimistic

  /** `after` is `before` after an apply of `changes` and its revert: every
      changed field holds its old value again (undefined where it was
      absent), every other field is as before, and the snapshot stays. */
  predicate RolledBack(before: Fields, changes: Fields, after: Fields)
  {
    && after.Keys == before.Keys + changes.Keys + {PreviousChangesKey}
    && (forall k :: k in changes ==> after[k] == Lookup(before, k))
    && (forall k :: k in before && k !in changes && k != PreviousChangesKey ==> after[k] == before[k])
    && after[PreviousChangesKey].Obj?
    && IsSnapshotOf(after[PreviousChangesKey].fields, before, changes)
  }

  /** No request of the batch writes the snapshot field itself. */
  predicate KeepsSnapshotField(batch: seq<Update>)
  {
    forall k :: 0 <= k < |batch| ==> PreviousChangesKey !in batch[k].changes
  }

  /** No two requests of the batch target the same record. */
  predicate DistinctTargets(batch: seq<Update>)
  {
    forall i, j :: 0 <= i < j < |batch| ==> batch[i].id != batch[j].id
  }

  /** The ids a caller passes to revert a batch: those of its requests. */
  function TargetIds(batch: seq<Update>): (ids: seq<Value>)
    ensures |ids| == |batch|
    ensures forall k :: 0 <= k < |batch| ==> ids[k] == Str(batch[k].id)
  {
    seq(|batch|, k requires 0 <= k < |batch| => Str(batch[k].id))
  }

  // ---------------------------------------------------------------------
  // One record

  /** Apply followed by revert, with nothing in between, puts every changed
      field back and keeps the snapshot on the record; no other record and
      not the order of `ids` changes. */
  lemma ApplyThenRevertRestores(c: Collection, update: Value)
    requires ApplyOne(c, update).Success?
    requires PreviousChangesKey !in ParseUpdate(update).value.changes
    ensures
      var u := ParseUpdate(update).value;
      var reverted := RevertOne(ApplyOne(c, update).value, Str(u.id));
      && reverted.Success?
      && OnlyRecordChanged(c, u.id, reverted.value)
      && RolledBack(c.entities[u.id], u.changes, reverted.value.entities[u.id])
  {
    var u := ParseUpdate(update).value;
    var applied := ApplyOne(c, update).value;
    var snap := applied.entities[u.id][PreviousChangesKey].fields;
    assert StoredSnapshot(applied.entities, u.id) == Some(snap);
  }

  /** A key the record lacked before the apply comes back from the revert
      as a key holding undefined: the snapshot recorded it as undefined,
      and merging that back does not remove the key. */
  lemma RevertLeavesAbsentKeyUndefined(c: Collection, update: Value, key: string)
    requires ApplyOne(c, update).Success?
    requires PreviousChangesKey !in ParseUpdate(update).value.changes
    requires key in ParseUpdate(update).value.changes
    requires key !in c.entities[ParseUpdate(update).value.id]
    ensures
      var u := ParseUpdate(update).value;
      var reverted := RevertOne(ApplyOne(c, update).value, Str(u.id));
      && reverted.Success?
      && key in reverted.value.entities[u.id]
      && reverted.value.entities[u.id][key] == Undefined
  {
    ApplyThenRevertRestores(c, update);
  }

  /** Reverting twice leaves the state of reverting once, as long as the
      stored snapshot does not itself hold a `previousChanges` field. */
  lemma RevertOneIdempotent(c: Collection, id: string)
    requires StoredSnapshot(c.entities, id).Some? ==> PreviousChangesKey !in StoredSnapshot(c.entities, id).value
    ensures RevertOne(c, Str(id)).Success?
    ensures RevertOne(RevertOne(c, Str(id)).value, Str(id)) == RevertOne(c, Str(id))
  {
    var once := RevertOne(c, Str(id)).value;
    if StoredSnapshot(c.entities, id).Some? {
      var snap := StoredSnapshot(c.entities, id).value;
      var record := c.entities[id];
      assert once.entities[id] == Merge(record, snap);
      assert Lookup(once.entities[id], PreviousChangesKey) == Lookup(record, PreviousChangesKey);
      assert StoredSnapshot(once.entities, id) == Some(snap);
      assert Merge(Merge(record, snap), snap) == Merge(record, snap);
      assert UpdateOne(once.entities, Update(id, snap)) == once.entities;
    }
  }

  /** A second apply to the same record replaces the snapshot: it holds the
      keys of the second changes only, with the values the first apply wrote
      where it wrote them and the record's original values elsewhere. */
  lemma SecondApplyReplacesSnapshot(c: Collection, first: Value, second: Value)
    requires ApplyOne(c, first).Success?
    requires ApplyOne(ApplyOne(c, first).value, second).Success?
    requires ParseUpdate(second).value.id == ParseUpdate(first).value.id
    requires PreviousChangesKey !in ParseUpdate(second).value.changes
    ensures
      var u1, u2 := ParseUpdate(first).value, ParseUpdate(second).value;
      var snap := ApplyOne(ApplyOne(c, first).value, second).value.entities[u1.id][PreviousChangesKey];
      && snap.Obj?
      && snap.fields.Keys == u2.changes.Keys
      && (forall k :: k in u2.changes && k in u1.changes ==> snap.fields[k] == u1.changes[k])
      && forall k :: k in u2.changes && k !in u1.changes ==> snap.fields[k] == Lookup(c.entities[u1.id], k)
  {
  }

  // ---------------------------------------------------------------------
  // Batches: helpers about the fold

  lemma {:induction false} ChangesForAppend(batch: seq<Update>, u: Update, id: string)
    ensures ChangesFor(batch + [u], id) == ChangesFor(batch, id) + (if u.id == id then [u.changes] else [])
  {
    if batch != [] {
      assert (batch + [u])[1..] == batch[1..] + [u];
      ChangesForAppend(batch[1..], u, id);
    }
  }

  lemma {:induction false} ChangesForUntargeted(batch: seq<Update>, id: string)
    requires !Targets(batch, id)
    ensures ChangesFor(batch, id) == []
  {
    if batch != [] {
      assert !Targets(batch[1..], id) by {
        forall k | 0 <= k < |batch[1..]| ensures batch[1..][k].id != id {
          assert batch[1..][k] == batch[k + 1];
        }
      }
      ChangesForUntargeted(batch[1..], id);
    }
  }

  lemma {:induction false} ChangesForUnique(batch: seq<Update>, k: nat)
    requires DistinctTargets(batch)
    requires k < |batch|
    ensures ChangesFor(batch, batch[k].id) == [batch[k].changes]
  {
    var id := batch[k].id;
    if k == 0 {
      assert !Targets(batch[1..], id) by {
        forall j | 0 <= j < |batch[1..]| ensures batch[1..][j].id != id {
          assert batch[1..][j] == batch[j + 1];
        }
      }
      ChangesForUntargeted(batch[1..], id);
    } else {
      assert batch[1..][k - 1] == batch[k];
      ChangesForUnique(batch[1..], k - 1);
    }
  }

  /** A snapshot reads only the changed keys, so an earlier stamp on the
      record does not show in a later one. */
  lemma StampTwice(record: Fields, earlier: Fields, later: Fields)
    requires PreviousChangesKey !in later
    ensures Stamp(Stamp(record, earlier), later) == Stamp(record, later)
  {
    assert Snapshot(Stamp(record, earlier), later) == Snapshot(record, later);
  }

  /** Merging changes that never write `key` commutes with setting `key`. */
  lemma {:induction false} MergeAllAroundKey(record: Fields, key: string, v: Value, chs: seq<Fields>)
    requires forall j :: 0 <= j < |chs| ==> key !in chs[j]
    ensures MergeAll(record[key := v], chs) == MergeAll(record, chs)[key := v]
    decreases |chs|
  {
    if chs != [] {
      assert Merge(record[key := v], chs[0]) == Merge(record, chs[0])[key := v];
      MergeAllAroundKey(Merge(record, chs[0]), key, v, chs[1..]);
    }
  }

  lemma {:induction false} ChangesForSkipsKey(batch: seq<Update>, id: string, key: string)
    requires forall k :: 0 <= k < |batch| ==> key !in batch[k].changes
    ensures forall j :: 0 <= j < |ChangesFor(batch, id)| ==> key !in ChangesFor(batch, id)[j]
  {
    if batch != [] {
      ChangesForSkipsKey(batch[1..], id, key);
    }
  }

  /** The record after the loop: stamped for the last of `chs`, if any. */
  function LastStamp(record: Fields, chs: seq<Fields>): Fields
  {
    if chs == [] then record else Stamp(record, chs[|chs| - 1])
  }

  /** One more stamp: only the latest request's snapshot stays. */
  lemma LastStampStep(record: Fields, before: seq<Fields>, u: Update, id: string)
    requires PreviousChangesKey !in u.changes
    ensures
      var next := if u.id == id then Stamp(LastStamp(record, before), u.changes) else LastStamp(record, before);
      next == LastStamp(record, before + (if u.id == id then [u.changes] else []))
  {
    if u.id == id && before != [] {
      StampTwice(record, before[|before| - 1], u.changes);
    }
  }

  /** The requests of a prefix are the prefix of the requests. */
  lemma RequestsPrefix(entities: Entities, items: seq<Value>, n: nat)
    requires ValidBatch(entities, items)
    requires n <= |items|
    ensures ValidBatch(entities, items[..n])
    ensures Requests(entities, items[..n]) == Requests(entities, items)[..n]
  {
    assert forall j :: 0 <= j < n ==> items[..n][j] == items[j];
  }

  /** The last step of the loop of performManyOptimisticUpdates on a valid
      batch stamps the record of the last request. */
  lemma StampBatchLastStep(entities: Entities, items: seq<Value>)
    requires ValidBatch(entities, items)
    requires items != []
    ensures StampBatch(entities, items).Success? && StampBatch(entities, items[..|items| - 1]).Success?
    ensures
      var pre := StampBatch(entities, items[..|items| - 1]).value.0;
      var u := Requests(entities, items)[|items| - 1];
      StampBatch(entities, items).value.0 == pre[u.id := Stamp(pre[u.id], u.changes)]
  {
    var n := |items|;
    RequestsPrefix(entities, items, n - 1);
    StampBatchOutcome(entities, items);
    StampBatchOutcome(entities, items[..n - 1]);
    var pre := StampBatch(entities, items[..n - 1]).value.0;
    CheckElementReadsKeys(pre, entities, items[n - 1]);
  }

  /** After the loop of performManyOptimisticUpdates, a record carries the
      snapshot of the last request that targets it, taken against the
      record as it was before the batch. */
  lemma {:induction false} StampBatchPerEntity(entities: Entities, items: seq<Value>, id: string)
    requires ValidBatch(entities, items)
    requires KeepsSnapshotField(Requests(entities, items))
    requires id in entities
    ensures StampBatch(entities, items).Success?
    ensures StampBatch(entities, items).value.0[id] == LastStamp(entities[id], ChangesFor(Requests(entities, items), id))
    decreases |items|
  {
    StampBatchOutcome(entities, items);
    if items != [] {
      var n := |items|;
      var requests := Requests(entities, items);
      RequestsPrefix(entities, items, n - 1);
      StampBatchPerEntity(entities, items[..n - 1], id);
      StampBatchLastStep(entities, items);
      var u := requests[n - 1];
      assert requests == requests[..n - 1] + [u];
      ChangesForAppend(requests[..n - 1], u, id);
      LastStampStep(entities[id], ChangesFor(requests[..n - 1], id), u, id);
    }
  }

  // ---------------------------------------------------------------------
  // Batches

  /** On a valid batch performManyOptimisticUpdates hands the stamped
      records and the requests, in order, to `updateMany`. */
  lemma ApplyManyValid(c: Collection, items: seq<Value>)
    requires ValidBatch(c.entities, items)
    ensures StampBatch(c.entities, items).Success?
    ensures
      ApplyMany(c, Arr(items)) ==
        Success(c.(entities := UpdateMany(StampBatch(c.entities, items).value.0, Requests(c.entities, items))))
  {
    StampBatchOutcome(c.entities, items);
  }

  /** `after` is what a batch makes of `before` when `chs` are the changes
      of the requests that target it: nothing when there are none, else
      all of them merged in batch order and the snapshot of the last. */
  predicate BatchApplied(before: Fields, chs: seq<Fields>, after: Fields)
  {
    if chs == [] then after == before
    else
      && PreviousChangesKey in after
      && after == MergeAll(before, chs)[PreviousChangesKey := after[PreviousChangesKey]]
      && after[PreviousChangesKey].Obj?
      && IsSnapshotOf(after[PreviousChangesKey].fields, before, chs[|chs| - 1])
  }

  /** A record stamped for the last of its changes, with all its changes
      merged in, is what the batch promises. */
  lemma MergeAllStamped(record: Fields, chs: seq<Fields>)
    requires forall j :: 0 <= j < |chs| ==> PreviousChangesKey !in chs[j]
    ensures BatchApplied(record, chs, MergeAll(LastStamp(record, chs), chs))
  {
    if chs != [] {
      var snap := Obj(Snapshot(record, chs[|chs| - 1]));
      MergeAllAroundKey(record, PreviousChangesKey, snap, chs);
    }
  }

  /** performManyOptimisticUpdates on a valid batch: a record no request
      targets is unchanged; a targeted one has all its changes merged in
      batch order, and its snapshot is of the record as it was before the
      batch, for the keys of the last request that targets it. */
  lemma ApplyManyPerEntity(c: Collection, items: seq<Value>, id: string)
    requires ValidBatch(c.entities, items)
    requires KeepsSnapshotField(Requests(c.entities, items))
    requires id in c.entities
    ensures ApplyMany(c, Arr(items)).Success?
    ensures
      BatchApplied(c.entities[id], ChangesFor(Requests(c.entities, items), id),
                   ApplyMany(c, Arr(items)).value.entities[id])
  {
    var batch := Requests(c.entities, items);
    ApplyManyValid(c, items);
    StampBatchPerEntity(c.entities, items, id);
    var stamped := StampBatch(c.entities, items).value.0;
    UpdateManyPerEntity(stamped, batch, id);
    ChangesForSkipsKey(batch, id, PreviousChangesKey);
    MergeAllStamped(c.entities[id], ChangesFor(batch, id));
  }

  /** `a` and `b` hold the same keys with the same values, except perhaps
      for the snapshot field. */
  predicate AgreeOffSnapshot(a: Fields, b: Fields)
  {
    && a.Keys - {PreviousChangesKey} == b.Keys - {PreviousChangesKey}
    && (forall k :: k in a && k in b && k != PreviousChangesKey ==> a[k] == b[k])
  }

  /** The loop of performManyOptimisticUpdates writes no field of a record
      but its snapshot, whatever the requests hold. */
  lemma {:induction false} StampBatchOffSnapshot(entities: Entities, items: seq<Value>, id: string)
    requires ValidBatch(entities, items)
    requires id in entities
    ensures StampBatch(entities, items).Success?
    ensures AgreeOffSnapshot(StampBatch(entities, items).value.0[id], entities[id])
    decreases |items|
  {
    StampBatchOutcome(entities, items);
    if items != [] {
      var n := |items|;
      RequestsPrefix(entities, items, n - 1);
      StampBatchOffSnapshot(entities, items[..n - 1], id);
      StampBatchLastStep(entities, items);
    }
  }

  /** Merging the same changes into two records that agree off the snapshot
      field gives two records that still agree off it. */
  lemma {:induction false} MergeAllOffSnapshot(a: Fields, b: Fields, chs: seq<Fields>)
    requires AgreeOffSnapshot(a, b)
    ensures AgreeOffSnapshot(MergeAll(a, chs), MergeAll(b, chs))
    decreases |chs|
  {
    if chs != [] {
      var a', b' := Merge(a, chs[0]), Merge(b, chs[0]);
      assert a'.Keys - {PreviousChangesKey} == b'.Keys - {PreviousChangesKey} by {
        forall k | k != PreviousChangesKey
          ensures k in a' <==> k in b'
        {
          assert k in a.Keys - {PreviousChangesKey} <==> k in b.Keys - {PreviousChangesKey};
        }
      }
      MergeAllOffSnapshot(a', b', chs[1..]);
    }
  }

  /** performManyOptimisticUpdates on any valid batch, whether or not its
      requests write `previousChanges`: every field of a record other than
      the snapshot is what merging that record's changes in batch order
      makes of it. */
  lemma ApplyManyMergesInOrder(c: Collection, items: seq<Value>, id: string)
    requires ValidBatch(c.entities, items)
    requires id in c.entities
    ensures ApplyMany(c, Arr(items)).Success?
    ensures
      AgreeOffSnapshot(ApplyMany(c, Arr(items)).value.entities[id],
                       MergeAll(c.entities[id], ChangesFor(Requests(c.entities, items), id)))
  {
    var batch := Requests(c.entities, items);
    ApplyManyValid(c, items);
    StampBatchOffSnapshot(c.entities, items, id);
    var stamped := StampBatch(c.entities, items).value.0;
    UpdateManyPerEntity(stamped, batch, id);
    MergeAllOffSnapshot(stamped[id], c.entities[id], ChangesFor(batch, id));
  }

  /** No stored snapshot is skipped: every id of the list whose record
      holds one gets its merge-back request. */
  lemma {:induction false} RevertRequestsComplete(entities: Entities, ids: seq<Value>, k: nat)
    requires k < |ids|
    requires StoredSnapshot(entities, ToPropertyKey(ids[k])).Some?
    ensures
      var key := ToPropertyKey(ids[k]);
      Update(key, StoredSnapshot(entities, key).value) in RevertRequests(entities, ids)
  {
    if k > 0 {
      assert ids[1..][k - 1] == ids[k];
      RevertRequestsComplete(entities, ids[1..], k - 1);
    }
  }

  /** A list of ids makes the requests of its first id, then those of the rest. */
  lemma RevertRequestsFirst(entities: Entities, ids: seq<Value>)
    requires ids != []
    ensures RevertRequests(entities, ids) == RevertRequests(entities, ids[..1]) + RevertRequests(entities, ids[1..])
  {
    assert ids[..1][1..] == [];
  }

  /** Concatenation regroups freely. */
  lemma Regroup(x: seq<Update>, y: seq<Update>, z: seq<Update>)
    ensures x + (y + z) == (x + y) + z
  {
  }

  /** The merge-back requests of a list of ids are those of its parts, in
      the order of the parts. */
  lemma {:induction false} RevertRequestsAppend(entities: Entities, a: seq<Value>, b: seq<Value>)
    ensures RevertRequests(entities, a + b) == RevertRequests(entities, a) + RevertRequests(entities, b)
    decreases |a|
  {
    if a == [] {
      assert a + b == b;
    } else {
      var ab := a + b;
      assert ab[..1] == a[..1] && ab[1..] == a[1..] + b;
      RevertRequestsFirst(entities, ab);
      RevertRequestsFirst(entities, a);
      RevertRequestsAppend(entities, a[1..], b);
      Regroup(RevertRequests(entities, a[..1]), RevertRequests(entities, a[1..]), RevertRequests(entities, b));
    }
  }


  /** When every id has a stored snapshot, the revert makes one request
      per id, in order. */
  lemma {:induction false} RevertRequestsAllStored(entities: Entities, ids: seq<Value>, snaps: seq<Fields>)
    requires |snaps| == |ids|
    requires forall k :: 0 <= k < |ids| ==> StoredSnapshot(entities, ToPropertyKey(ids[k])) == Some(snaps[k])
    ensures |RevertRequests(entities, ids)| == |ids|
    ensures forall k :: 0 <= k < |ids| ==> RevertRequests(entities, ids)[k] == Update(ToPropertyKey(ids[k]), snaps[k])
  {
    if ids != [] {
      var rest := RevertRequests(entities, ids[1..]);
      assert forall k :: 0 <= k < |ids| - 1 ==> ids[1..][k] == ids[k + 1] && snaps[1..][k] == snaps[k + 1];
      RevertRequestsAllStored(entities, ids[1..], snaps[1..]);
      assert StoredSnapshot(entities, ToPropertyKey(ids[0])) == Some(snaps[0]);
      assert RevertRequests(entities, ids) == [Update(ToPropertyKey(ids[0]), snaps[0])] + rest;
    }
  }

  /** In a batch that targets each record once, a targeted record ends with
      its request's changes merged in and the snapshot of its old values. */
  lemma ApplyManyDistinctRecord(c: Collection, items: seq<Value>, k: nat)
    requires ValidBatch(c.entities, items)
    requires KeepsSnapshotField(Requests(c.entities, items))
    requires DistinctTargets(Requests(c.entities, items))
    requires k < |items|
    ensures ApplyMany(c, Arr(items)).Success?
    ensures
      var u := Requests(c.entities, items)[k];
      ApplyMany(c, Arr(items)).value.entities[u.id] ==
        Merge(c.entities[u.id], u.changes)[PreviousChangesKey := Obj(Snapshot(c.entities[u.id], u.changes))]
  {
    var batch := Requests(c.entities, items);
    var u := batch[k];
    ChangesForUnique(batch, k);
    ApplyManyPerEntity(c, items, u.id);
    SingleRequestApplied(c.entities[u.id], u.changes, ApplyMany(c, Arr(items)).value.entities[u.id]);
  }

  /** A record one request of a batch targets: its changes merged in and
      the snapshot of its old values. */
  lemma SingleRequestApplied(before: Fields, changes: Fields, after: Fields)
    requires BatchApplied(before, [changes], after)
    ensures after == Merge(before, changes)[PreviousChangesKey := Obj(Snapshot(before, changes))]
  {
    assert after[PreviousChangesKey].fields == Snapshot(before, changes);
    assert MergeAll(before, [changes]) == Merge(before, changes);
  }

  /** Merging the snapshot back into a record an apply produced. */
  lemma MergeSnapshotBack(before: Fields, changes: Fields)
    requires PreviousChangesKey !in changes
    ensures
      var snap := Snapshot(before, changes);
      RolledBack(before, changes, Merge(Merge(before, changes)[PreviousChangesKey := Obj(snap)], snap))
  {
  }

  /** The merge-back requests for a batch: each request's id with the
      snapshot stored for it. */
  function Restores(batch: seq<Update>, snaps: seq<Fields>): (reqs: seq<Update>)
    requires |snaps| == |batch|
    ensures |reqs| == |batch|
    ensures forall k :: 0 <= k < |batch| ==> reqs[k] == Update(batch[k].id, snaps[k])
  {
    seq(|batch|, k requires 0 <= k < |batch| => Update(batch[k].id, snaps[k]))
  }

  /** revertManyOptimisticUpdates over the ids of a batch whose records
      all hold a snapshot hands the adapter one merge-back per request. */
  lemma RevertManyOfBatch(c: Collection, batch: seq<Update>, snaps: seq<Fields>)
    requires |snaps| == |batch|
    requires forall k :: 0 <= k < |batch| ==> StoredSnapshot(c.entities, batch[k].id) == Some(snaps[k])
    ensures RevertMany(c, Arr(TargetIds(batch))) == Success(c.(entities := UpdateMany(c.entities, Restores(batch, snaps))))
  {
    var ids := TargetIds(batch);
    RevertRequestsAllStored(c.entities, ids, snaps);
    var restore := Restores(batch, snaps);
    assert forall k :: 0 <= k < |batch| ==> RevertRequests(c.entities, ids)[k] == restore[k];
    assert RevertRequests(c.entities, ids) == restore;
  }

  /** revertManyOptimisticUpdates over the ids of distinct records that all
      hold a snapshot merges each snapshot into its own record. */
  lemma RevertManyDistinct(c: Collection, batch: seq<Update>, snaps: seq<Fields>)
    requires DistinctTargets(batch)
    requires |snaps| == |batch|
    requires forall k :: 0 <= k < |batch| ==> StoredSnapshot(c.entities, batch[k].id) == Some(snaps[k])
    ensures RevertMany(c, Arr(TargetIds(batch))).Success?
    ensures
      var reverted := RevertMany(c, Arr(TargetIds(batch))).value;
      && (forall id :: id in c.entities && !Targets(batch, id) ==> reverted.entities[id] == c.entities[id])
      && forall k :: 0 <= k < |batch| ==> reverted.entities[batch[k].id] == Merge(c.entities[batch[k].id], snaps[k])
  {
    RevertManyOfBatch(c, batch, snaps);
    var restore := Restores(batch, snaps);
    var reverted := UpdateMany(c.entities, restore);
    assert DistinctTargets(restore);
    forall k | 0 <= k < |batch|
      ensures reverted[batch[k].id] == Merge(c.entities[batch[k].id], snaps[k])
    {
      ChangesForUnique(restore, k);
      UpdateManyPerEntity(c.entities, restore, batch[k].id);
    }
    forall id | id in c.entities && !Targets(batch, id)
      ensures reverted[id] == c.entities[id]
    {
      assert !Targets(restore, id);
    }
  }

  /** The snapshots a batch that targets each record at most once stores:
      one per request, of its record as it was before the batch. */
  function BatchSnapshots(entities: Entities, batch: seq<Update>): (snaps: seq<Fields>)
    requires forall k :: 0 <= k < |batch| ==> batch[k].id in entities
    ensures |snaps| == |batch|
    ensures forall k :: 0 <= k < |batch| ==> snaps[k] == Snapshot(entities[batch[k].id], batch[k].changes)
  {
    seq(|batch|, k requires 0 <= k < |batch| => Snapshot(entities[batch[k].id], batch[k].changes))
  }

  /** A record whose `previousChanges` is an object has that object's
      fields stored as its snapshot. */
  lemma StoredAfterStamp(entities: Entities, key: string, record: Fields, snap: Fields)
    requires key in entities && entities[key] == record[PreviousChangesKey := Obj(snap)]
    ensures StoredSnapshot(entities, key) == Some(snap)
  {
    assert Lookup(entities[key], PreviousChangesKey) == Obj(snap);
  }

  /** After such a batch every request's record holds its snapshot. */
  lemma ApplyManyStoresSnapshots(c: Collection, items: seq<Value>)
    requires ValidBatch(c.entities, items)
    requires KeepsSnapshotField(Requests(c.entities, items))
    requires DistinctTargets(Requests(c.entities, items))
    ensures ApplyMany(c, Arr(items)).Success?
    ensures
      var batch := Requests(c.entities, items);
      var snaps := BatchSnapshots(c.entities, batch);
      forall k :: 0 <= k < |batch| ==>
        StoredSnapshot(ApplyMany(c, Arr(items)).value.entities, batch[k].id) == Some(snaps[k])
  {
    ApplyManyValid(c, items);
    var batch := Requests(c.entities, items);
    var snaps := BatchSnapshots(c.entities, batch);
    var applied := ApplyMany(c, Arr(items)).value;
    forall k | 0 <= k < |batch|
      ensures StoredSnapshot(applied.entities, batch[k].id) == Some(snaps[k])
    {
      var u := batch[k];
      ApplyManyDistinctRecord(c, items, k);
      StoredAfterStamp(applied.entities, u.id, Merge(c.entities[u.id], u.changes), snaps[k]);
    }
  }

  /** performManyOptimisticUpdates on a valid batch that targets each record
      at most once, then revertManyOptimisticUpdates with the batch's ids:
      every targeted record has its changed fields back, with its snapshot
      kept, and every other record and the order of `ids` are as before. */
  lemma ApplyManyThenRevertManyRestores(c: Collection, items: seq<Value>)
    requires ValidBatch(c.entities, items)
    requires KeepsSnapshotField(Requests(c.entities, items))
    requires DistinctTargets(Requests(c.entities, items))
    ensures ApplyMany(c, Arr(items)).Success?
    ensures
      var batch := Requests(c.entities, items);
      var reverted := RevertMany(ApplyMany(c, Arr(items)).value, Arr(TargetIds(batch)));
      && reverted.Success?
      && reverted.value.ids == c.ids
      && reverted.value.entities.Keys == c.entities.Keys
      && (forall id :: id in c.entities && !Targets(batch, id) ==> reverted.value.entities[id] == c.entities[id])
      && forall k :: 0 <= k < |batch| ==>
           RolledBack(c.entities[batch[k].id], batch[k].changes, reverted.value.entities[batch[k].id])
  {
    var batch := Requests(c.entities, items);
    var applied := ApplyMany(c, Arr(items)).value;
    ApplyManyStoresSnapshots(c, items);
    RevertManyDistinct(applied, batch, BatchSnapshots(c.entities, batch));
    var reverted := RevertMany(applied, Arr(TargetIds(batch))).value;
    forall id | id in c.entities && !Targets(batch, id)
      ensures reverted.entities[id] == c.entities[id]
    {
      ChangesForUntargeted(batch, id);
      ApplyManyPerEntity(c, items, id);
    }
    forall k | 0 <= k < |batch|
      ensures RolledBack(c.entities[batch[k].id], batch[k].changes, reverted.entities[batch[k].id])
    {
      ApplyManyDistinctRecord(c, items, k);
      MergeSnapshotBack(c.entities[batch[k].id], batch[k].changes);
    }
  }

  // ---------------------------------------------------------------------
  // Reverting a batch

  /** The revertOptimisticUpdate calls for `ids`, one after the other, each
      on the key the id reads. */
  function RevertEach(c: Collection, ids: seq<Value>): Collection
    decreases |ids|
  {
    if ids == [] then c else RevertEach(RevertOne(c, Str(ToPropertyKey(ids[0]))).value, ids[1..])
  }

  /** No stored snapshot holds a `previousChanges` field of its own. */
  ghost predicate CleanSnapshots(entities: Entities)
  {
    forall key :: StoredSnapshot(entities, key).Some? ==> PreviousChangesKey !in StoredSnapshot(entities, key).value
  }

  /** A revert never touches the snapshot field when the snapshot does not
      hold it, so every stored snapshot survives it. */
  lemma RevertOneKeepsSnapshots(c: Collection, key: string)
    requires CleanSnapshots(c.entities)
    ensures forall other :: StoredSnapshot(RevertOne(c, Str(key)).value.entities, other) == StoredSnapshot(c.entities, other)
  {
    var after := RevertOne(c, Str(key)).value;
    if StoredSnapshot(c.entities, key).Some? {
      assert Lookup(after.entities[key], PreviousChangesKey) == Lookup(c.entities[key], PreviousChangesKey);
    }
  }

  lemma {:induction false} RevertRequestsReadsSnapshots(entities: Entities, entities': Entities, ids: seq<Value>)
    requires forall key :: StoredSnapshot(entities, key) == StoredSnapshot(entities', key)
    ensures RevertRequests(entities, ids) == RevertRequests(entities', ids)
  {
    if ids != [] {
      RevertRequestsReadsSnapshots(entities, entities', ids[1..]);
    }
  }

  lemma {:induction false} RevertRequestsFold(c: Collection, ids: seq<Value>)
    requires CleanSnapshots(c.entities)
    ensures c.(entities := UpdateMany(c.entities, RevertRequests(c.entities, ids))) == RevertEach(c, ids)
    decreases |ids|
  {
    if ids != [] {
      var key := ToPropertyKey(ids[0]);
      var next := RevertOne(c, Str(key)).value;
      RevertOneKeepsSnapshots(c, key);
      RevertRequestsReadsSnapshots(c.entities, next.entities, ids[1..]);
      RevertRequestsFold(next, ids[1..]);
      var rest := RevertRequests(c.entities, ids[1..]);
      match StoredSnapshot(c.entities, key)
      case None =>
      case Some(snap) =>
        assert ([Update(key, snap)] + rest)[1..] == rest;
    }
  }

  /** revertManyOptimisticUpdates reads every snapshot before merging any,
      yet its result is that of calling revertOptimisticUpdate on each id in
      order, as long as no snapshot holds a `previousChanges` field. */
  lemma RevertManyIsRevertOneInOrder(c: Collection, ids: seq<Value>)
    requires CleanSnapshots(c.entities)
    ensures RevertMany(c, Arr(ids)) == Success(RevertEach(c, ids))
  {
    RevertRequestsFold(c, ids);
  }
}
