/** The optimistic-update helpers for a normalised entity collection:
    applying a change to one record or a batch of records while keeping a
    rollback snapshot on each record, and merging those snapshots back. */
module Optimistic {
  import opened JsValue
  import opened EntityAdapter

  /** The record field that holds the rollback snapshot. */
  const PreviousChangesKey := "previousChanges"

  const UpdateArgMessage :=
    "Incorrect `update` arg sent to `performOptimisticUpdate`. Expected: { id: <string>, changes: <object> }"
  const ManyUpdateArgMessage :=
    "Incorrect `update` arg sent to `performManyOptimisticUpdates`. Expected: [{ id: <string>, changes: <object> }, ...]"
  const RevertIdMessage :=
    "Incorrect `id` arg sent to `revertOptimisticUpdate`. Expected: <string>"
  const RevertIdsMessage :=
    "Incorrect `ids` arg sent to `revertManyOptimisticUpdates`. Expected: [<string>]"

  /** What a call throws: one of the helpers' own errors, with its fixed
      message, or the runtime TypeError of going through a record that does
      not exist, of reading a property of null, or of `Object.keys(null)`. */
  datatype Error = InvalidArgument(message: string) | TypeError

  datatype Result<T> = Success(value: T) | Failure(error: Error)

  /** The slice state: the ordered `ids` and the records by id. */
  datatype Collection = Collection(ids: seq<string>, entities: Entities)

  // ---------------------------------------------------------------------
  // Record-level vocabulary for the contracts

  /** `snap` holds, for exactly the keys of `changes`, the value `record`
      has there, or undefined where `record` lacks the key. */
  predicate IsSnapshotOf(snap: Fields, record: Fields, changes: Fields)
  {
    snap.Keys == changes.Keys && forall k :: k in snap ==> snap[k] == Lookup(record, k)
  }

  /** `after` is what an optimistic apply of `changes` makes of `before`:
      the changes merged in, every other field kept, and `previousChanges`
      holding the snapshot of `before` unless the changes write that field. */
  predicate AppliedTo(before: Fields, changes: Fields, after: Fields)
  {
    && after.Keys == before.Keys + changes.Keys + {PreviousChangesKey}
    && (forall k :: k in changes ==> after[k] == changes[k])
    && (forall k :: k in before && k !in changes && k != PreviousChangesKey ==> after[k] == before[k])
    && (PreviousChangesKey !in changes ==>
          after[PreviousChangesKey].Obj? && IsSnapshotOf(after[PreviousChangesKey].fields, before, changes))
  }

  /** `c'` differs from `c` at most in the record for `id`. */
  predicate OnlyRecordChanged(c: Collection, id: string, c': Collection)
  {
    && c'.ids == c.ids
    && c'.entities.Keys == c.entities.Keys
    && forall other :: other in c.entities && other != id ==> c'.entities[other] == c.entities[other]
  }

  // ---------------------------------------------------------------------
  // The snapshot

  /** The `reduce` over `Object.keys(changes)`: for each changed key, what
      the record holds there now. */
  function Snapshot(record: Fields, changes: Fields): Fields
  {
    map k | k in changes :: Lookup(record, k)
  }

  /** The record with its `previousChanges` replaced by a fresh snapshot. */
  function Stamp(record: Fields, changes: Fields): Fields
  {
    record[PreviousChangesKey := Obj(Snapshot(record, changes))]
  }

  // ---------------------------------------------------------------------
  // Reading requests

  /** `typeof id === "string" && typeof changes === "object"`. */
  predicate HasRequestShape(request: Value)
  {
    TypeOf(Prop(request, "id")) == StringType && TypeOf(Prop(request, "changes")) == ObjectType
  }

  /** The argument checks at the top of performOptimisticUpdate. */
  predicate IsUpdateArg(update: Value)
  {
    Truthy(update) && TypeOf(update) == ObjectType && HasRequestShape(update)
  }

  /** `{ id, changes }` of a request whose shape has been checked; the
      `Object.keys(changes)` of the snapshot throws when `changes` is null. */
  function ReadRequest(request: Value): (r: Result<Update>)
    requires HasRequestShape(request)
    ensures r.Failure? <==> Prop(request, "changes").Null?
    ensures r.Failure? ==> r.error == TypeError
    ensures r.Success? ==>
      Prop(request, "id") == Str(r.value.id) && OwnProps(Prop(request, "changes")) == Some(r.value.changes)
  {
    match OwnProps(Prop(request, "changes"))
    case None => Failure(TypeError)
    case Some(changes) => Success(Update(Prop(request, "id").s, changes))
  }

  /** The request of performOptimisticUpdate, or the error it throws before
      touching the state. */
  function ParseUpdate(update: Value): (r: Result<Update>)
    ensures r == Failure(InvalidArgument(UpdateArgMessage)) <==> !IsUpdateArg(update)
    ensures IsUpdateArg(update) ==> (r.Success? <==> !Prop(update, "changes").Null?)
    ensures r.Success? ==>
      Prop(update, "id") == Str(r.value.id) && OwnProps(Prop(update, "changes")) == Some(r.value.changes)
  {
    if !Truthy(update) || TypeOf(update) != ObjectType || !HasRequestShape(update) then
      Failure(InvalidArgument(UpdateArgMessage))
    else
      ReadRequest(update)
  }

  /** An element that passes the checks of the batch loop and whose
      `changes` is not null. */
  predicate IsRequest(element: Value)
  {
    TypeOf(element) == ObjectType && !element.Null? && HasRequestShape(element) && !Prop(element, "changes").Null?
  }

  /** One element of the batch of performManyOptimisticUpdates: its checks
      (`entity.id` throws a TypeError when the element is null), then the
      write through `state.entities[id]`, which throws for an unknown id. */
  function CheckElement(entities: Entities, element: Value): (r: Result<Update>)
    ensures r.Failure? ==> r.error in {InvalidArgument(ManyUpdateArgMessage), TypeError}
    ensures (r.Failure? && r.error == InvalidArgument(ManyUpdateArgMessage)) <==>
      (TypeOf(element) != ObjectType || (!element.Null? && !HasRequestShape(element)))
    ensures IsRequest(element) ==> (r.Success? <==> Prop(element, "id").s in entities)
    ensures r.Success? ==>
      && r.value.id in entities
      && Prop(element, "id") == Str(r.value.id)
      && OwnProps(Prop(element, "changes")) == Some(r.value.changes)
  {
    if TypeOf(element) != ObjectType then Failure(InvalidArgument(ManyUpdateArgMessage))
    else if element.Null? then Failure(TypeError)
    else if !HasRequestShape(element) then Failure(InvalidArgument(ManyUpdateArgMessage))
    else match ReadRequest(element)
      case Failure(e) => Failure(e)
      case Success(u) => if u.id in entities then Success(u) else Failure(TypeError)
  }

  /** Every element of the batch passes its checks. */
  predicate ValidBatch(entities: Entities, items: seq<Value>)
  {
    forall k :: 0 <= k < |items| ==> CheckElement(entities, items[k]).Success?
  }

  /** Element `k` is the first one whose checks throw. */
  predicate FirstFailure(entities: Entities, items: seq<Value>, k: int)
  {
    && 0 <= k < |items|
    && CheckElement(entities, items[k]).Failure?
    && forall j :: 0 <= j < k ==> CheckElement(entities, items[j]).Success?
  }

  /** The requests of a valid batch, in batch order. */
  function Requests(entities: Entities, items: seq<Value>): (batch: seq<Update>)
    requires ValidBatch(entities, items)
    ensures |batch| == |items|
    ensures forall k :: 0 <= k < |items| ==>
      && batch[k].id in entities
      && Prop(items[k], "id") == Str(batch[k].id)
      && OwnProps(Prop(items[k], "changes")) == Some(batch[k].changes)
  {
    seq(|items|, k requires 0 <= k < |items| => CheckElement(entities, items[k]).value)
  }

  // ---------------------------------------------------------------------
  // The four operations as functions of the state

  /** performOptimisticUpdate. */
  function ApplyOne(c: Collection, update: Value): (r: Result<Collection>)
    ensures r == Failure(InvalidArgument(UpdateArgMessage)) <==> !IsUpdateArg(update)
    ensures r.Success? <==> ParseUpdate(update).Success? && ParseUpdate(update).value.id in c.entities
    ensures r.Failure? && IsUpdateArg(update) ==> r.error == TypeError
    ensures r.Success? ==>
      var u := ParseUpdate(update).value;
      OnlyRecordChanged(c, u.id, r.value) && AppliedTo(c.entities[u.id], u.changes, r.value.entities[u.id])
  {
    match ParseUpdate(update)
    case Failure(e) => Failure(e)
    case Success(u) =>
      if u.id !in c.entities then Failure(TypeError)
      else Success(c.(entities := UpdateOne(c.entities[u.id := Stamp(c.entities[u.id], u.changes)], u)))
  }

  /** The loop of performManyOptimisticUpdates over `items`: the records
      with their snapshots written and the requests read, or the error of
      the first element that throws. */
  function StampBatch(entities: Entities, items: seq<Value>): (r: Result<(Entities, seq<Update>)>)
    ensures r.Success? ==> r.value.0.Keys == entities.Keys
    decreases |items|
  {
    if items == [] then Success((entities, []))
    else
      var last := items[|items| - 1];
      match StampBatch(entities, items[..|items| - 1])
      case Failure(e) => Failure(e)
      case Success((stamped, batch)) =>
        match CheckElement(stamped, last)
        case Failure(e) => Failure(e)
        case Success(u) => Success((stamped[u.id := Stamp(stamped[u.id], u.changes)], batch + [u]))
  }

  /** Only the ids of the records matter to the checks of an element. */
  lemma CheckElementReadsKeys(entities: Entities, entities': Entities, element: Value)
    requires entities.Keys == entities'.Keys
    ensures CheckElement(entities, element) == CheckElement(entities', element)
  {
  }

  /** The first failure of a prefix is the first failure of the whole. */
  lemma FirstFailureOfPrefix(entities: Entities, items: seq<Value>, n: nat, k: int)
    requires n <= |items|
    requires FirstFailure(entities, items[..n], k)
    ensures FirstFailure(entities, items, k)
  {
    assert items[..n][k] == items[k];
    assert forall j :: 0 <= j < k ==> items[..n][j] == items[j];
  }

  /** A valid prefix followed by an element that passes its checks. */
  lemma ValidBatchAppend(entities: Entities, items: seq<Value>)
    requires items != []
    requires ValidBatch(entities, items[..|items| - 1])
    requires CheckElement(entities, items[|items| - 1]).Success?
    ensures ValidBatch(entities, items)
    ensures
      Requests(entities, items) ==
        Requests(entities, items[..|items| - 1]) + [CheckElement(entities, items[|items| - 1]).value]
  {
    var n := |items|;
    assert forall j :: 0 <= j < n - 1 ==> items[..n - 1][j] == items[j];
  }

  /** A prefix whose last element fails its checks. */
  lemma FirstFailureAtEnd(entities: Entities, items: seq<Value>)
    requires items != []
    requires ValidBatch(entities, items[..|items| - 1])
    requires CheckElement(entities, items[|items| - 1]).Failure?
    ensures FirstFailure(entities, items, |items| - 1)
  {
    var n := |items|;
    assert forall j :: 0 <= j < n - 1 ==> items[..n - 1][j] == items[j];
  }

  /** The loop of performManyOptimisticUpdates runs to the end exactly when
      every element passes its checks, and then it has read every request in
      order; otherwise it throws the error of the first element that fails. */
  lemma {:induction false} StampBatchOutcome(entities: Entities, items: seq<Value>)
    ensures StampBatch(entities, items).Success? <==> ValidBatch(entities, items)
    ensures StampBatch(entities, items).Success? ==> StampBatch(entities, items).value.1 == Requests(entities, items)
    ensures StampBatch(entities, items).Failure? ==>
      exists k :: FirstFailure(entities, items, k) && StampBatch(entities, items).error == CheckElement(entities, items[k]).error
    decreases |items|
  {
    if items != [] {
      var n := |items|;
      var prefix := items[..n - 1];
      var last := items[n - 1];
      StampBatchOutcome(entities, prefix);
      var pre := StampBatch(entities, prefix);
      if pre.Failure? {
        var k :| FirstFailure(entities, prefix, k) && pre.error == CheckElement(entities, prefix[k]).error;
        FirstFailureOfPrefix(entities, items, n - 1, k);
        assert prefix[k] == items[k];
      } else {
        var stamped, batch := pre.value.0, pre.value.1;
        CheckElementReadsKeys(stamped, entities, last);
        var checked := CheckElement(entities, last);
        if checked.Failure? {
          FirstFailureAtEnd(entities, items);
        } else {
          ValidBatchAppend(entities, items);
        }
      }
    }
  }

  /** performManyOptimisticUpdates. */
  function ApplyMany(c: Collection, update: Value): (r: Result<Collection>)
    ensures !update.Arr? ==> r == Failure(InvalidArgument(ManyUpdateArgMessage))
    ensures update.Arr? ==> (r.Success? <==> ValidBatch(c.entities, update.items))
    ensures update.Arr? && r.Failure? ==>
      exists k :: FirstFailure(c.entities, update.items, k) && r.error == CheckElement(c.entities, update.items[k]).error
    ensures r.Success? ==> r.value.ids == c.ids && r.value.entities.Keys == c.entities.Keys
  {
    if !Truthy(update) || !update.Arr? then Failure(InvalidArgument(ManyUpdateArgMessage))
    else
      StampBatchOutcome(c.entities, update.items);
      match StampBatch(c.entities, update.items)
      case Failure(e) => Failure(e)
      case Success((stamped, batch)) => Success(c.(entities := UpdateMany(stamped, batch)))
  }

  /** `state?.entities[key]?.previousChanges`, when truthy, as the changes
      the adapter merges back. */
  function StoredSnapshot(entities: Entities, key: string): (r: Option<Fields>)
    ensures r.Some? <==> key in entities && Truthy(Lookup(entities[key], PreviousChangesKey))
    ensures r.Some? && entities[key][PreviousChangesKey].Obj? ==> r.value == entities[key][PreviousChangesKey].fields
  {
    if key !in entities || !Truthy(Lookup(entities[key], PreviousChangesKey)) then None
    else OwnProps(Lookup(entities[key], PreviousChangesKey))
  }

  /** performOptimisticUpdate's partner revertOptimisticUpdate. */
  function RevertOne(c: Collection, id: Value): (r: Result<Collection>)
    ensures r.Failure? <==> !id.Str?
    ensures r.Failure? ==> r.error == InvalidArgument(RevertIdMessage)
    ensures id.Str? && StoredSnapshot(c.entities, id.s).None? ==> r == Success(c)
    ensures id.Str? && StoredSnapshot(c.entities, id.s).Some? ==>
      && r.Success?
      && OnlyRecordChanged(c, id.s, r.value)
      && MergedInto(c.entities[id.s], StoredSnapshot(c.entities, id.s).value, r.value.entities[id.s])
  {
    if TypeOf(id) != StringType then Failure(InvalidArgument(RevertIdMessage))
    else match StoredSnapshot(c.entities, id.s)
      case None => Success(c)
      case Some(previousChanges) => Success(c.(entities := UpdateOne(c.entities, Update(id.s, previousChanges))))
  }

  /** The `ids.map(...).filter(Boolean)` of revertManyOptimisticUpdates: a
      merge-back request for each id, in order, that has a stored snapshot. */
  function RevertRequests(entities: Entities, ids: seq<Value>): (reqs: seq<Update>)
    ensures |reqs| <= |ids|
    ensures forall u :: u in reqs ==> StoredSnapshot(entities, u.id) == Some(u.changes)
    ensures forall u :: u in reqs ==> Names(ids, u.id)
    ensures reqs == [] <==> NothingStored(entities, ids)
  {
    if ids == [] then []
    else
      var key := ToPropertyKey(ids[0]);
      var rest := RevertRequests(entities, ids[1..]);
      match StoredSnapshot(entities, key)
      case None => rest
      case Some(changes) => [Update(key, changes)] + rest
  }

  /** No id of `ids` has a stored snapshot. */
  predicate NothingStored(entities: Entities, ids: seq<Value>)
  {
    forall k :: 0 <= k < |ids| ==> StoredSnapshot(entities, ToPropertyKey(ids[k])).None?
  }

  /** Some element of `ids` reads the record for `id`. */
  predicate Names(ids: seq<Value>, id: string)
  {
    exists k :: 0 <= k < |ids| && ToPropertyKey(ids[k]) == id
  }

  /** revertManyOptimisticUpdates. */
  function RevertMany(c: Collection, ids: Value): (r: Result<Collection>)
    ensures r.Failure? <==> !ids.Arr?
    ensures r.Failure? ==> r.error == InvalidArgument(RevertIdsMessage)
    ensures ids.Arr? && NothingStored(c.entities, ids.items) ==> r == Success(c)
    ensures r.Success? ==>
      && r.value.ids == c.ids
      && r.value.entities.Keys == c.entities.Keys
      && forall id :: id in c.entities && !Names(ids.items, id) ==> r.value.entities[id] == c.entities[id]
  {
    if !ids.Arr? then Failure(InvalidArgument(RevertIdsMessage))
    else
      var update := RevertRequests(c.entities, ids.items);
      if |update| == 0 then Success(c) else Success(c.(entities := UpdateMany(c.entities, update)))
  }

  // ---------------------------------------------------------------------
  // The state the helpers receive, changed in place

  /** One call into the entity adapter. */
  datatype AdapterCall = UpdateOneCall(request: Update) | UpdateManyCall(requests: seq<Update>)

  /** How a call ends: it returns, or it throws. */
  datatype Outcome = Returned | Threw(error: Error)

  function OutcomeOf(r: Result<Collection>): Outcome
  {
    if r.Success? then Returned else Threw(r.error)
  }

  /** The state a call leaves committed: a reducer that throws commits nothing. */
  function Committed(before: Collection, r: Result<Collection>): Collection
  {
    if r.Success? then r.value else before
  }

  lemma {:induction false} StampBatchFailureExtends(entities: Entities, items: seq<Value>, i: nat, e: Error)
    requires i <= |items|
    requires StampBatch(entities, items[..i]) == Failure(e)
    ensures StampBatch(entities, items) == Failure(e)
    decreases |items| - i
  {
    if i < |items| {
      assert items[..i + 1][..i] == items[..i];
      StampBatchFailureExtends(entities, items, i + 1, e);
    } else {
      assert items[..i] == items;
    }
  }

  class EntityState {
    var ids: seq<string>
    var entities: Entities
    /** The calls made into the entity adapter, oldest first. */
    ghost var calls: seq<AdapterCall>

    function Current(): Collection
      reads this
    {
      Collection(ids, entities)
    }

    /** `adapter.updateOne(state, u)`. */
    method AdapterUpdateOne(u: Update)
      modifies this
      ensures ids == old(ids) && entities == UpdateOne(old(entities), u)
      ensures calls == old(calls) + [UpdateOneCall(u)]
    {
      entities := UpdateOne(entities, u);
      calls := calls + [UpdateOneCall(u)];
    }

    /** `adapter.updateMany(state, batch)`. */
    method AdapterUpdateMany(batch: seq<Update>)
      modifies this
      ensures ids == old(ids) && entities == UpdateMany(old(entities), batch)
      ensures calls == old(calls) + [UpdateManyCall(batch)]
    {
      entities := UpdateMany(entities, batch);
      calls := calls + [UpdateManyCall(batch)];
    }

    method PerformOptimisticUpdate(update: Value) returns (r: Outcome)
      modifies this
      ensures r == OutcomeOf(ApplyOne(old(Current()), update))
      ensures Current() == Committed(old(Current()), ApplyOne(old(Current()), update))
      ensures calls == old(calls) + (if r.Returned? then [UpdateOneCall(ParseUpdate(update).value)] else [])
    {
      var parsed := ParseUpdate(update);
      if parsed.Failure? {
        return Threw(parsed.error);
      }
      var u := parsed.value;
      if u.id !in entities {
        // `state.entities[id]` is undefined: writing through it throws
        return Threw(TypeError);
      }
      entities := entities[u.id := Stamp(entities[u.id], u.changes)];
      AdapterUpdateOne(u);
      r := Returned;
    }

    method PerformManyOptimisticUpdates(update: Value) returns (r: Outcome)
      modifies this
      ensures r == OutcomeOf(ApplyMany(old(Current()), update))
      ensures Current() == Committed(old(Current()), ApplyMany(old(Current()), update))
      ensures calls == old(calls) + (if r.Returned? then [UpdateManyCall(Requests(old(entities), update.items))] else [])
    {
      if !Truthy(update) || !update.Arr? {
        return Threw(InvalidArgument(ManyUpdateArgMessage));
      }
      var items := update.items;
      var entry := entities;
      var batch: seq<Update> := [];
      for i := 0 to |items|
        invariant ids == old(ids) && calls == old(calls) && entry == old(entities)
        invariant StampBatch(entry, items[..i]) == Success((entities, batch))
      {
        assert items[..i + 1][..i] == items[..i];
        var checked := CheckElement(entities, items[i]);
        if checked.Failure? {
          StampBatchFailureExtends(entry, items, i + 1, checked.error);
          // the host store discards the draft of a reducer that throws
          entities := entry;
          return Threw(checked.error);
        }
        var u := checked.value;
        entities := entities[u.id := Stamp(entities[u.id], u.changes)];
        batch := batch + [u];
      }
      assert items[..|items|] == items;
      StampBatchOutcome(entry, items);
      AdapterUpdateMany(batch);
      r := Returned;
    }

    method RevertOptimisticUpdate(id: Value) returns (r: Outcome)
      modifies this
      ensures r == OutcomeOf(RevertOne(old(Current()), id))
      ensures Current() == Committed(old(Current()), RevertOne(old(Current()), id))
      ensures calls == old(calls) +
        (if id.Str? && StoredSnapshot(old(entities), id.s).Some?
         then [UpdateOneCall(Update(id.s, StoredSnapshot(old(entities), id.s).value))]
         else [])
    {
      if TypeOf(id) != StringType {
        return Threw(InvalidArgument(RevertIdMessage));
      }
      var previousChanges := StoredSnapshot(entities, id.s);
      if previousChanges.None? {
        return Returned;
      }
      AdapterUpdateOne(Update(id.s, previousChanges.value));
      r := Returned;
    }

    method RevertManyOptimisticUpdates(ids: Value) returns (r: Outcome)
      modifies this
      ensures r == OutcomeOf(RevertMany(old(Current()), ids))
      ensures Current() == Committed(old(Current()), RevertMany(old(Current()), ids))
      ensures calls == old(calls) +
        (if ids.Arr? && RevertRequests(old(entities), ids.items) != []
         then [UpdateManyCall(RevertRequests(old(entities), ids.items))]
         else [])
    {
      if !ids.Arr? {
        return Threw(InvalidArgument(RevertIdsMessage));
      }
      var update := RevertRequests(entities, ids.items);
      if |update| == 0 {
        return Returned;
      }
      AdapterUpdateMany(update);
      r := Returned;
    }
  }
}
