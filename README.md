# Optimistic updates for a normalised entity collection

This project is a Dafny model of the four helpers in `src/index.js`. They apply an optimistic change to records of a
Redux Toolkit entity collection, and they roll that change back later. The collection is the slice state: an ordered
list of `ids` and a map `entities` from id to record.

- `performOptimisticUpdate` checks an `{ id, changes }` request. It writes a rollback snapshot into the record's
  `previousChanges` field. For each key of `changes`, the snapshot holds the record's current value there, or
  `undefined` where the record lacks the key. It then hands the request to the entity adapter's `updateOne`.
- `performManyOptimisticUpdates` checks and snapshots the elements of an array one by one, in a loop. It then hands
  the whole batch to `updateMany`.
- `revertOptimisticUpdate` and `revertManyOptimisticUpdates` read the stored snapshots. They merge them back through
  the adapter and leave `previousChanges` in place.

The model has five modules:

- `JsValue` (`js_value.dfy`) models the JavaScript values the helpers inspect. It covers `typeof`, truthiness,
  property reads, `Object.keys` and the conversion of a value to a property key.
- `EntityAdapter` (`entity_adapter.dfy`) models the two adapter operations the helpers call. Both are pure
  functions: `updateOne` is a shallow merge into an existing record, and `updateMany` is its left fold.
- `Optimistic` (`optimistic.dfy`) holds the four helpers in two forms:
  - pure functions of the collection (`ApplyOne`, `ApplyMany`, `RevertOne`, `RevertMany`), returning the new
    collection or the error thrown;
  - a class `EntityState` that updates `ids` and `entities` in place and logs its adapter calls. Its methods are
    proved against those functions. The batch method keeps the source's loop, with its invariants.
- `OptimisticProperties` (`properties.dfy`) proves what the helpers promise across calls:
  - apply then revert restores the changed fields;
  - reverting twice is reverting once;
  - a second apply replaces the snapshot;
  - a batch merges each record's own changes in array order;
  - a batch snapshots every record before merging;
  - a batch revert is the single reverts done in order.
- `OptimisticScenarios` (`scenarios.dfy`) works through the behaviour in `test/index.test.js` on concrete records.

A call that throws is a `Failure`. It carries either the helper's own error, with the exact message text of the
source, or `TypeError` for a runtime fault in the JavaScript. The host store discards the draft of a reducer that
throws. So for a failing call the class methods restore the state they started from, and `Committed` is that state.

Where the code and its intended contract differ, the model follows the code:

- **Unknown id in an apply.** An apply whose id names no record throws a `TypeError`. It does not leave the
  collection unchanged. `state.entities[id].previousChanges = …` dereferences `undefined` (src/index.js:18 and
  src/index.js:44).
- **Absent key on revert.** A key the record lacked before the apply comes back from the revert holding `undefined`.
  The key is not removed.

## Model

| member | source | states |
|---|---|---|
| JsValue.OwnProps | src/index.js:18 | `Object.keys` throws exactly for `undefined` and `null`; for a plain object it lists that object's own fields |
| EntityAdapter.UpdateOne | src/index.js:23 | `updateOne` keeps the set of record ids; an unknown id leaves the records exactly as they were; for a known id, every key of `changes` takes its new value on that record, its other fields stay, and every other record is unchanged |
| EntityAdapter.UpdateMany | src/index.js:50 | `updateMany` keeps the set of record ids and leaves every record no request targets unchanged |
| EntityAdapter.UpdateManyPerEntity | src/index.js:50 | `updateMany` changes each record by merging that record's own requests in batch order, whatever the other requests are |
| Optimistic.ReadRequest | src/index.js:12-18 | reading `{ id, changes }` after the shape check fails with a `TypeError` exactly when `changes` is `null`; otherwise it yields the string id and the own fields of `changes` |
| Optimistic.ParseUpdate | src/index.js:7-15 | the fixed "Incorrect `update` arg" error is thrown exactly when `update` is falsy, not an object, or has a non-string `id` or non-object `changes`; otherwise the request is read, failing only for `changes: null` |
| Optimistic.CheckElement | src/index.js:39-47 | a batch element throws the fixed batch error exactly when it is not an object, or is a non-null object without a string `id` and object `changes`; a `null` element, `changes: null` or an unknown id throws a `TypeError`; a request that passes names an existing record |
| Optimistic.Requests | src/index.js:38-43 | a valid batch yields one request per element, in array order: request k names an existing record, and carries element k's string `id` and the own fields of element k's `changes` |
| Optimistic.ApplyOne | src/index.js:6-24 | throws the fixed error exactly when the argument checks fail, and a `TypeError` for `changes: null` or an unknown id; on success only the target record changes: every key of `changes` takes its new value, the other fields stay, and `previousChanges` holds exactly the changed keys with their old values, or `undefined` where they were absent |
| Optimistic.StampBatch | src/index.js:38-48 | the snapshot loop, when it runs to the end, keeps the set of record ids |
| Optimistic.CheckElementReadsKeys | src/index.js:39-44 | the checks of an element depend on which records exist, not on their contents, so snapshots written earlier in the loop do not change them |
| Optimistic.StampBatchOutcome | src/index.js:38-48 | the loop runs to the end exactly when every element passes its checks, and then it has read every request in array order; otherwise it throws the error of the first element that fails |
| Optimistic.ApplyMany | src/index.js:31-51 | a non-array argument throws the fixed batch error; for an array the call succeeds exactly when every element is valid, else it throws the first failing element's error; success keeps `ids` and the set of records |
| Optimistic.StoredSnapshot | src/index.js:63-64 | a snapshot is found exactly when the record exists and its `previousChanges` is truthy; an object snapshot gives its fields |
| Optimistic.RevertOne | src/index.js:58-70 | a non-string id throws the fixed error; with no stored snapshot the state is unchanged; otherwise only that record changes, with the snapshot merged into it |
| Optimistic.RevertRequests | src/index.js:83-87 | the `map`/`filter(Boolean)` makes no more requests than there are ids; each request carries the snapshot stored for an id of the list; it is empty exactly when no id has a snapshot |
| OptimisticProperties.RevertRequestsComplete | src/index.js:83-87 | no stored snapshot is skipped: every id of the list whose record holds one gets the request merging that snapshot back |
| OptimisticProperties.RevertRequestsAppend | src/index.js:83-87 | the requests follow the order of the list: those of a concatenation are the requests of the first part, then those of the second |
| Optimistic.RevertMany | src/index.js:78-92 | a non-array argument throws the fixed error; when no id has a snapshot the state is unchanged; success keeps `ids`, the set of records, and every record no id names |
| Optimistic.StampBatchFailureExtends | src/index.js:38-41 | once an element of the loop throws, the whole call throws that error, whatever follows it |
| Optimistic.EntityState.AdapterUpdateOne | src/index.js:23 | the in-place `updateOne` leaves the state `UpdateOne` gives and logs the call |
| Optimistic.EntityState.AdapterUpdateMany | src/index.js:50 | the in-place `updateMany` leaves the state `UpdateMany` gives and logs the call |
| Optimistic.EntityState.PerformOptimisticUpdate | src/index.js:6-24 | the in-place helper returns or throws as `ApplyOne` says, commits `ApplyOne`'s state (nothing on a throw) and calls `updateOne` once, only on success |
| Optimistic.EntityState.PerformManyOptimisticUpdates | src/index.js:31-51 | the loop writes each snapshot in place and keeps the state equal to the snapshot loop over the elements seen so far; the method returns or throws as `ApplyMany` says, commits its state and calls `updateMany` once with the batch, only on success |
| Optimistic.EntityState.RevertOptimisticUpdate | src/index.js:58-70 | the in-place revert returns or throws as `RevertOne` says, commits its state and calls `updateOne` only when a snapshot is stored |
| Optimistic.EntityState.RevertManyOptimisticUpdates | src/index.js:78-92 | the in-place batch revert returns or throws as `RevertMany` says, commits its state and calls `updateMany` only when some id has a snapshot |
| OptimisticProperties.ApplyThenRevertRestores | src/index.js:63-69 | a revert straight after an apply puts every changed field back to its old value (`undefined` where it was absent), keeps the other fields and the snapshot, and changes no other record and not `ids` |
| OptimisticProperties.RevertLeavesAbsentKeyUndefined | src/index.js:19 | when the request does not write `previousChanges`, a key the record lacked before the apply is still on the record after the revert, holding `undefined` |
| OptimisticProperties.RevertOneIdempotent | src/index.js:63-69 | reverting twice gives the state of reverting once, when the snapshot does not itself hold `previousChanges` |
| OptimisticProperties.SecondApplyReplacesSnapshot | src/index.js:18 | when the second request does not write `previousChanges`, a second apply to the same record replaces the snapshot: it has the second request's keys only, holding the values the first apply wrote where it wrote them and the original values elsewhere |
| OptimisticProperties.StampBatchPerEntity | src/index.js:44-47 | when no request writes `previousChanges`, after the loop a record carries the snapshot of the last request that targets it, taken against the record as it was before the batch |
| OptimisticProperties.ApplyManyPerEntity | src/index.js:38-50 | after a valid batch whose requests do not write `previousChanges`, a record no request targets is unchanged; a targeted record has all its changes merged in array order and the snapshot, taken before the batch, for the keys of its last request |
| OptimisticProperties.StampBatchOffSnapshot | src/index.js:44-47 | whatever the requests hold, the snapshot loop writes no field of a record other than `previousChanges` |
| OptimisticProperties.ApplyManyMergesInOrder | src/index.js:38-50 | after any valid batch, every field of a record other than `previousChanges` is what merging that record's own changes in array order makes of it |
| OptimisticProperties.ApplyManyDistinctRecord | src/index.js:44-50 | in a batch that targets each record once and does not write `previousChanges`, a targeted record ends as its changes merged in plus the snapshot of its old values |
| OptimisticProperties.ApplyManyStoresSnapshots | src/index.js:44-47 | after a batch that targets each record once and does not write `previousChanges`, every request's record holds the snapshot of its values before the batch |
| OptimisticProperties.RevertManyOfBatch | src/index.js:83-91 | reverting the ids of a batch whose records all hold a snapshot hands `updateMany` one merge-back per id, in order |
| OptimisticProperties.RevertManyDistinct | src/index.js:83-91 | reverting the ids of distinct records that hold snapshots merges each snapshot into its own record and leaves the other records unchanged |
| OptimisticProperties.ApplyManyThenRevertManyRestores | src/index.js:83-91 | a batch revert with the ids of a batch that targets each record once restores every changed field, keeps the snapshots, and leaves `ids` and the other records as they were before the batch |
| OptimisticProperties.RevertOneKeepsSnapshots | src/index.js:66-69 | a revert leaves every stored snapshot readable as before, when no snapshot holds `previousChanges` |
| OptimisticProperties.RevertManyIsRevertOneInOrder | src/index.js:83-91 | reading every snapshot first and merging them in one `updateMany` gives the same state as reverting each id in list order, when no snapshot holds `previousChanges` |
| OptimisticScenarios.UnknownRecordLeavesStateEmpty | test/index.test.js:10-24 | an update of "foo" in the empty collection throws a `TypeError` and commits nothing, and the revert that follows finds no snapshot, so the collection stays empty |
| OptimisticScenarios.OneFieldUpdate | test/index.test.js:26-55 | Bob, aged 20, becomes aged 21, with `previousChanges` `{ age: 20 }` |
| OptimisticScenarios.TwoFieldUpdate | test/index.test.js:59-90 | Jim, aged 32, becomes James, aged 33, with `previousChanges` `{ name: "Jim", age: 32 }` |
| OptimisticScenarios.OneFieldRevert | src/index.js:63-69 | reverting Bob's update brings back age 20 and keeps the snapshot |
| OptimisticScenarios.AbsentKeyRevertsToUndefined | src/index.js:19 | adding `eyes` to Bob and reverting leaves `eyes: undefined` on the record |

## Left out

- Immer drafts and proxies are not modelled. The state is a plain value: the class updates its fields in place, and
  the functions return the new collection.
- The asynchronous thunk lifecycle, the store and its middleware in `test/util.js` are left out. They are host
  plumbing with no logic of their own. The one part the tests rely on, that a reducer which throws commits nothing,
  is modelled by `Committed` and by the class methods restoring their starting state.
- The entity adapter's internals are left out. `updateOne` and `updateMany` are shallow merges of `changes` into an
  existing record. The model assumes each merged record's `id` field equals its key. The adapter re-keys a record
  whose merged `id` differs from the request's id, and it may re-sort `ids`; neither is modelled, because Redux
  Toolkit is not part of this model.
- Numbers are integers. Floating point, `NaN` and `-0` are not modelled.
- Symbols, functions, getters, prototype chains and inherited keys such as `constructor` are not modelled. A record
  has only its own fields, so `state.entities[id]` finds a record exactly when `id` is one of its keys.
- Property insertion order is not modelled. Records and snapshots are maps, so `toStrictEqual`'s key order plays no
  part.
- `revertManyOptimisticUpdates` passes each `ids` element to the adapter as it is. The model passes the property key
  the element is read with, which is where the adapter writes.
- OptimisticProperties.ApplyThenRevertRestores: assumes the request does not write `previousChanges` itself. Such a
  request would overwrite the snapshot before the revert reads it.
- OptimisticProperties.RevertOneIdempotent: assumes the stored snapshot does not hold `previousChanges`, for the same
  reason.
- OptimisticProperties.ApplyManyThenRevertManyRestores: assumes no request of the batch writes `previousChanges`, for
  the same reason.
- OptimisticProperties.ApplyManyThenRevertManyRestores: also assumes each record appears in the batch at most once. With
  repeated ids, only the last request's keys are snapshotted, as ApplyManyPerEntity states, so earlier requests'
  other keys are not rolled back.
- OptimisticProperties.RevertManyIsRevertOneInOrder: assumes no stored snapshot holds `previousChanges`. Otherwise an
  earlier revert could replace a snapshot that the batch revert has already read.
- OptimisticProperties.RevertLeavesAbsentKeyUndefined: assumes the request does not write `previousChanges`. Such a
  request overwrites the snapshot with its own value, and the revert merges back that value instead.
- OptimisticProperties.SecondApplyReplacesSnapshot: assumes the second request does not write `previousChanges`. Such a
  request overwrites the snapshot it has just written, so no snapshot of the second apply survives.
- OptimisticProperties.StampBatchPerEntity: assumes no request of the batch writes `previousChanges`. The stamp for such a
  request snapshots the record's current `previousChanges`, which may be a stamp written earlier in the loop rather
  than a value from before the batch. StampBatchOffSnapshot states what holds without the condition.
- OptimisticProperties.ApplyManyPerEntity: assumes no request of the batch writes `previousChanges`. Such a request
  replaces the snapshot when `updateMany` merges it. The merge half holds without the condition and is stated by
  ApplyManyMergesInOrder.
- OptimisticProperties.ApplyManyDistinctRecord: assumes no request of the batch writes `previousChanges`, for the same
  reason. ApplyManyMergesInOrder states the other fields without the condition.
- OptimisticProperties.ApplyManyStoresSnapshots: assumes no request of the batch writes `previousChanges`, for the same
  reason.
- Optimistic.StampBatch: states only that the loop keeps the set of record ids. Its outcome and per-record effect are
  stated by StampBatchOutcome and by StampBatchPerEntity.
