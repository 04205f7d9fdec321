/** The two collection operations the helpers delegate to, as the entity
    adapter performs them on a plain collection: a shallow merge of
    `changes` into one existing record, and the left fold of that merge
    over a batch. */
module EntityAdapter {
  import opened JsValue

  /** `{ id, changes }` as the adapter reads it. */
  datatype Update = Update(id: string, changes: Fields)

  /** The records of a collection by id. */
  type Entities = map<string, Fields>

  /** `Object.assign(record, changes)`: every key of `changes` takes its
      value there, every other key keeps its value. */
  function Merge(record: Fields, changes: Fields): Fields
  {
    record + changes
  }

  /** `after` is `before` with `changes` shallowly merged in. */
  predicate MergedInto(before: Fields, changes: Fields, after: Fields)
  {
    && after.Keys == before.Keys + changes.Keys
    && (forall k :: k in changes ==> after[k] == changes[k])
    && (forall k :: k in before && k !in changes ==> after[k] == before[k])
  }

  /** `updateOne`: merges into the record for `u.id`; an unknown id leaves
      the records as they are. */
  function UpdateOne(entities: Entities, u: Update): (r: Entities)
    ensures r.Keys == entities.Keys
    ensures u.id !in entities ==> r == entities
    ensures u.id in entities ==> MergedInto(entities[u.id], u.changes, r[u.id])
    ensures forall id :: id in entities && id != u.id ==> r[id] == entities[id]
  {
    if u.id in entities then entities[u.id := Merge(entities[u.id], u.changes)] else entities
  }

  /** Some request of `batch` targets `id`. */
  predicate Targets(batch: seq<Update>, id: string)
  {
    exists k :: 0 <= k < |batch| && batch[k].id == id
  }

  /** `updateMany`: `updateOne` for each request, first to last. */
  function UpdateMany(entities: Entities, batch: seq<Update>): (r: Entities)
    ensures r.Keys == entities.Keys
    ensures forall id :: id in entities && !Targets(batch, id) ==> r[id] == entities[id]
  {
    if batch == [] then entities else UpdateMany(UpdateOne(entities, batch[0]), batch[1..])
  }

  /** The `changes` of the requests in `batch` that target `id`, in batch order. */
  function ChangesFor(batch: seq<Update>, id: string): seq<Fields>
  {
    if batch == [] then []
    else (if batch[0].id == id then [batch[0].changes] else []) + ChangesFor(batch[1..], id)
  }

  /** `record` with each of `chs` merged into it, first to last. */
  function MergeAll(record: Fields, chs: seq<Fields>): Fields
    decreases |chs|
  {
    if chs == [] then record else MergeAll(Merge(record, chs[0]), chs[1..])
  }

  /** What `updateMany` does to one record: it merges that record's own
      requests in batch order, whatever the others are. */
  lemma {:induction false} UpdateManyPerEntity(entities: Entities, batch: seq<Update>, id: string)
    requires id in entities
    ensures UpdateMany(entities, batch)[id] == MergeAll(entities[id], ChangesFor(batch, id))
  {
    if batch != [] {
      var next := UpdateOne(entities, batch[0]);
      UpdateManyPerEntity(next, batch[1..], id);
      var rest := ChangesFor(batch[1..], id);
      if batch[0].id == id {
        assert ChangesFor(batch, id) == [batch[0].changes] + rest;
        assert ([batch[0].changes] + rest)[1..] == rest;
      } else {
        assert ChangesFor(batch, id) == rest;
      }
    }
  }
}
