/**
 * A document collection as each service's record store holds it: documents keyed by their id,
 * together with the natural order in which they were inserted (the order an unsorted `find`
 * returns them in).
 */
module Collections {
  import opened Wrappers

  type Id = string

  /** The ways a store write can be refused. */
  datatype DbError =
    | DuplicateKey(key: Id)   // inserting a new document whose _id is already taken
    | VersionError(key: Id)   // an optimistic-concurrency save whose version no longer matches
    | ValidationError         // a schema rule (required field, minimum) is violated

  datatype Collection<R> = Collection(ids: seq<Id>, docs: map<Id, R>) {
    /** Every stored id appears exactly once in the insertion order, and nothing else does. */
    predicate Valid() {
      && (forall i, j :: 0 <= i < j < |ids| ==> ids[i] != ids[j])
      && (forall id :: id in docs ==> id in ids)
      && (forall id :: id in ids ==> id in docs)
    }
  }

  function Empty<R>(): (c: Collection<R>)
    ensures c.Valid() && c.docs == map[] && c.ids == []
  {
    Collection([], map[])
  }

  /** `findById`: the stored document, if any. */
  function FindById<R>(c: Collection<R>, id: Id): (r: Option<R>)
    ensures r.Some? <==> id in c.docs
    ensures r.Some? ==> r.value == c.docs[id]
  {
    if id in c.docs then Some(c.docs[id]) else None
  }

  /**
   * `findOne({ _id: id, version: version - 1 })`: the document stored under `id` only if its
   * version is the one just before `version`, so that events are applied in version order.
   */
  function FindPrevious<R>(c: Collection<R>, versionOf: R -> int, id: Id, version: int): (r: Option<R>)
    ensures r.Some? <==> id in c.docs && versionOf(c.docs[id]) == version - 1
    ensures r.Some? ==> r.value == c.docs[id]
  {
    if id in c.docs && versionOf(c.docs[id]) == version - 1 then Some(c.docs[id]) else None
  }

  /** Saving a new document: appended to the natural order, refused if its _id is taken. */
  function Insert<R>(c: Collection<R>, id: Id, r: R): (res: Result<Collection<R>, DbError>)
    requires c.Valid()
    ensures res.Failure? <==> id in c.docs
    ensures res.Failure? ==> res.error == DuplicateKey(id)
    ensures res.Success? ==> res.value.Valid()
    ensures res.Success? ==> res.value.ids == c.ids + [id] && res.value.docs == c.docs[id := r]
  {
    if id in c.docs then Failure(DuplicateKey(id))
    else Success(Collection(c.ids + [id], c.docs[id := r]))
  }

  /** Saving an existing document: its content changes, its place in the natural order does not. */
  function Replace<R>(c: Collection<R>, id: Id, r: R): (c': Collection<R>)
    requires c.Valid() && id in c.docs
    ensures c'.Valid() && c'.ids == c.ids && c'.docs == c.docs[id := r]
  {
    Collection(c.ids, c.docs[id := r])
  }

  /** `find(filter)`: the documents satisfying the filter, in natural order. */
  function Find<R>(c: Collection<R>, p: R -> bool): seq<(Id, R)>
    requires c.Valid()
  {
    FindIn(c.ids, c.docs, p)
  }

  function FindIn<R>(ids: seq<Id>, docs: map<Id, R>, p: R -> bool): seq<(Id, R)>
    requires forall id :: id in ids ==> id in docs
  {
    if ids == [] then []
    else
      var id := ids[0];
      (if p(docs[id]) then [(id, docs[id])] else []) + FindIn(ids[1..], docs, p)
  }

  lemma {:induction false} FindInMembership<R>(ids: seq<Id>, docs: map<Id, R>, p: R -> bool, x: (Id, R))
    requires forall id :: id in ids ==> id in docs
    ensures x in FindIn(ids, docs, p) <==> x.0 in ids && x.1 == docs[x.0] && p(x.1)
  {
    if ids != [] {
      FindInMembership(ids[1..], docs, p, x);
      assert forall id :: id in ids <==> id == ids[0] || id in ids[1..];
    }
  }

  /** What `find` returns is exactly the stored documents that satisfy the filter. */
  lemma FindMembership<R>(c: Collection<R>, p: R -> bool, x: (Id, R))
    requires c.Valid()
    ensures x in Find(c, p) <==> x.0 in c.docs && x.1 == c.docs[x.0] && p(x.1)
  {
    FindInMembership(c.ids, c.docs, p, x);
  }

  lemma {:induction false} FindInAppend<R>(ids: seq<Id>, id: Id, docs: map<Id, R>, p: R -> bool)
    requires forall i :: i in ids ==> i in docs
    requires id in docs
    ensures FindIn(ids + [id], docs, p)
         == FindIn(ids, docs, p) + (if p(docs[id]) then [(id, docs[id])] else [])
  {
    if ids == [] {
      assert ids + [id] == [id];
    } else {
      assert (ids + [id])[1..] == ids[1..] + [id];
      FindInAppend(ids[1..], id, docs, p);
    }
  }

  lemma {:induction false} FindInFrame<R>(ids: seq<Id>, docs: map<Id, R>, docs': map<Id, R>, p: R -> bool)
    requires forall i :: i in ids ==> i in docs && i in docs' && docs[i] == docs'[i]
    ensures FindIn(ids, docs, p) == FindIn(ids, docs', p)
  {
    if ids != [] {
      FindInFrame(ids[1..], docs, docs', p);
    }
  }

  /**
   * Natural order is creation order: after inserting a document, `find` returns what it
   * returned before, followed by the new document if it matches.
   */
  lemma FindAfterInsert<R>(c: Collection<R>, id: Id, r: R, p: R -> bool)
    requires c.Valid() && id !in c.docs
    ensures Insert(c, id, r).Success?
    ensures Find(Insert(c, id, r).value, p) == Find(c, p) + (if p(r) then [(id, r)] else [])
  {
    var c' := Insert(c, id, r).value;
    FindInFrame(c.ids, c.docs, c'.docs, p);
    FindInAppend(c.ids, id, c'.docs, p);
  }
}
