/** The remote document store, document path to record, and the three
    calls the scripts make on it: `set`, `get` and `delete` on
    `db.collection(c).doc(k)`. A collection has no existence of its own: it
    is the set of documents whose path names it. */
module Store {
  import opened Values

  /** The path `collection/key` of a document. */
  datatype DocRef = DocRef(coll: string, key: string)

  type Db = map<DocRef, Record>

  /** What `db.collection(c).doc(k).get()` finds. */
  function Lookup(db: Db, c: string, k: string): Option<Record>
  {
    if DocRef(c, k) in db then Some(db[DocRef(c, k)]) else None
  }

  /** `set(r)`: the document becomes exactly `r` (overwrite, not merge) and
      no other document changes. */
  function Put(db: Db, c: string, k: string, r: Record): (db': Db)
    ensures forall c2, k2 :: Lookup(db', c2, k2) == if c2 == c && k2 == k then Some(r) else Lookup(db, c2, k2)
  {
    db[DocRef(c, k) := r]
  }

  /** `delete()`: the document is gone and no other document changes;
      deleting a missing document changes nothing. */
  function Remove(db: Db, c: string, k: string): (db': Db)
    ensures forall c2, k2 :: Lookup(db', c2, k2) == if c2 == c && k2 == k then None else Lookup(db, c2, k2)
  {
    db - {DocRef(c, k)}
  }

  /** Two stores that answer every lookup alike are the same store. */
  lemma {:induction false} SameStore(a: Db, b: Db)
    requires forall c, k :: Lookup(a, c, k) == Lookup(b, c, k)
    ensures a == b
  {
    forall d | d in a
      ensures d in b && a[d] == b[d]
    {
      assert Lookup(a, d.coll, d.key) == Lookup(b, d.coll, d.key);
    }
    forall d | d in b
      ensures d in a
    {
      assert Lookup(a, d.coll, d.key) == Lookup(b, d.coll, d.key);
    }
  }

  /** Writing the same record under the same key twice leaves the store as
      writing it once. */
  lemma PutTwice(db: Db, c: string, k: string, r: Record)
    ensures Put(Put(db, c, k, r), c, k, r) == Put(db, c, k, r)
  {
    SameStore(Put(Put(db, c, k, r), c, k, r), Put(db, c, k, r));
  }

  /** A request sent to the store. */
  datatype Op =
    | SetOp(coll: string, key: string, doc: Record)
    | GetOp(coll: string, key: string)
    | DeleteOp(coll: string, key: string)

  /** Which requests the remote store refuses (network, quota, permission,
      invalid document path): an input of the model. */
  type Faults = Op -> bool

  /** A request fails when the environment refuses it; besides, the store
      refuses to `set` a document that holds `undefined` as a field value. */
  predicate Rejected(faults: Faults, op: Op)
  {
    faults(op) || (op.SetOp? && Undefined in op.doc.Values)
  }

  /** The outcome of `get()`: a snapshot (present or absent), or a failure. */
  datatype Fetch = Fetched(snapshot: Option<Record>) | FetchFailed

  /** The store handle `admin.firestore()`: the documents it holds change in
      place under `set` and `delete`. */
  class Firestore {
    var db: Db
    const faults: Faults

    constructor (db0: Db, faults: Faults)
      ensures db == db0 && this.faults == faults
    {
      db := db0;
      this.faults := faults;
    }

    /** `db.collection(c).doc(k).set(r)`. */
    method Set(c: string, k: string, r: Record) returns (ok: bool)
      modifies this
      ensures ok <==> !Rejected(faults, SetOp(c, k, r))
      ensures ok ==> db == Put(old(db), c, k, r)
      ensures !ok ==> db == old(db)
    {
      ok := !Rejected(faults, SetOp(c, k, r));
      if ok {
        db := Put(db, c, k, r);
      }
    }

    /** `db.collection(c).doc(k).get()`. */
    method Get(c: string, k: string) returns (f: Fetch)
      ensures Rejected(faults, GetOp(c, k)) ==> f == FetchFailed
      ensures !Rejected(faults, GetOp(c, k)) ==> f == Fetched(Lookup(db, c, k))
    {
      if Rejected(faults, GetOp(c, k)) {
        f := FetchFailed;
      } else {
        f := Fetched(Lookup(db, c, k));
      }
    }

    /** `db.collection(c).doc(k).delete()`. */
    method Delete(c: string, k: string) returns (ok: bool)
      modifies this
      ensures ok <==> !Rejected(faults, DeleteOp(c, k))
      ensures ok ==> db == Remove(old(db), c, k)
      ensures !ok ==> db == old(db)
    {
      ok := !Rejected(faults, DeleteOp(c, k));
      if ok {
        db := Remove(db, c, k);
      }
    }
  }
}
