/**
  The `users` collection as the driver presents it. The driver and the database
  are not part of this model; the primitives below state what is assumed of them:
  `find`, `find_one`, `update_one` with `$set`, `delete_one`, `delete_many` and
  `insert_many`, each acting on the whole collection atomically.
*/
module Store {
  import opened Wrappers
  import opened ObjectIds
  import opened Values

  /** The collection: identifier to stored document. */
  type Table = map<ObjectId, Document>

  /** Every stored document carries its own key in `_id`, as an ObjectId. */
  ghost predicate ValidTable(t: Table) {
    forall id :: id in t ==> "_id" in t[id] && t[id]["_id"] == Oid(id)
  }

  /** `order` lists every key of `t` exactly once: the order of a full scan. */
  ghost predicate IsEnumeration(order: seq<ObjectId>, t: Table) {
    && Distinct(order)
    && (forall i :: 0 <= i < |order| ==> order[i] in t)
    && (forall id :: id in t ==> id in order)
  }

  /** A full scan visits as many documents as the collection holds. */
  lemma EnumerationSize(order: seq<ObjectId>, t: Table)
    requires IsEnumeration(order, t)
    ensures |order| == |t|
  {
    DistinctCardinality(order);
    assert (set x | x in order) == t.Keys;
  }

  /** `{"$set": fields}` applied to one document: a shallow overwrite of exactly the given top-level fields. */
  function SetFields(doc: Document, fields: Document): (r: Document)
    ensures r.Keys == doc.Keys + fields.Keys
    ensures forall f :: f in fields ==> r[f] == fields[f]
    ensures forall f :: f in doc && f !in fields ==> r[f] == doc[f]
  {
    doc + fields
  }

  /** The database refuses a `$set` that would give a document another `_id`. */
  predicate ChangesId(id: ObjectId, fields: Document) {
    "_id" in fields && fields["_id"] != Oid(id)
  }

  /** The documents of one `insert_many(batch)` call, each given the identifier the driver assigns it. */
  function Stamped(batch: seq<Document>, ids: seq<ObjectId>): (t: Table)
    requires |batch| <= |ids| && Distinct(ids)
    ensures forall j :: 0 <= j < |batch| ==> ids[j] in t && t[ids[j]] == batch[j]["_id" := Oid(ids[j])]
    ensures ValidTable(t)
  {
    map j | 0 <= j < |batch| :: ids[j] := batch[j]["_id" := Oid(ids[j])]
  }

  /** A prefix of a sequence without repetitions has none either. */
  lemma DistinctPrefix<T>(s: seq<T>, n: nat)
    requires n <= |s| && Distinct(s)
    ensures Distinct(s[..n])
  {
    forall i, j | 0 <= i < j < n ensures s[..n][i] != s[..n][j] {
      assert s[..n][i] == s[i] && s[..n][j] == s[j];
    }
  }

  /** One `insert_many` call adds exactly the identifiers it uses, as many as its batch has documents. */
  lemma StampedKeys(batch: seq<Document>, ids: seq<ObjectId>)
    requires |batch| <= |ids| && Distinct(ids)
    ensures Stamped(batch, ids).Keys == set x | x in ids[..|batch|]
    ensures |Stamped(batch, ids)| == |batch|
  {
    var used := ids[..|batch|];
    var t := Stamped(batch, ids);
    assert t.Keys == set x | x in used by {
      forall x | x in used ensures x in t {
        var j :| 0 <= j < |used| && used[j] == x;
        assert ids[j] == x;
      }
    }
    DistinctPrefix(ids, |batch|);
    DistinctCardinality(used);
  }

  /** A dict handed out by the driver: a fresh copy of a stored document that its holder may change. */
  class Doc {
    var fields: Document

    constructor (fields: Document)
      ensures this.fields == fields
    {
      this.fields := fields;
    }
  }

  /** The process-wide collection handle. */
  class Collection {
    var docs: Table

    ghost predicate Valid()
      reads this
    {
      ValidTable(docs)
    }

    constructor ()
      ensures Valid() && docs == map[]
    {
      docs := map[];
    }

    /** `find()`: a cursor over fresh copies of every document, in an order the store chooses. */
    method Find() returns (cursor: seq<Doc>, ghost order: seq<ObjectId>)
      ensures IsEnumeration(order, docs)
      ensures |cursor| == |order|
      ensures forall i :: 0 <= i < |cursor| ==> fresh(cursor[i]) && cursor[i].fields == docs[order[i]]
      ensures Distinct(cursor)
    {
      cursor, order := [], [];
      var rest := docs.Keys;
      while rest != {}
        invariant rest <= docs.Keys
        invariant Distinct(order)
        invariant forall i :: 0 <= i < |order| ==> order[i] in docs && order[i] !in rest
        invariant forall id :: id in docs ==> id in rest || id in order
        invariant |cursor| == |order|
        invariant forall i :: 0 <= i < |cursor| ==> fresh(cursor[i]) && cursor[i].fields == docs[order[i]]
        invariant Distinct(cursor)
        decreases rest
      {
        var id :| id in rest;
        var d := new Doc(docs[id]);
        cursor, order := cursor + [d], order + [id];
        rest := rest - {id};
      }
    }

    /** `find_one({"_id": id})`: a fresh copy of the matching document, or `None`. */
    method FindOne(id: ObjectId) returns (d: Doc?)
      ensures d != null <==> id in docs
      ensures d != null ==> fresh(d) && d.fields == docs[id]
    {
      if id in docs {
        d := new Doc(docs[id]);
      } else {
        d := null;
      }
    }

    /** `update_one({"_id": id}, {"$set": fields})`: the matched count, or the store's refusal. */
    method UpdateOne(id: ObjectId, fields: Document) returns (matched: Result<nat, Exception>)
      requires Valid()
      modifies this
      ensures Valid()
      ensures id !in old(docs) ==> matched == Success(0) && docs == old(docs)
      ensures id in old(docs) && ChangesId(id, fields) ==> matched == Failure(WriteError) && docs == old(docs)
      ensures id in old(docs) && !ChangesId(id, fields) ==>
        matched == Success(1) && docs == old(docs)[id := SetFields(old(docs)[id], fields)]
    {
      if id !in docs {
        matched := Success(0);
      } else if ChangesId(id, fields) {
        matched := Failure(WriteError);
      } else {
        docs := docs[id := SetFields(docs[id], fields)];
        matched := Success(1);
      }
    }

    /** `delete_one({"_id": id})`: the deleted count. */
    method DeleteOne(id: ObjectId) returns (deleted: nat)
      requires Valid()
      modifies this
      ensures Valid()
      ensures deleted == (if id in old(docs) then 1 else 0)
      ensures docs == old(docs) - {id}
    {
      deleted := if id in docs then 1 else 0;
      docs := docs - {id};
    }

    /** `delete_many({})`. */
    method DeleteMany()
      modifies this
      ensures Valid() && docs == map[]
    {
      docs := map[];
    }

    /**
      `insert_many(batch)`. The driver refuses an empty list; it gives every document
      without an `_id` a fresh identifier, here the next one of `ids`.
    */
    method InsertMany(batch: seq<Document>, ids: seq<ObjectId>)
      requires Valid()
      requires |batch| > 0
      requires |batch| <= |ids| && Distinct(ids)
      requires forall j :: 0 <= j < |batch| ==> "_id" !in batch[j] && ids[j] !in docs
      modifies this
      ensures Valid()
      ensures docs == old(docs) + Stamped(batch, ids)
    {
      docs := docs + Stamped(batch, ids);
    }
  }
}
