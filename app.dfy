/**
  The HTTP resource handlers for `/api/users`. Each handler is given as a
  specification function on the collection's contents and as a method that makes
  the same driver calls as the route, proved to agree with it.
*/
module App {
  import opened Wrappers
  import opened ObjectIds
  import opened Values
  import opened Store

  const NotFoundMessage := "User not found"
  const InvalidIdMessage := "Invalid user ID format"
  const DeletedMessage := "User deleted successfully"

  /** What a route produces: a JSON reply with its status, or an exception the framework turns into a 500. */
  datatype Reply = Reply(status: int, body: Value) | Raised(error: Exception)

  function ErrorBody(message: string): Value {
    Obj(map["error" := Str(message)])
  }

  function MessageBody(message: string): Value {
    Obj(map["message" := Str(message)])
  }

  /** `serialize_doc`: the `_id` field is rendered as its string form; no other field changes. */
  function SerializeDoc(doc: Document): (r: Document)
    requires "_id" in doc && doc["_id"].Oid?
    ensures r.Keys == doc.Keys
    ensures r["_id"] == Str(ToString(doc["_id"].id))
    ensures forall f :: f in doc && f != "_id" ==> r[f] == doc[f]
  {
    doc["_id" := Str(ToString(doc["_id"].id))]
  }

  /** `serialize_doc` as written: it rewrites the dict it is given and returns that same dict. */
  method SerializeDocInPlace(doc: Doc) returns (same: Doc)
    requires "_id" in doc.fields && doc.fields["_id"].Oid?
    modifies doc
    ensures same == doc
    ensures doc.fields == SerializeDoc(old(doc.fields))
  {
    doc.fields := doc.fields["_id" := Str(ToString(doc.fields["_id"].id))];
    same := doc;
  }

  /** The `_id` a client receives is accepted by the handlers and names the same document. */
  lemma SerializedIdNamesDocument(t: Table, id: ObjectId)
    requires ValidTable(t) && id in t
    ensures SerializeDoc(t[id])["_id"].Str?
    ensures Parse(SerializeDoc(t[id])["_id"].s) == Some(id)
  {
    ParseToString(id);
  }

  /** `request.json or {}`: a missing or null body is an empty mapping. */
  function RequestData(body: Option<Document>): Document
  {
    match body
    case None => map[]
    case Some(d) => d
  }

  // ---------------------------------------------------------------------------
  // GET /api/users

  /** The reply body of the list route for a scan in the given order. */
  function ListItems(t: Table, order: seq<ObjectId>): seq<Value>
    requires ValidTable(t)
    requires forall i :: 0 <= i < |order| ==> order[i] in t
  {
    seq(|order|, i requires 0 <= i < |order| => Obj(SerializeDoc(t[order[i]])))
  }

  /** The list holds exactly one serialized entry per stored document, told apart by their `_id` strings. */
  lemma ListOnePerDocument(t: Table, order: seq<ObjectId>)
    requires ValidTable(t) && IsEnumeration(order, t)
    ensures |ListItems(t, order)| == |t|
    ensures forall id :: id in t ==> exists i :: 0 <= i < |order| && ListItems(t, order)[i] == Obj(SerializeDoc(t[id]))
    ensures forall i, j :: 0 <= i < j < |order| ==>
      ListItems(t, order)[i].fields["_id"] != ListItems(t, order)[j].fields["_id"]
  {
    EnumerationSize(order, t);
    var items := ListItems(t, order);
    forall id | id in t
      ensures exists i :: 0 <= i < |order| && items[i] == Obj(SerializeDoc(t[id]))
    {
      var i :| 0 <= i < |order| && order[i] == id;
      assert items[i] == Obj(SerializeDoc(t[id]));
    }
  }

  /** Entry i of the list carries, as its `_id` string, a name that parses back to the i-th scanned identifier. */
  lemma ListItemsNameScan(t: Table, order: seq<ObjectId>)
    requires ValidTable(t)
    requires forall i :: 0 <= i < |order| ==> order[i] in t
    ensures |ListItems(t, order)| == |order|
    ensures forall i :: 0 <= i < |order| ==>
      && ListItems(t, order)[i].Obj?
      && "_id" in ListItems(t, order)[i].fields
      && ListItems(t, order)[i].fields["_id"].Str?
      && Parse(ListItems(t, order)[i].fields["_id"].s) == Some(order[i])
  {
    var items := ListItems(t, order);
    forall i | 0 <= i < |order|
      ensures items[i].Obj? && "_id" in items[i].fields && items[i].fields["_id"].Str?
      ensures Parse(items[i].fields["_id"].s) == Some(order[i])
    {
      assert items[i] == Obj(SerializeDoc(t[order[i]]));
      SerializedIdNamesDocument(t, order[i]);
    }
  }

  /** `get_users`: one serialized document per stored document, in the scan's order. */
  method GetUsers(users: Collection) returns (reply: Reply, ghost order: seq<ObjectId>)
    requires users.Valid()
    ensures IsEnumeration(order, users.docs)
    ensures reply == Reply(200, Arr(ListItems(users.docs, order)))
  {
    var cursor;
    cursor, order := users.Find();
    var serialized: seq<Value> := [];
    ghost var before := seq(|cursor|, i requires 0 <= i < |cursor| reads cursor => cursor[i].fields);
    for i := 0 to |cursor|
      invariant |serialized| == i
      invariant forall j :: 0 <= j < i ==> serialized[j] == Obj(SerializeDoc(users.docs[order[j]]))
      invariant forall j :: i <= j < |cursor| ==> cursor[j].fields == before[j]
    {
      var doc := SerializeDocInPlace(cursor[i]);
      serialized := serialized + [Obj(doc.fields)];
    }
    assert serialized == ListItems(users.docs, order);
    reply := Reply(200, Arr(serialized));
  }

  // ---------------------------------------------------------------------------
  // GET /api/users/<user_id>

  /** The reply of the single-user route on collection contents `t`. */
  function GetUserReply(t: Table, userId: string): Reply
    requires ValidTable(t)
  {
    match Parse(userId)
    case None => Raised(InvalidId)
    case Some(id) =>
      if id in t then Reply(200, Obj(SerializeDoc(t[id])))
      else Reply(404, ErrorBody(NotFoundMessage))
  }

  /** `get_user`: the identifier is parsed without a guard; the collection is only read. */
  method GetUser(users: Collection, userId: string) returns (reply: Reply)
    requires users.Valid()
    ensures reply == GetUserReply(users.docs, userId)
  {
    var parsed := Parse(userId);
    if parsed.None? {
      return Raised(InvalidId);
    }
    var user := users.FindOne(parsed.value);
    if user != null {
      var doc := SerializeDocInPlace(user);
      return Reply(200, Obj(doc.fields));
    }
    return Reply(404, ErrorBody(NotFoundMessage));
  }

  /** A well-formed identifier is answered 200 with the serialized document when stored, 404 otherwise. */
  lemma GetUserOutcome(t: Table, userId: string)
    requires ValidTable(t)
    ensures Parse(userId).Some? && Parse(userId).value in t ==>
      GetUserReply(t, userId) == Reply(200, Obj(SerializeDoc(t[Parse(userId).value])))
    ensures Parse(userId).Some? && Parse(userId).value !in t ==>
      GetUserReply(t, userId) == Reply(404, ErrorBody(NotFoundMessage))
    ensures !IsWellFormed(userId) ==> GetUserReply(t, userId) == Raised(InvalidId)
  {
  }

  // ---------------------------------------------------------------------------
  // PATCH /api/users/<user_id>

  /** The reply of the patch route and the collection contents after it. */
  function UpdateUserStep(t: Table, userId: string, body: Option<Document>): (Reply, Table)
    requires ValidTable(t)
  {
    var data := RequestData(body);
    match Parse(userId)
    case None => (Reply(400, ErrorBody(InvalidIdMessage)), t)
    case Some(id) =>
      if id !in t then (Reply(404, ErrorBody(NotFoundMessage)), t)
      else if ChangesId(id, data) then (Raised(WriteError), t)
      else
        var updated := t[id := SetFields(t[id], data)];
        (Reply(200, Obj(SerializeDoc(updated[id]))), updated)
  }

  /** `update_user`: guarded parse, `update_one` with `$set`, then a second `find_one` for the reply. */
  method UpdateUser(users: Collection, userId: string, body: Option<Document>) returns (reply: Reply)
    requires users.Valid()
    modifies users
    ensures users.Valid()
    ensures (reply, users.docs) == UpdateUserStep(old(users.docs), userId, body)
  {
    var data := RequestData(body);
    var parsed := Parse(userId);
    if parsed.None? {
      return Reply(400, ErrorBody(InvalidIdMessage));
    }
    var objectId := parsed.value;
    var result := users.UpdateOne(objectId, data);
    if result.Failure? {
      return Raised(result.error);
    }
    if result.value == 0 {
      return Reply(404, ErrorBody(NotFoundMessage));
    }
    var updatedUser := users.FindOne(objectId);
    var doc := SerializeDocInPlace(updatedUser);
    reply := Reply(200, Obj(doc.fields));
  }

  /** A malformed identifier is answered 400 whatever the body, before the collection is touched. */
  lemma UpdateMalformedId(t: Table, userId: string, body: Option<Document>)
    requires ValidTable(t) && !IsWellFormed(userId)
    ensures UpdateUserStep(t, userId, body) == (Reply(400, ErrorBody(InvalidIdMessage)), t)
  {
  }

  /** A well-formed identifier with no stored document is answered 404 and nothing changes. */
  lemma UpdateAbsentId(t: Table, userId: string, body: Option<Document>)
    requires ValidTable(t) && Parse(userId).Some? && Parse(userId).value !in t
    ensures UpdateUserStep(t, userId, body) == (Reply(404, ErrorBody(NotFoundMessage)), t)
  {
  }

  /**
    A successful patch overwrites exactly the body's fields of the one document, leaves
    its other fields and every other document as they were, and answers with the
    post-update document.
  */
  lemma UpdateFrame(t: Table, userId: string, body: Option<Document>)
    requires ValidTable(t)
    requires UpdateUserStep(t, userId, body).0.Reply? && UpdateUserStep(t, userId, body).0.status == 200
    ensures var id := Parse(userId).value;
      var (reply, t') := UpdateUserStep(t, userId, body);
      && id in t && t'.Keys == t.Keys
      && (forall other :: other in t && other != id ==> t'[other] == t[other])
      && (forall f :: f in RequestData(body) ==> t'[id][f] == RequestData(body)[f])
      && (forall f :: f in t[id] && f !in RequestData(body) ==> t'[id][f] == t[id][f])
      && t'[id].Keys == t[id].Keys + RequestData(body).Keys
      && reply == Reply(200, Obj(SerializeDoc(t'[id])))
  {
  }

  /** A missing, null or empty body leaves a stored document as it was and returns it. */
  lemma UpdateEmptyBody(t: Table, userId: string, body: Option<Document>)
    requires ValidTable(t) && Parse(userId).Some? && Parse(userId).value in t
    requires body.None? || body == Some(map[])
    ensures UpdateUserStep(t, userId, body) == (GetUserReply(t, userId), t)
  {
    var id := Parse(userId).value;
    assert SetFields(t[id], map[]) == t[id];
    assert t[id := t[id]] == t;
  }

  /** The patch route keeps every stored document's `_id` equal to its key. */
  lemma UpdateKeepsValid(t: Table, userId: string, body: Option<Document>)
    requires ValidTable(t)
    ensures ValidTable(UpdateUserStep(t, userId, body).1)
  {
  }

  /** Patching `{"active": false}` and reading back shows `active` false and every other field unchanged. */
  lemma PatchActiveThenGet(t: Table, userId: string)
    requires ValidTable(t) && Parse(userId).Some? && Parse(userId).value in t
    ensures var id := Parse(userId).value;
      var t' := UpdateUserStep(t, userId, Some(map["active" := Bool(false)])).1;
      var reply := GetUserReply(t', userId);
      && reply.Reply? && reply.status == 200
      && reply.body.fields["active"] == Bool(false)
      && (forall f :: f in t[id] && f != "active" && f != "_id" ==> reply.body.fields[f] == t[id][f])
  {
  }

  // ---------------------------------------------------------------------------
  // DELETE /api/users/<user_id>

  /** The reply of the delete route and the collection contents after it. */
  function DeleteUserStep(t: Table, userId: string): (Reply, Table) {
    match Parse(userId)
    case None => (Raised(InvalidId), t)
    case Some(id) =>
      if id !in t then (Reply(404, ErrorBody(NotFoundMessage)), t)
      else (Reply(204, MessageBody(DeletedMessage)), t - {id})
  }

  /** `delete_user`: the identifier is parsed without a guard, then `delete_one`. */
  method DeleteUser(users: Collection, userId: string) returns (reply: Reply)
    requires users.Valid()
    modifies users
    ensures users.Valid()
    ensures (reply, users.docs) == DeleteUserStep(old(users.docs), userId)
  {
    var parsed := Parse(userId);
    if parsed.None? {
      return Raised(InvalidId);
    }
    var deleted := users.DeleteOne(parsed.value);
    if deleted == 0 {
      assert users.docs == old(users.docs);
      return Reply(404, ErrorBody(NotFoundMessage));
    }
    reply := Reply(204, MessageBody(DeletedMessage));
  }

  /** Deleting removes exactly the named document when it is stored and nothing otherwise. */
  lemma DeleteFrame(t: Table, userId: string)
    requires Parse(userId).Some?
    ensures var id := Parse(userId).value;
      var (reply, t') := DeleteUserStep(t, userId);
      && (id in t ==> reply == Reply(204, MessageBody(DeletedMessage)) && |t'| == |t| - 1)
      && (id !in t ==> reply == Reply(404, ErrorBody(NotFoundMessage)) && t' == t)
      && t'.Keys == t.Keys - {id}
      && (forall other :: other in t' ==> t'[other] == t[other])
  {
  }

  /** Neither GET nor DELETE guards the identifier parse: a malformed one raises `InvalidId`. */
  lemma UnguardedParse(t: Table, userId: string)
    requires ValidTable(t) && !IsWellFormed(userId)
    ensures GetUserReply(t, userId) == Raised(InvalidId)
    ensures DeleteUserStep(t, userId) == (Raised(InvalidId), t)
  {
  }

  /** For a stored user, GET, DELETE, GET answer 200, 204, 404 in that order. */
  lemma GetDeleteGet(t: Table, userId: string)
    requires ValidTable(t) && Parse(userId).Some? && Parse(userId).value in t
    ensures GetUserReply(t, userId).status == 200
    ensures DeleteUserStep(t, userId).0.status == 204
    ensures ValidTable(DeleteUserStep(t, userId).1)
    ensures GetUserReply(DeleteUserStep(t, userId).1, userId) == Reply(404, ErrorBody(NotFoundMessage))
  {
  }
}
