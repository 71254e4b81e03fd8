/**
  The import job: it empties the `users` collection, maps every fixture record to
  the stored user shape and inserts the batch when it is non-empty.
*/
module Parser {
  import opened Wrappers
  import opened ObjectIds
  import opened Values
  import opened Store

  datatype UserPreferences = UserPreferences(timezone: Value)

  /** The stored user shape. Field values are copied from the fixture without any type check. */
  datatype User = User(
    username: Value,
    password: Value,
    roles: seq<string>,
    preferences: UserPreferences,
    active: Value,
    createdTs: real,
    updatedTs: real)

  /** What a run of the job reports. */
  datatype ImportOutcome = Imported(count: nat) | Aborted(error: Exception)

  const RoleNames: seq<string> := ["admin", "manager", "tester"]

  // ---------------------------------------------------------------------------
  // Roles

  /** The subsequence of `names` at the positions whose flag is set. */
  function Select(names: seq<string>, flags: seq<bool>): seq<string>
    requires |names| == |flags|
  {
    if names == [] then []
    else (if flags[0] then [names[0]] else []) + Select(names[1..], flags[1..])
  }

  /** Position of a role name in the fixed order admin, manager, tester. */
  function Rank(name: string): int {
    if name == "admin" then 0 else if name == "manager" then 1 else if name == "tester" then 2 else 3
  }

  predicate StrictlyRanked(names: seq<string>) {
    forall i, j :: 0 <= i < j < |names| ==> Rank(names[i]) < Rank(names[j])
  }

  /** A selection keeps exactly the flagged names, is no longer than `names`, and keeps their order. */
  lemma {:induction false} SelectProperties(names: seq<string>, flags: seq<bool>)
    requires |names| == |flags|
    ensures |Select(names, flags)| <= |names|
    ensures forall x :: x in Select(names, flags) <==> exists i :: 0 <= i < |names| && flags[i] && names[i] == x
    ensures StrictlyRanked(names) ==> StrictlyRanked(Select(names, flags))
  {
    if names != [] {
      SelectProperties(names[1..], flags[1..]);
      var rest := Select(names[1..], flags[1..]);
      forall x | x in Select(names, flags)
        ensures exists i :: 0 <= i < |names| && flags[i] && names[i] == x
      {
        if flags[0] && x == names[0] {
        } else {
          assert x in rest;
          var k :| 0 <= k < |names[1..]| && flags[1..][k] && names[1..][k] == x;
          assert flags[k + 1] && names[k + 1] == x;
        }
      }
      forall x | exists i :: 0 <= i < |names| && flags[i] && names[i] == x
        ensures x in Select(names, flags)
      {
        var i :| 0 <= i < |names| && flags[i] && names[i] == x;
        if i > 0 {
          assert flags[1..][i - 1] && names[1..][i - 1] == x;
        }
      }
      if StrictlyRanked(names) {
        assert StrictlyRanked(names[1..]) by {
          forall i, j | 0 <= i < j < |names[1..]| ensures Rank(names[1..][i]) < Rank(names[1..][j]) {
            assert names[1..][i] == names[i + 1] && names[1..][j] == names[j + 1];
          }
        }
        forall y | y in rest ensures Rank(names[0]) < Rank(y) {
          var k :| 0 <= k < |names[1..]| && flags[1..][k] && names[1..][k] == y;
          assert names[k + 1] == y;
        }
      }
    }
  }

  /** The three role flags of a fixture record, in the fixed order. */
  function RoleFlags(record: Document): seq<bool> {
    [Truthy(Get(record, "is_user_admin")), Truthy(Get(record, "is_user_manager")), Truthy(Get(record, "is_user_tester"))]
  }

  /** The roles list the job builds by appending, one test per flag. */
  function RolesOf(record: Document): seq<string> {
    (if Truthy(Get(record, "is_user_admin")) then ["admin"] else [])
    + (if Truthy(Get(record, "is_user_manager")) then ["manager"] else [])
    + (if Truthy(Get(record, "is_user_tester")) then ["tester"] else [])
  }

  /** The appended list is the selection of the role names by their flags. */
  lemma RolesAreSelection(record: Document)
    ensures RolesOf(record) == Select(RoleNames, RoleFlags(record))
  {
    var flags := RoleFlags(record);
    assert Select(RoleNames[2..], flags[2..]) == if flags[2] then ["tester"] else [];
    assert Select(RoleNames[1..], flags[1..]) == (if flags[1] then ["manager"] else []) + Select(RoleNames[2..], flags[2..]);
  }

  /** A role is present exactly when its flag is truthy; roles are in the fixed order, so at most three and none twice. */
  lemma RolesProperties(record: Document)
    ensures "admin" in RolesOf(record) <==> Truthy(Get(record, "is_user_admin"))
    ensures "manager" in RolesOf(record) <==> Truthy(Get(record, "is_user_manager"))
    ensures "tester" in RolesOf(record) <==> Truthy(Get(record, "is_user_tester"))
    ensures forall r :: r in RolesOf(record) ==> r in RoleNames
    ensures |RolesOf(record)| <= 3
    ensures StrictlyRanked(RolesOf(record))
    ensures Distinct(RolesOf(record))
  {
    RolesAreSelection(record);
    SelectProperties(RoleNames, RoleFlags(record));
    var flags := RoleFlags(record);
    assert RoleNames[0] == "admin" && RoleNames[1] == "manager" && RoleNames[2] == "tester";
    assert flags[0] == Truthy(Get(record, "is_user_admin"));
    assert flags[1] == Truthy(Get(record, "is_user_manager"));
    assert flags[2] == Truthy(Get(record, "is_user_tester"));
  }

  // ---------------------------------------------------------------------------
  // Timestamps

  /** `s.replace('Z', '+00:00')`: every `Z`, not only a trailing one, becomes the `+00:00` offset. */
  function ReplaceZ(s: string): (r: string)
    ensures forall i :: 0 <= i < |r| ==> r[i] != 'Z'
    ensures (forall i :: 0 <= i < |s| ==> s[i] != 'Z') ==> r == s
  {
    if s == [] then []
    else (if s[0] == 'Z' then "+00:00" else [s[0]]) + ReplaceZ(s[1..])
  }

  /** The rewrite works piecewise. */
  lemma {:induction false} ReplaceZAppend(a: string, b: string)
    ensures ReplaceZ(a + b) == ReplaceZ(a) + ReplaceZ(b)
  {
    if a == [] {
      assert a + b == b;
    } else {
      assert (a + b)[0] == a[0];
      assert (a + b)[1..] == a[1..] + b;
      ReplaceZAppend(a[1..], b);
    }
  }

  /** The rewrite is idempotent. */
  lemma ReplaceZIdempotent(s: string)
    ensures ReplaceZ(ReplaceZ(s)) == ReplaceZ(s)
  {
  }

  /** A trailing UTC designator `Z` turns into the equivalent `+00:00` offset (section 5.6 of RFC 3339). */
  lemma ReplaceTrailingZ(p: string)
    ensures ReplaceZ(p + "Z") == ReplaceZ(p) + "+00:00"
    ensures (forall i :: 0 <= i < |p| ==> p[i] != 'Z') ==> ReplaceZ(p + "Z") == p + "+00:00"
  {
    ReplaceZAppend(p, "Z");
    assert "Z"[1..] == [];
    assert ReplaceZ("Z") == "+00:00";
  }

  // ---------------------------------------------------------------------------
  // One record

  /**
    One loop iteration: `u.get` on the three flags, then `u['created_at'].replace(...)`
    handed to `fromIso` (`datetime.fromisoformat(...).timestamp()`, `None` for its
    `ValueError`), then the dataclass built from `u['user']`, `u['password']`,
    `u['user_timezone']` and `u['is_user_active']`, in that order.
  */
  function ToUser(u: Value, fromIso: string -> Option<real>): Result<User, Exception>
  {
    if !u.Obj? then Failure(AttributeError)
    else
      var record := u.fields;
      var roles := RolesOf(record);
      if "created_at" !in record then Failure(KeyError("created_at"))
      else if !record["created_at"].Str? then Failure(AttributeError)
      else
        var parsed := fromIso(ReplaceZ(record["created_at"].s));
        if parsed.None? then Failure(ValueError)
        else if "user" !in record then Failure(KeyError("user"))
        else if "password" !in record then Failure(KeyError("password"))
        else if "user_timezone" !in record then Failure(KeyError("user_timezone"))
        else if "is_user_active" !in record then Failure(KeyError("is_user_active"))
        else Success(User(
          record["user"], record["password"], roles,
          UserPreferences(record["user_timezone"]), record["is_user_active"],
          parsed.value, parsed.value))
  }

  /**
    A record maps to a user exactly when it is a dict holding the five keys read, with a
    `created_at` string that the parser accepts once its `Z`s are rewritten; the fields
    are then copied unchanged and both timestamps are that parsed value.
  */
  lemma ToUserContract(u: Value, fromIso: string -> Option<real>)
    ensures ToUser(u, fromIso).Success? <==>
      && u.Obj?
      && "created_at" in u.fields && u.fields["created_at"].Str?
      && fromIso(ReplaceZ(u.fields["created_at"].s)).Some?
      && "user" in u.fields && "password" in u.fields
      && "user_timezone" in u.fields && "is_user_active" in u.fields
    ensures ToUser(u, fromIso).Success? ==>
      var user := ToUser(u, fromIso).value;
      && user.username == u.fields["user"]
      && user.password == u.fields["password"]
      && user.roles == RolesOf(u.fields)
      && user.preferences.timezone == u.fields["user_timezone"]
      && user.active == u.fields["is_user_active"]
      && user.createdTs == fromIso(ReplaceZ(u.fields["created_at"].s)).value
      && user.updatedTs == user.createdTs
    ensures !u.Obj? ==> ToUser(u, fromIso) == Failure(AttributeError)
    ensures u.Obj? && "created_at" !in u.fields ==> ToUser(u, fromIso) == Failure(KeyError("created_at"))
  {
  }

  /** `asdict(user)`: the document inserted for one user. */
  function AsDict(user: User): (d: Document)
    ensures "_id" !in d
  {
    map[
      "username" := user.username,
      "password" := user.password,
      "roles" := Arr(seq(|user.roles|, i requires 0 <= i < |user.roles| => Str(user.roles[i]))),
      "preferences" := Obj(map["timezone" := user.preferences.timezone]),
      "active" := user.active,
      "created_ts" := Num(user.createdTs),
      "updated_ts" := Num(user.updatedTs)]
  }

  /** Reads a stored document back into the user shape, when it has that shape. */
  function FromDict(d: Document): Option<User> {
    if && "username" in d && "password" in d && "roles" in d && "preferences" in d
       && "active" in d && "created_ts" in d && "updated_ts" in d
       && d["roles"].Arr? && (forall i :: 0 <= i < |d["roles"].items| ==> d["roles"].items[i].Str?)
       && d["preferences"].Obj? && "timezone" in d["preferences"].fields
       && d["created_ts"].Num? && d["updated_ts"].Num?
    then
      var items := d["roles"].items;
      Some(User(
        d["username"], d["password"],
        seq(|items|, i requires 0 <= i < |items| && items[i].Str? => items[i].s),
        UserPreferences(d["preferences"].fields["timezone"]), d["active"],
        d["created_ts"].n, d["updated_ts"].n))
    else None
  }

  /** The document has exactly the seven fields of the user shape. */
  lemma AsDictFields(user: User)
    ensures AsDict(user).Keys == {"username", "password", "roles", "preferences", "active", "created_ts", "updated_ts"}
  {
  }

  /** Nothing is lost in the conversion to a document. */
  lemma AsDictRoundTrip(user: User)
    ensures FromDict(AsDict(user)) == Some(user)
  {
    var d := AsDict(user);
    var items := d["roles"].items;
    assert |items| == |user.roles|;
    var back := seq(|items|, i requires 0 <= i < |items| && items[i].Str? => items[i].s);
    assert back == user.roles;
  }

  // ---------------------------------------------------------------------------
  // The whole fixture

  /**
    `for u in data['users']`: the records the loop visits, or the error that stops it
    first. Iterating a string yields its characters as strings, on which `u.get`
    fails; a non-empty dict yields its keys, also strings.
  */
  function UsersOf(data: Value): Result<seq<Value>, Exception> {
    if !data.Obj? then Failure(TypeError)
    else if "users" !in data.fields then Failure(KeyError("users"))
    else
      match data.fields["users"]
      case Arr(items) => Success(items)
      case Str(s) => Success(seq(|s|, i requires 0 <= i < |s| => Str([s[i]])))
      case Obj(fields) => if fields == map[] then Success([]) else Failure(AttributeError)
      case _ => Failure(TypeError)
  }

  /** One loop iteration on a record: the user mapped and converted with `asdict`, or the error raised. */
  function BuildRecord(u: Value, fromIso: string -> Option<real>): (r: Result<Document, Exception>)
    ensures r.Success? ==> "_id" !in r.value
  {
    match ToUser(u, fromIso)
    case Failure(e) => Failure(e)
    case Success(user) => Success(AsDict(user))
  }

  /** The step the loop applies to every record. */
  function Builder(fromIso: string -> Option<real>): Value -> Result<Document, Exception> {
    u => BuildRecord(u, fromIso)
  }

  /** The documents `step` builds for `records` in order, or the error of the first record it fails on. */
  function BuildAll(records: seq<Value>, step: Value -> Result<Document, Exception>): (r: Result<seq<Document>, Exception>)
    ensures r.Success? ==> |r.value| == |records|
  {
    if records == [] then Success([])
    else
      var n := |records| - 1;
      match BuildAll(records[..n], step)
      case Failure(e) => Failure(e)
      case Success(built) =>
        match step(records[n])
        case Failure(e) => Failure(e)
        case Success(doc) => Success(built + [doc])
  }

  /** A built batch has one document per record, in record order, each the record's own result. */
  lemma {:induction false} BuildAllOnePerRecord(records: seq<Value>, step: Value -> Result<Document, Exception>)
    requires BuildAll(records, step).Success?
    ensures |BuildAll(records, step).value| == |records|
    ensures forall j :: 0 <= j < |records| ==>
      step(records[j]).Success? && BuildAll(records, step).value[j] == step(records[j]).value
  {
    if records != [] {
      var n := |records| - 1;
      var init := records[..n];
      BuildAllOnePerRecord(init, step);
      forall j | 0 <= j < n ensures records[j] == init[j] {
      }
    }
  }

  /** The batch is built exactly when every record succeeds. */
  lemma {:induction false} BuildAllSucceeds(records: seq<Value>, step: Value -> Result<Document, Exception>)
    ensures BuildAll(records, step).Success? <==> forall j :: 0 <= j < |records| ==> step(records[j]).Success?
  {
    if records != [] {
      var n := |records| - 1;
      var init := records[..n];
      BuildAllSucceeds(init, step);
      assert forall j :: 0 <= j < n ==> init[j] == records[j];
    }
  }

  /** A failed batch carries the error of the first record that fails. */
  lemma {:induction false} BuildAllFirstError(records: seq<Value>, step: Value -> Result<Document, Exception>)
    requires BuildAll(records, step).Failure?
    ensures exists j ::
      && 0 <= j < |records|
      && step(records[j]) == Failure(BuildAll(records, step).error)
      && (forall i :: 0 <= i < j ==> step(records[i]).Success?)
  {
    var n := |records| - 1;
    var init := records[..n];
    if BuildAll(init, step).Failure? {
      BuildAllFirstError(init, step);
      var j :| 0 <= j < n && step(init[j]) == Failure(BuildAll(init, step).error) &&
        (forall i :: 0 <= i < j ==> step(init[i]).Success?);
      assert records[j] == init[j];
      assert forall i :: 0 <= i < j ==> records[i] == init[i];
    } else {
      BuildAllSucceeds(init, step);
      assert forall i :: 0 <= i < n ==> records[i] == init[i];
    }
  }

  /** Building one more record extends the batch by its document, or fails with its error. */
  lemma BuildAllExtend(records: seq<Value>, i: nat, step: Value -> Result<Document, Exception>)
    requires i < |records| && BuildAll(records[..i], step).Success?
    ensures step(records[i]).Success? ==>
      BuildAll(records[..i + 1], step) == Success(BuildAll(records[..i], step).value + [step(records[i]).value])
    ensures step(records[i]).Failure? ==>
      BuildAll(records[..i + 1], step) == Failure(step(records[i]).error)
  {
    assert records[..i + 1][..i] == records[..i];
  }

  /** Once a prefix of the records fails, the whole batch fails with the same error. */
  lemma {:induction false} PrefixFailure(records: seq<Value>, n: nat, step: Value -> Result<Document, Exception>)
    requires n <= |records|
    requires BuildAll(records[..n], step).Failure?
    ensures BuildAll(records, step) == BuildAll(records[..n], step)
    decreases |records| - n
  {
    if n < |records| {
      assert records[..n + 1][..n] == records[..n];
      PrefixFailure(records, n + 1, step);
    } else {
      assert records[..n] == records;
    }
  }

  /** What the job inserts for a fixture, or the error that aborts it. */
  function ImportBatch(data: Value, fromIso: string -> Option<real>): Result<seq<Document>, Exception> {
    match UsersOf(data)
    case Failure(e) => Failure(e)
    case Success(records) => BuildAll(records, Builder(fromIso))
  }

  /** The loop of `parse_and_import`: map each record in turn, appending to the batch, until one fails. */
  method BuildUsers(records: seq<Value>, fromIso: string -> Option<real>) returns (built: Result<seq<Document>, Exception>)
    ensures built == BuildAll(records, Builder(fromIso))
    ensures built.Success? ==> forall j :: 0 <= j < |built.value| ==> "_id" !in built.value[j]
  {
    var usersToInsert: seq<Document> := [];
    var i := 0;
    while i < |records|
      invariant 0 <= i <= |records|
      invariant BuildAll(records[..i], Builder(fromIso)) == Success(usersToInsert)
      invariant forall j :: 0 <= j < |usersToInsert| ==> "_id" !in usersToInsert[j]
    {
      BuildAllExtend(records, i, Builder(fromIso));
      var user := ToUser(records[i], fromIso);
      if user.Failure? {
        PrefixFailure(records, i + 1, Builder(fromIso));
        return Failure(user.error);
      }
      usersToInsert := usersToInsert + [AsDict(user.value)];
      i := i + 1;
    }
    assert records[..i] == records;
    built := Success(usersToInsert);
  }

  /**
    `parse_and_import`: clear, build the batch record by record, insert it when non-empty.
    `data` is the decoded fixture; `ids` are the identifiers the driver assigns, in order.
  */
  method ParseAndImport(collection: Collection, data: Value, fromIso: string -> Option<real>, ids: seq<ObjectId>)
    returns (outcome: ImportOutcome)
    requires collection.Valid()
    requires Distinct(ids)
    requires UsersOf(data).Success? ==> |UsersOf(data).value| <= |ids|
    modifies collection
    ensures collection.Valid()
    ensures ImportBatch(data, fromIso).Failure? ==>
      outcome == Aborted(ImportBatch(data, fromIso).error) && collection.docs == map[]
    ensures ImportBatch(data, fromIso).Success? ==>
      var batch := ImportBatch(data, fromIso).value;
      outcome == Imported(|batch|) && collection.docs == Stamped(batch, ids)
  {
    collection.DeleteMany();
    var records;
    match UsersOf(data) {
      case Failure(e) => return Aborted(e);
      case Success(rs) => records := rs;
    }
    var built := BuildUsers(records, fromIso);
    if built.Failure? {
      return Aborted(built.error);
    }
    var usersToInsert := built.value;
    if |usersToInsert| > 0 {
      collection.InsertMany(usersToInsert, ids);
    } else {
      assert Stamped(usersToInsert, ids) == map[];
    }
    outcome := Imported(|usersToInsert|);
  }

  // ---------------------------------------------------------------------------
  // Properties of a run

  /**
    A built batch holds, for each fixture record in order, the `asdict` of its user, so every
    document starts with `updated_ts` equal to `created_ts`.
  */
  lemma BatchOfUsers(records: seq<Value>, fromIso: string -> Option<real>)
    requires BuildAll(records, Builder(fromIso)).Success?
    ensures var batch := BuildAll(records, Builder(fromIso)).value;
      && |batch| == |records|
      && forall j :: 0 <= j < |records| ==>
        && ToUser(records[j], fromIso).Success?
        && batch[j] == AsDict(ToUser(records[j], fromIso).value)
        && batch[j]["updated_ts"] == batch[j]["created_ts"]
  {
    BuildAllOnePerRecord(records, Builder(fromIso));
    forall j | 0 <= j < |records|
      ensures ToUser(records[j], fromIso).Success?
      ensures BuildAll(records, Builder(fromIso)).value[j] == AsDict(ToUser(records[j], fromIso).value)
    {
      assert Builder(fromIso)(records[j]) == BuildRecord(records[j], fromIso);
    }
  }

  /** Each inserted document equals its element of the batch apart from the `_id` the driver added. */
  lemma StampedHoldsBatch(batch: seq<Document>, ids: seq<ObjectId>)
    requires |batch| <= |ids| && Distinct(ids)
    requires forall j :: 0 <= j < |batch| ==> "_id" !in batch[j]
    ensures forall j :: 0 <= j < |batch| ==> Stamped(batch, ids)[ids[j]] - {"_id"} == batch[j]
  {
    forall j | 0 <= j < |batch| ensures Stamped(batch, ids)[ids[j]] - {"_id"} == batch[j] {
      assert batch[j]["_id" := Oid(ids[j])] - {"_id"} == batch[j];
    }
  }

  /** A fixture whose `users` list is empty leaves the collection empty, without an insert. */
  lemma EmptyFixture(data: Value, fromIso: string -> Option<real>, ids: seq<ObjectId>)
    requires Distinct(ids) && UsersOf(data) == Success([])
    ensures ImportBatch(data, fromIso) == Success([])
    ensures Stamped([], ids) == map[]
  {
  }

  /** A record flagged admin and tester but not manager gets the roles admin, tester in that order. */
  lemma AdminTesterExample(record: Document)
    requires Get(record, "is_user_admin") == Bool(true)
    requires Get(record, "is_user_manager") == Bool(false)
    requires Get(record, "is_user_tester") == Bool(true)
    ensures RolesOf(record) == ["admin", "tester"]
  {
  }

  /** A `Z`-suffixed `created_at` reaches the parser with an explicit `+00:00` offset, and both timestamps take its value. */
  lemma UtcTimestampExample(record: Document, stamp: string, fromIso: string -> Option<real>, epoch: real)
    requires record.Keys >= {"user", "password", "user_timezone", "is_user_active"}
    requires forall i :: 0 <= i < |stamp| ==> stamp[i] != 'Z'
    requires "created_at" in record && record["created_at"] == Str(stamp + "Z")
    requires fromIso(stamp + "+00:00") == Some(epoch)
    ensures ToUser(Obj(record), fromIso).Success?
    ensures ToUser(Obj(record), fromIso).value.createdTs == epoch
    ensures ToUser(Obj(record), fromIso).value.updatedTs == epoch
  {
    ReplaceTrailingZ(stamp);
  }
}
