# Users service and fixture import, modelled in Dafny

The system is a small HTTP service over one MongoDB collection, `users`, plus a
batch script that reloads that collection from a JSON fixture. This project models
both parts and proves what they promise.

- **Import job** (`backend/parser.py`). `parse_and_import` empties the collection.
  It then maps every fixture record to the stored user shape:
  - the roles are built from three independent flags;
  - `user`, `password`, `user_timezone` and `is_user_active` are copied to
    `username`, `password`, `preferences.timezone` and `active`;
  - `created_at` has every `Z` rewritten to `+00:00` before it is parsed;
  - `updated_ts` starts equal to `created_ts`.

  Finally the job inserts the batch, but only when it is non-empty.
  `Parser.ParseAndImport` makes the same sequence of calls. Its loop is
  `Parser.BuildUsers`. Both are proved against the pure definitions
  `Parser.ToUser`, `Parser.BuildAll` and `Parser.ImportBatch`.
- **Resource handlers** (`backend/app.py`). These are `serialize_doc`,
  `get_users`, `get_user`, `update_user` and `delete_user`, modelled over
  `Store.Collection`. That class holds the collection as a map from ObjectId to
  document, and its methods stand for the driver calls the handlers make. Each
  handler is a method making the same calls in the same order. `App.GetUser`,
  `App.UpdateUser` and `App.DeleteUser` are proved equal to a specification function
  that gives the reply and the new contents: `App.GetUserReply`,
  `App.UpdateUserStep` or `App.DeleteUserStep`. Lemmas about these functions state
  the status codes, the messages and what stays unchanged. `App.GetUsers` is instead
  tied to `App.ListItems` of the stored documents, taken in the order the scan
  visited them. That scan order is a ghost result chosen by the store.

Module layout:
- `Wrappers`: `Option`, `Result` and the `Distinct` predicate.
- `ObjectIds`: the ObjectId text format and its parse.
- `Values`: JSON-like values, Python truthiness and `dict.get`.
- `Store`: the collection and the driver primitives.
- `App`: the route handlers.
- `Parser`: the import job.

An exception that the code does not catch is a `Raised(e)` reply. The framework
answers those with status 500.

Two details of the import follow from the code:
- `roles` is an ordered list (admin, manager, tester), and the model proves that
  order.
- Besides `ValueError` for a timestamp it cannot parse, the import stops with:
  - `KeyError` for a missing field;
  - `AttributeError` for a record that is not a dict;
  - `TypeError` for a fixture or `users` value it cannot iterate.

  Every one of these leaves the collection empty.

## Model

| member | source | states |
|---|---|---|
| `ObjectIds.Parse` | backend/app.py:59-62 | Parsing succeeds exactly for 24-hex-digit text; the identifier is that text with letters lower-cased |
| `ObjectIds.ParseToString` | backend/app.py:31 | The string form of an ObjectId parses back to the same ObjectId |
| `ObjectIds.ParseCaseInsensitive` | backend/app.py:60 | Two well-formed texts name the same ObjectId exactly when they agree up to letter case |
| `Values.Get` | backend/parser.py:51-56 | `dict.get` of an absent key gives a falsy value; a present key gives its value |
| `Store.EnumerationSize` | backend/app.py:41 | A full `find()` scan visits as many documents as the collection holds |
| `Store.SetFields` | backend/app.py:64 | `$set` result: keys are old keys plus body keys; body fields overwritten, all other fields kept |
| `Store.Stamped` | backend/parser.py:76 | `insert_many` stores batch element j under the j-th assigned ObjectId with that `_id` added; every stored `_id` equals its key |
| `Store.StampedKeys` | backend/parser.py:76 | `insert_many` adds exactly the ObjectIds it uses, one document per batch element |
| `Store.Collection.Find` | backend/app.py:41 | `find()` yields a fresh, distinct copy of each stored document, each exactly once, in a store-chosen order |
| `Store.Collection.FindOne` | backend/app.py:48 | `find_one` returns a fresh copy of the document exactly when the key is stored |
| `Store.Collection.UpdateOne` | backend/app.py:64 | matched 0 and no change when absent; a `$set` changing `_id` is refused with no change; otherwise matched 1 and only that document changes, by the shallow merge |
| `Store.Collection.DeleteOne` | backend/app.py:76 | Deleted count is 1 exactly when the key is stored; only that key is removed |
| `Store.Collection.DeleteMany` | backend/parser.py:42 | The collection is empty afterwards |
| `Store.Collection.InsertMany` | backend/parser.py:76 | Needs a non-empty batch; adds the stamped batch and keeps every earlier document |
| `App.SerializeDoc` | backend/app.py:29-32 | Only `_id` changes, to the string form of the ObjectId; every other field and the key set are unchanged |
| `App.SerializeDocInPlace` | backend/app.py:29-32 | Rewrites the given dict in place to `SerializeDoc` of its old contents and returns that same dict |
| `App.SerializedIdNamesDocument` | backend/app.py:31 | The `_id` string a client receives parses back to the key of the same stored document |
| `App.ListItemsNameScan` | backend/app.py:41 | Every list entry is an object whose `_id` string parses back to the identifier of the document scanned at that position |
| `App.ListOnePerDocument` | backend/app.py:38-42 | The list has one entry per stored document; every stored document appears; entries have distinct `_id` strings |
| `App.GetUsers` | backend/app.py:38-42 | Replies 200 with the serialized documents in scan order; the collection is not modified |
| `App.GetUser` | backend/app.py:45-51 | Equals `GetUserReply` on the current contents; the collection is not modified |
| `App.GetUserOutcome` | backend/app.py:45-51 | Well-formed stored id: 200 with the serialized document. Well-formed absent id: 404 "User not found". Malformed id: raises InvalidId |
| `App.UpdateUser` | backend/app.py:54-70 | Reply and new contents are `UpdateUserStep`'s; every stored `_id` still equals its key |
| `App.UpdateMalformedId` | backend/app.py:57-62 | A malformed id gives 400 "Invalid user ID format" for every JSON object or null body, with the collection unchanged |
| `App.UpdateAbsentId` | backend/app.py:64-67 | A well-formed absent id gives 404 "User not found", with the collection unchanged |
| `App.UpdateFrame` | backend/app.py:64-70 | On 200: body fields overwritten and other fields kept in that document; other documents untouched; reply is the post-update document |
| `App.UpdateEmptyBody` | backend/app.py:57 | A missing, null or empty body leaves the document unchanged; the reply is the same as a GET |
| `App.UpdateKeepsValid` | backend/app.py:64 | A PATCH never breaks "every document's `_id` equals its key" |
| `App.PatchActiveThenGet` | backend/app.py:64-70 | After PATCH `{"active": false}`, a GET shows `active` false and every other field as before |
| `App.DeleteUser` | backend/app.py:73-79 | Reply and new contents are `DeleteUserStep`'s; every stored `_id` still equals its key |
| `App.DeleteFrame` | backend/app.py:76-79 | Stored id: 204 with "User deleted successfully", exactly one entry fewer. Absent id: 404, nothing changes. Every other entry is kept as it was |
| `App.UnguardedParse` | backend/app.py:48 | GET and DELETE raise InvalidId on a malformed id (not 400 or 404); DELETE leaves the collection unchanged |
| `App.GetDeleteGet` | backend/app.py:45-79 | For a stored user, GET, DELETE, GET answer 200, 204, 404 |
| `Parser.SelectProperties` | backend/parser.py:50-56 | A selection holds exactly the flagged names, is no longer than the name list, and keeps rank order |
| `Parser.RolesAreSelection` | backend/parser.py:50-56 | The appended roles list is the subsequence of admin, manager, tester whose flags are truthy |
| `Parser.RolesProperties` | backend/parser.py:50-56 | Each role is present exactly when its flag is truthy; at most three roles; fixed order; no duplicates |
| `Parser.ReplaceZ` | backend/parser.py:59 | The rewritten text contains no `Z`; text without `Z` is unchanged |
| `Parser.ReplaceZAppend` | backend/parser.py:59 | The rewrite distributes over concatenation |
| `Parser.ReplaceZIdempotent` | backend/parser.py:59 | Rewriting twice is the same as rewriting once |
| `Parser.ReplaceTrailingZ` | backend/parser.py:59 | A trailing UTC designator `Z` becomes the `+00:00` offset (section 5.6 of RFC 3339) after the rewritten prefix, whatever the prefix; a `Z`-free prefix is kept as it is |
| `Parser.ToUserContract` | backend/parser.py:49-69 | A record maps exactly when it is a dict with the five read keys and a parseable `created_at` string; fields then copied unchanged; both timestamps equal the parsed value |
| `Parser.AsDict` | backend/parser.py:72 | The inserted dict has no `_id` |
| `Parser.AsDictFields` | backend/parser.py:72 | The inserted dict has exactly the seven fields of the `User` shape |
| `Parser.AsDictRoundTrip` | backend/parser.py:72 | `asdict` loses nothing: reading the dict back gives the same user |
| `Parser.BuildRecord` | backend/parser.py:59-73 | A record's built document never carries `_id` |
| `Parser.BuildAllOnePerRecord` | backend/parser.py:48-73 | A built batch has one document per record, in input order, each that record's own result |
| `Parser.BuildAllSucceeds` | backend/parser.py:48-73 | The batch is built exactly when every record maps |
| `Parser.BuildAllFirstError` | backend/parser.py:49-59 | A failed batch carries the error of the first record that fails |
| `Parser.BuildAllExtend` | backend/parser.py:72-73 | One more record appends its document, or fails with its error |
| `Parser.PrefixFailure` | backend/parser.py:49 | Once a prefix of the records fails, the whole batch fails with that error |
| `Parser.BuildUsers` | backend/parser.py:48-73 | The loop returns `BuildAll` of the records; the documents it builds carry no `_id` |
| `Parser.ParseAndImport` | backend/parser.py:38-79 | Failed batch: aborts with its error and an empty collection. Otherwise: reports the batch size, and the collection holds exactly the stamped batch (empty when there are no records) |
| `Parser.BatchOfUsers` | backend/parser.py:59-73 | Document j of the batch is the `asdict` of record j's user, and its `updated_ts` equals its `created_ts` |
| `Parser.StampedHoldsBatch` | backend/parser.py:76 | Each inserted document equals its batch element apart from the added `_id` |
| `Parser.EmptyFixture` | backend/parser.py:75-79 | An empty `users` list gives an empty batch, so the collection stays empty |
| `Parser.AdminTesterExample` | backend/parser.py:50-56 | Flags admin and tester without manager give the roles `["admin", "tester"]` |
| `Parser.UtcTimestampExample` | backend/parser.py:59-68 | A `Z`-suffixed `created_at` reaches the parser with `+00:00`; both timestamps take the parsed value |

## Left out

- Reading `udata.json`: `json.load` and the `print` calls are not modelled. The decoded fixture is a parameter. A missing or undecodable file is not modelled either, although the real script raises that error only after it has cleared the collection.
- `datetime.fromisoformat(...).timestamp()` is the parameter `fromIso`, a partial function from text to a timestamp. `None` stands for its `ValueError`. Its result depends on the local time zone for times without an offset. Floats are modelled as `real`, without rounding.
- The database connection, environment loading, CORS setup, `DB_NAME`, Flask routing, JSON encoding and `app.run` are configuration and I/O.
- The POST and PUT routes mentioned at backend/app.py:82 are not part of the source shown, so they are not modelled.
- Concurrency is not modelled. Each driver call is one atomic step, and no other request runs between `update_one` and the following `find_one`.
- ObjectIds.Parse: bson's validity check is taken to be "24 hexadecimal digits". `bytes.fromhex` also accepts embedded whitespace, and that is not modelled.
- Store.SetFields: every body key is treated as a plain top-level field. MongoDB reads dotted keys as nested paths and rejects keys that start with `$`; neither is modelled.
- App.UpdateUser: the body is modelled as a JSON object, JSON `null` or absent.
  - A JSON body that is not an object is not modelled.
  - A missing body becomes the empty mapping only on Flask versions before 2.1.
  - From Flask/Werkzeug 2.1 on, reading `request.json` without a JSON content type fails, with 400 (2.1-2.2) or 415 (2.3 on). A JSON content type with an empty body fails with 400 in every version.
  - Those framework errors happen at backend/app.py:57, before the id check at backend/app.py:59-62. So the 400 "Invalid user ID format" of `App.UpdateMalformedId` holds only for a JSON object or `null` body.
- App.SerializeDoc: requires `_id` to be an ObjectId, which every stored document satisfies. `str` of any other value is not modelled.
- Store.Collection.InsertMany: requires documents without `_id`, which is all the import job inserts. The identifiers the driver generates are a parameter.
- Store.Collection.Find: the scan order is left to the store. It is modelled as an arbitrary choice.
- Python dicts keep insertion order, but the model uses maps, so the key order of JSON output is not modelled.
- An uncaught exception is `Raised(e)`. The framework's 500 response page is not modelled.
- The 204 reply of DELETE keeps its message body, as the handler returns it at backend/app.py:79. The server does not transmit a body with status 204, so no client receives that message.
