/** The values the Python code handles: decoded JSON plus the driver's ObjectId. */
module Values {
  import opened ObjectIds

  datatype Value =
    | Null
    | Bool(b: bool)
    | Num(n: real)
    | Str(s: string)
    | Oid(id: ObjectId)
    | Arr(items: seq<Value>)
    | Obj(fields: Document)

  /** A dict with string keys: a stored document, a request body or a fixture record. */
  type Document = map<string, Value>

  /** Exceptions the modelled code can raise; none of them is caught unless stated. */
  datatype Exception =
    | InvalidId           // bson: malformed ObjectId text
    | WriteError          // the store refused an update
    | KeyError(key: string)
    | AttributeError      // a method called on a value of the wrong type
    | TypeError           // indexing or iterating a value that does not support it
    | ValueError          // an unparseable timestamp

  /** Python truthiness. */
  predicate Truthy(v: Value) {
    match v
    case Null => false
    case Bool(b) => b
    case Num(n) => n != 0.0
    case Str(s) => s != []
    case Oid(_) => true
    case Arr(items) => items != []
    case Obj(fields) => fields != map[]
  }

  /** `d.get(key)`: the value, or `None` when the key is absent. */
  function Get(d: Document, key: string): (v: Value)
    ensures key !in d ==> !Truthy(v)
    ensures key in d ==> v == d[key]
  {
    if key in d then d[key] else Null
  }
}
