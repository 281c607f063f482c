/** The JSON values the data files hold, with JavaScript's truthiness, string
    conversion and `parseFloat` coercion, and the shape of a per-state dataset
    file (`src/types.ts`). */
module Json {
  import opened Wrappers
  import opened Strings
  import opened Numbers

  datatype Value = Undefined | Null | Bool(b: bool) | Num(n: Number) | Str(s: string)

  /** `!!v`. */
  predicate Truthy(v: Value) {
    match v
    case Undefined => false
    case Null => false
    case Bool(b) => b
    case Num(n) => NonZero(n)
    case Str(s) => s != ""
  }

  /** `a || b`. */
  function Or(a: Value, b: Value): (r: Value)
    ensures Truthy(r) <==> Truthy(a) || Truthy(b)
  {
    if Truthy(a) then a else b
  }

  /** `a === b`: like equality of values, except that NaN equals nothing. */
  predicate StrictEquals(a: Value, b: Value) {
    a == b && !(a.Num? && a.n.NaN?)
  }

  /** `String(v)`, which is also what a template literal `${v}` inserts. */
  function Text(v: Value): string {
    match v
    case Undefined => "undefined"
    case Null => "null"
    case Bool(b) => if b then "true" else "false"
    case Num(n) => NumberText(n)
    case Str(s) => s
  }

  /** `typeof v === 'number' ? v : parseFloat(v)`: a number is kept, anything
      else is converted to text and parsed. */
  function AsNumber(v: Value): Number {
    match v
    case Num(n) => n
    case Str(s) => ParseFloat(s)
    case _ => NaN
  }

  /** The members every plain JavaScript object inherits from
      `Object.prototype`. */
  const PrototypeMembers: set<string> :=
    {"constructor", "hasOwnProperty", "isPrototypeOf", "propertyIsEnumerable", "toLocaleString",
     "toString", "valueOf", "__defineGetter__", "__defineSetter__", "__lookupGetter__",
     "__lookupSetter__", "__proto__"}

  /** How `obj[key]` is read: as written, by property access on a plain
      object, which also finds inherited members; or by own keys only. */
  datatype Access = PropertyAccess | OwnKeys

  /** `!!obj[key]` for a plain object whose own keys, all bound to truthy
      values, are `keys`: an inherited member is a truthy function. */
  predicate HasProperty(keys: set<string>, key: string, access: Access) {
    key in keys || (access == PropertyAccess && key in PrototypeMembers)
  }

  /** A parsed JSON object: absent keys read as `undefined`. */
  type Record = map<string, Value>

  function Get(r: Record, key: string): Value {
    if key in r then r[key] else Undefined
  }

  /** The `metadata` object of a dataset file. */
  datatype Metadata = Metadata(effectiveDate: Value, source: Value, lastUpdated: Value,
                               jurisdictionCount: Value, version: Value)

  /** A dataset file: `metadata` is None when missing or falsy, `jurisdictions`
      is None when missing or not an array. */
  datatype Dataset = Dataset(metadata: Option<Metadata>, jurisdictions: Option<seq<Record>>)

  /** `data.jurisdictions?.length || 0`. */
  function Count(d: Dataset): nat {
    if d.jurisdictions.Some? then |d.jurisdictions.value| else 0
  }

  /** `data.jurisdictions || []`. */
  function Records(d: Dataset): seq<Record> {
    if d.jurisdictions.Some? then d.jurisdictions.value else []
  }

  /** `data.metadata?.source` (or `(data.metadata || {}).source`). */
  function Source(d: Dataset): Value {
    if d.metadata.Some? then d.metadata.value.source else Undefined
  }

  /** The record key `${j.location}|${j.county}|${j.type}`. */
  function RecordKey(j: Record): string {
    Text(Get(j, "location")) + "|" + Text(Get(j, "county")) + "|" + Text(Get(j, "type"))
  }
}
