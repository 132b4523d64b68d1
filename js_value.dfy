/**
 * The JavaScript values that the application's records, documents and
 * translation tables are made of, with the few operators the core applies to
 * them: truthiness, `typeof`, optional property access, the `in` operator and
 * string conversion. Thrown values and the `Result` of an operation that may
 * throw live here too.
 */
module JsValue {

  /**
   * A JavaScript value. Numbers are modelled as integers. `ObjectId` is the
   * driver's BSON identifier object: `typeof` says "object", its
   * `_bsontype` is "ObjectId" and `toString()` gives its hexadecimal text.
   */
  datatype Value =
    | Undefined
    | Null
    | Bool(b: bool)
    | Num(n: int)
    | Str(s: string)
    | Arr(items: seq<Value>)
    | Obj(fields: map<string, Value>)
    | ObjectId(hex: string)

  /** A stored or serialized document: a plain object. */
  type Document = map<string, Value>

  /** What a `throw` carries: an `Error` with its message, or any other value. */
  datatype Thrown = Error(message: string) | NonError(value: Value)

  /** The outcome of an operation that either returns a value or throws. */
  datatype Result<+T> = Ok(value: T) | Err(thrown: Thrown)

  /** `!!v`: JavaScript truthiness. */
  predicate Truthy(v: Value)
  {
    match v
    case Undefined => false
    case Null => false
    case Bool(b) => b
    case Num(n) => n != 0
    case Str(s) => s != ""
    case _ => true
  }

  /** `typeof v === "object"`, which holds for `null` as well. */
  predicate IsObjectType(v: Value)
  {
    v.Null? || v.Arr? || v.Obj? || v.ObjectId?
  }

  /** `v?.[k]`: the own property `k` of an object, `undefined` otherwise. */
  function Prop(v: Value, k: string): (r: Value)
    ensures !IsObjectType(v) || v.Null? ==> r == Undefined
    ensures v.Obj? ==> r == (if k in v.fields then v.fields[k] else Undefined)
  {
    match v
    case Obj(m) => if k in m then m[k] else Undefined
    case ObjectId(_) => if k == "_bsontype" then Str("ObjectId") else Undefined
    case _ => Undefined
  }

  /** `k in v` for an object value `v`. */
  predicate HasProp(v: Value, k: string)
  {
    (v.Obj? && k in v.fields) || (v.ObjectId? && k == "_bsontype")
  }

  /** The decimal text of an integer, as `String(n)` prints it. */
  function IntToString(n: int): (r: string)
    ensures |r| >= 1
    ensures n < 0 <==> r[0] == '-'
  {
    if n < 0 then "-" + NatToString(-n) else NatToString(n)
  }

  function NatToString(n: nat): (r: string)
    ensures |r| >= 1
    ensures forall i :: 0 <= i < |r| ==> '0' <= r[i] <= '9'
  {
    var d := ['0' + (n % 10) as char];
    if n < 10 then d else NatToString(n / 10) + d
  }

  /** `String(v)`, which is also what `v.toString()` gives for a non-nullish `v`. */
  function ToJsString(v: Value): string
    decreases v
  {
    match v
    case Undefined => "undefined"
    case Null => "null"
    case Bool(b) => if b then "true" else "false"
    case Num(n) => IntToString(n)
    case Str(s) => s
    case Arr(items) => JoinArray(items)
    case Obj(_) => "[object Object]"
    case ObjectId(h) => h
  }

  /** `items.join(",")`: `null` and `undefined` elements print as nothing. */
  function JoinArray(items: seq<Value>): string
    decreases items
  {
    if |items| == 0 then ""
    else
      var head := if items[0].Undefined? || items[0].Null? then "" else ToJsString(items[0]);
      if |items| == 1 then head else head + "," + JoinArray(items[1..])
  }
}
