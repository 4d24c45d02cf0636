/** JavaScript values as the two admin scripts see them: what `JSON.parse`
    produces from the dataset file, the `undefined` that reading a missing
    property yields, and the store's native timestamp. */
module Values {

  datatype Option<T> = None | Some(value: T)

  datatype Result<T, E> = Ok(value: T) | Err(error: E)

  /** A JavaScript value. Numbers are integers here (see README); a
      timestamp is kept as the millisecond instant it was built from. */
  datatype Value =
    | Undefined
    | Null
    | Bool(b: bool)
    | Num(n: int)
    | Str(s: string)
    | Arr(items: seq<Value>)
    | Obj(fields: map<string, Value>)
    | Time(millis: int)

  /** A document: an open mapping from field name to value. */
  type Record = map<string, Value>

  /** One dataset group in `Object.entries` order: (document key, record). */
  type Entries = seq<(string, Record)>

  /** The parsed dataset file: top-level group name to its entries. A group
      that is missing (or falsy) in the file is a name not in the map. */
  type Dataset = map<string, Entries>

  /** `Timestamp.fromDate(new Date(v))`: the instant in milliseconds, or None
      when either the runtime or the store's SDK throws. It is a parameter of
      the model, not reimplemented. */
  type DateParser = Value -> Option<int>

  /** Property read `r.f`: a missing property reads as `undefined`. */
  function Field(r: Record, f: string): Value
  {
    if f in r then r[f] else Undefined
  }

  /** JavaScript truthiness (`if (v)`, `v || d`). */
  predicate Truthy(v: Value)
  {
    match v
    case Undefined => false
    case Null => false
    case Bool(b) => b
    case Num(n) => n != 0
    case Str(s) => s != ""
    case _ => true
  }

  /** `v ?? d`: the default only for null and undefined. */
  function OrIfNullish(v: Value, d: Value): Value
  {
    if v == Undefined || v == Null then d else v
  }

  /** `v || d`: the default for every falsy value. */
  function OrIfFalsy(v: Value, d: Value): Value
  {
    if Truthy(v) then v else d
  }

  function DigitChar(d: nat): char
    requires d < 10
  {
    "0123456789"[d]
  }

  function Digits(n: nat): string
    decreases n
  {
    if n < 10 then [DigitChar(n)] else Digits(n / 10) + [DigitChar(n % 10)]
  }

  function IntString(n: int): string
  {
    if n < 0 then "-" + Digits(-n) else Digits(n)
  }

  /** `String(v)`, the coercion JavaScript applies to a value used as a
      property key (`usersMap[userData.email]`). */
  function ToJsString(v: Value): string
    decreases v, 1
  {
    match v
    case Undefined => "undefined"
    case Null => "null"
    case Bool(b) => if b then "true" else "false"
    case Num(n) => IntString(n)
    case Str(s) => s
    case Arr(items) => JoinItems(items, 0, v)
    case Obj(_) => "[object Object]"
    case Time(ms) =>
      // A parsed dataset never holds a timestamp, so `EmailKey` does not
      // reach this branch; it is here only to make `String(v)` total.
      "Timestamp(seconds=" + IntString(ms / 1000) + ", nanoseconds="
      + IntString(ms % 1000 * 1000000) + ")"
  }

  /** `Array.prototype.join(",")` over `items[i..]`: null and undefined
      elements print as the empty string. */
  function JoinItems(items: seq<Value>, i: nat, ghost whole: Value): string
    requires whole == Arr(items)
    decreases whole, 0, |items| - i
  {
    if i >= |items| then ""
    else
      var head := if items[i] == Undefined || items[i] == Null then "" else ToJsString(items[i]);
      if i + 1 == |items| then head else head + "," + JoinItems(items, i + 1, whole)
  }

  /** Every element of `s` occurs once. */
  predicate NoDup<T(==)>(s: seq<T>)
  {
    forall i, j :: 0 <= i < j < |s| ==> s[i] != s[j]
  }
}
