/**
 * Parsed JSON values and the two ways the code base reads them: Python's
 * `dict.get` / `[0]` (which raise on the wrong shape) and JavaScript's
 * optional chaining `?.` (which yields undefined instead).
 *
 * An object keeps its members in enumeration order; looking a key up finds
 * its first occurrence. Numbers are integers (floating point is not modelled).
 */
module Json {
  import opened Wrappers

  datatype Json =
    | JNull
    | JBool(b: bool)
    | JNum(n: int)
    | JStr(s: string)
    | JArr(items: seq<Json>)
    | JObj(fields: seq<(string, Json)>)

  /** The value stored under `key`, if any. */
  function Lookup(fields: seq<(string, Json)>, key: string): (r: Option<Json>)
    ensures r.Some? <==> exists i :: 0 <= i < |fields| && fields[i].0 == key
    ensures r.Some? ==> (key, r.value) in fields
  {
    if |fields| == 0 then None
    else if fields[0].0 == key then Some(fields[0].1)
    else Lookup(fields[1..], key)
  }

  // ---------------------------------------------------------------- Python

  /** The exceptions a chain of `.get(...)` and `[0]` can raise. */
  datatype PyError = AttributeError | IndexError | KeyError | TypeError | DecodeError

  /** Python truth value of a parsed JSON value (`if data:`). */
  predicate PyTruthy(j: Json) {
    match j
    case JNull => false
    case JBool(b) => b
    case JNum(n) => n != 0
    case JStr(s) => s != ""
    case JArr(items) => items != []
    case JObj(fields) => fields != []
  }

  /** `d.get(key, default)`: only a dict has `.get`. */
  function PyGet(d: Json, key: string, default: Json): (r: Result<Json, PyError>)
    ensures r.Ok? <==> d.JObj?
    ensures r.Ok? && Lookup(d.fields, key).None? ==> r.value == default
    ensures r.Ok? && Lookup(d.fields, key).Some? ==> r.value == Lookup(d.fields, key).value
    ensures r.Err? ==> r.error == AttributeError
  {
    if d.JObj? then Ok(Lookup(d.fields, key).GetOr(default)) else Err(AttributeError)
  }

  /** `v[0]`: a list or a string yields its first element, a dict has no key 0. */
  function PyFirst(v: Json): (r: Result<Json, PyError>)
    ensures r.Ok? <==> (v.JArr? && v.items != []) || (v.JStr? && v.s != "")
    ensures v.JArr? && v.items != [] ==> r.value == v.items[0]
    ensures v.JStr? && v.s != "" ==> r.value == JStr([v.s[0]])
    ensures (v.JArr? || v.JStr?) && r.Err? ==> r.error == IndexError
    ensures v.JObj? ==> r == Err(KeyError)
  {
    match v
    case JArr(items) => if items == [] then Err(IndexError) else Ok(items[0])
    case JStr(s) => if s == "" then Err(IndexError) else Ok(JStr([s[0]]))
    case JObj(_) => Err(KeyError)
    case _ => Err(TypeError)
  }

  // ------------------------------------------------------------ JavaScript

  /** A JavaScript value read out of parsed JSON: None is `undefined`. */
  type JsValue = Option<Json>

  /** The TypeError thrown by a property read on null/undefined or a call of a non-function. */
  datatype JsError = JsTypeError

  predicate JsNullish(v: JsValue) {
    v.None? || v.value.JNull?
  }

  /** JavaScript truthiness: empty arrays and objects are truthy, unlike Python. */
  predicate JsTruthy(v: JsValue) {
    match v
    case None => false
    case Some(j) =>
      match j
      case JNull => false
      case JBool(b) => b
      case JNum(n) => n != 0
      case JStr(s) => s != ""
      case JArr(_) => true
      case JObj(_) => true
  }

  /**
   * `v?.key` for the member names this code base reads (none of them is a
   * property that strings, arrays or numbers carry themselves).
   */
  function JsOptGet(v: JsValue, key: string): (r: JsValue)
    ensures r.Some? ==> v.Some? && v.value.JObj? && (key, r.value) in v.value.fields
    ensures v.Some? && v.value.JObj? ==> r == Lookup(v.value.fields, key)
  {
    if v.Some? && v.value.JObj? then Lookup(v.value.fields, key) else None
  }

  /** `v?.[0]`: first element of an array, first code unit of a string, member "0" of an object. */
  function JsOptFirst(v: JsValue): (r: JsValue)
    ensures JsNullish(v) ==> r.None?
    ensures v.Some? && v.value.JArr? ==> r == (if v.value.items == [] then None else Some(v.value.items[0]))
    ensures v.Some? && v.value.JStr? ==> r == (if v.value.s == "" then None else Some(JStr([v.value.s[0]])))
    ensures v.Some? && v.value.JObj? ==> r == Lookup(v.value.fields, "0")
    ensures v.Some? && (v.value.JBool? || v.value.JNum?) ==> r.None?
  {
    match v
    case None => None
    case Some(j) =>
      match j
      case JArr(items) => if items == [] then None else Some(items[0])
      case JStr(s) => if s == "" then None else Some(JStr([s[0]]))
      case JObj(fields) => Lookup(fields, "0")
      case _ => None
  }

  /** The number a string of decimal digits spells, most significant digit first. */
  function DigitsValue(s: string): nat
    requires forall i :: 0 <= i < |s| ==> '0' <= s[i] <= '9'
  {
    if s == [] then 0 else 10 * DigitsValue(s[..|s| - 1]) + (s[|s| - 1] as int - '0' as int)
  }

  /** Decimal digits of a natural number: they spell it back, with no leading zero. */
  function NatToString(n: nat): (r: string)
    ensures r != [] && forall i :: 0 <= i < |r| ==> '0' <= r[i] <= '9'
    ensures DigitsValue(r) == n
    ensures r[0] == '0' ==> r == "0"
  {
    var digit := ['0' + (n % 10) as char];
    if n < 10 then digit
    else
      var prefix := NatToString(n / 10);
      assert (prefix + digit)[..|prefix + digit| - 1] == prefix;
      prefix + digit
  }

  /** Elements joined by ",", as `Array.prototype.join()` does. */
  function JoinComma(parts: seq<string>): string {
    if parts == [] then ""
    else if |parts| == 1 then parts[0]
    else parts[0] + "," + JoinComma(parts[1..])
  }

  /**
   * `String(v)`, which template literals apply to an interpolated value;
   * numbers are integers here, written in decimal.
   */
  function JsString(v: JsValue): string {
    match v
    case None => "undefined"
    case Some(j) => JsonString(j)
  }

  function JsonString(j: Json): string {
    match j
    case JNull => "null"
    case JBool(b) => if b then "true" else "false"
    case JNum(n) => if n < 0 then "-" + NatToString(-n) else NatToString(n)
    case JStr(s) => s
    case JArr(items) =>
      JoinComma(seq(|items|, i requires 0 <= i < |items| => if items[i].JNull? then "" else JsonString(items[i])))
    case JObj(_) => "[object Object]"
  }
}
