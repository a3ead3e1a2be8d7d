/** The parsed JSON value `normalizeQuestions` receives, and the three pieces of
    JavaScript semantics it applies to such values: property access, truthiness
    and conversion with `String(...)`. */
module Json {
  import opened Wrappers
  import opened JsStrings

  /** A value `JSON.parse` can produce. Numbers are whole numbers here. */
  datatype Json =
    | JNull
    | JBool(b: bool)
    | JNum(n: int)
    | JStr(s: string)
    | JArr(items: seq<Json>)
    | JObj(fields: map<string, Json>)

  /** `v.key` for a value that is not null: `None` stands for `undefined`. The key
      names the source reads (id, content, options, ...) are not inherited by
      arrays, strings, numbers or booleans, so only an object's own entry counts. */
  function Prop(v: Json, key: string): (r: Option<Json>)
    ensures r.Some? <==> v.JObj? && key in v.fields
  {
    if v.JObj? && key in v.fields then Some(v.fields[key]) else None
  }

  /** JavaScript truthiness of a possibly-undefined value. */
  predicate Truthy(v: Option<Json>) {
    match v
    case None => false
    case Some(JNull) => false
    case Some(JBool(b)) => b
    case Some(JNum(n)) => n != 0
    case Some(JStr(s)) => s != ""
    case Some(JArr(_)) => true
    case Some(JObj(_)) => true
  }

  /** `typeof v === 'object'`: true of objects, arrays and null. */
  predicate IsObjectTyped(v: Json) {
    v.JObj? || v.JArr? || v.JNull?
  }

  /** Whether `String(v)` returns rather than throws. An object with its own
      `toString` entry holds a value there that cannot be called, and the
      inherited `valueOf` gives back the object itself, so converting it throws a
      TypeError; an array converts each of its entries. */
  predicate Printable(v: Json)
    decreases v
  {
    match v
    case JArr(items) => forall k :: 0 <= k < |items| ==> Printable(items[k])
    case JObj(fields) => "toString" !in fields
    case _ => true
  }

  /** `String(v)` for a value whose conversion returns. An array is joined with
      commas, with null entries written as the empty string; an object without
      its own `toString` is "[object Object]". */
  function ToJsString(v: Json): string
    requires Printable(v)
    decreases v
  {
    match v
    case JNull => "null"
    case JBool(b) => if b then "true" else "false"
    case JNum(n) => IntToString(n)
    case JStr(s) => s
    case JArr(items) =>
      JoinWithCommas(seq(|items|, k requires 0 <= k < |items| =>
        if items[k].JNull? then "" else ToJsString(items[k])))
    case JObj(_) => "[object Object]"
  }

  function JoinWithCommas(parts: seq<string>): string {
    if parts == [] then ""
    else if |parts| == 1 then parts[0]
    else JoinWithCommas(parts[..|parts| - 1]) + "," + parts[|parts| - 1]
  }

  /** Whether a template-literal slot `${v}` or a property key `obj[v]` made of a
      possibly-undefined value returns: the conversion is the one `String` makes. */
  predicate Converts(v: Option<Json>) {
    v.None? || Printable(v.value)
  }

  /** A template-literal `${v}` slot for a possibly-undefined value. */
  function TemplateText(v: Option<Json>): string
    requires Converts(v)
  {
    match v
    case None => "undefined"
    case Some(x) => ToJsString(x)
  }

  /** `String.fromCharCode(n)`: the UTF-16 code unit n mod 2^16. A lone surrogate
      code unit is no Unicode scalar value, so it is written as U+FFFD here. */
  function FromCharCode(n: int): (c: char)
    ensures 0 <= n < 0xD800 ==> c as int == n
  {
    var u := n % 0x1_0000;
    if 0xD800 <= u < 0xE000 then '\U{FFFD}' else u as char
  }
}
