/**
  JSON values as `JSON.parse` produces them and `JSON.stringify` consumes them, with the
  JavaScript semantics the translator relies on: truthiness and property access.
  The text form itself is not modelled; a parse failure is a separate outcome.
 */
module Json {
  import opened Wrappers

  datatype Json =
    | JNull
    | JBool(b: bool)
    | JNum(n: real)
    | JStr(s: string)
    | JArr(elems: seq<Json>)
    | JObj(fields: map<string, Json>)

  /** What `JSON.parse` yields: a value, or the `SyntaxError` it throws on text that is not JSON. */
  datatype Parsed = Unparseable | Parsed(value: Json)

  /** JavaScript `ToBoolean`: `null`, `false`, `0` and `""` are falsy; arrays and objects (even empty) are truthy. */
  predicate Truthy(v: Json) {
    match v
    case JNull => false
    case JBool(b) => b
    case JNum(n) => n != 0.0
    case JStr(s) => s != ""
    case JArr(_) => true
    case JObj(_) => true
  }

  /** `v.key` on a value that is not `null`: the own field of an object; `undefined` (None) otherwise. Reading a property of `null` throws, which callers model before calling this. */
  function Get(v: Json, key: string): (r: Option<Json>)
    requires !v.JNull?
    ensures r.Some? <==> v.JObj? && key in v.fields
    ensures r.Some? ==> r.value == v.fields[key]
  {
    if v.JObj? && key in v.fields then Some(v.fields[key]) else None
  }

  /** Truthiness of a property read: `undefined` is falsy. */
  predicate TruthyOpt(o: Option<Json>) {
    o.Some? && Truthy(o.value)
  }

  /** `Array.isArray` of a property read. */
  predicate IsArrayOpt(o: Option<Json>) {
    o.Some? && o.value.JArr?
  }
}
