/** Decoded JSON values and the few pieces of JavaScript semantics the
    validators rely on: `typeof`, `Array.isArray`, property reads and
    truthiness. */
module Json {

  datatype Option<T> = None | Some(value: T)

  /** A value as `JSON.parse` returns it. Numbers are kept as integers. */
  datatype Json =
    | JNull
    | JBool(b: bool)
    | JNumber(n: int)
    | JString(s: string)
    | JArray(items: seq<Json>)
    | JObject(fields: map<string, Json>)

  /** The answers of `typeof` that a decoded JSON value (or `undefined`) can give. */
  datatype JsType = Undefined | Object | Boolean | Number | String

  /** `obj.key` on a value that is not `null` (reading a property of `null`
      throws, so callers check first). `None` stands for `undefined`: only
      own keys of an object are modelled. */
  function Prop(v: Json, key: string): Option<Json>
    requires !v.JNull?
  {
    if v.JObject? && key in v.fields then Some(v.fields[key]) else None
  }

  /** `typeof o`, where `None` is `undefined`. `null` and arrays are "object". */
  function TypeOf(o: Option<Json>): (t: JsType)
    ensures t == Object <==> o.Some? && (o.value.JNull? || o.value.JArray? || o.value.JObject?)
    ensures t == Undefined <==> o.None?
  {
    match o
    case None => Undefined
    case Some(v) =>
      match v
      case JNull => Object
      case JBool(_) => Boolean
      case JNumber(_) => Number
      case JString(_) => String
      case JArray(_) => Object
      case JObject(_) => Object
  }

  /** `Array.isArray(o)`. */
  predicate IsArray(o: Option<Json>) {
    o.Some? && o.value.JArray?
  }

  /** JavaScript truthiness of a decoded value: `null`, `false`, `0` and `""` are falsy. */
  predicate Truthy(v: Json) {
    match v
    case JNull => false
    case JBool(b) => b
    case JNumber(n) => n != 0
    case JString(s) => s != ""
    case JArray(_) => true
    case JObject(_) => true
  }
}
