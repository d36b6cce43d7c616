/** The loosely typed request bodies (`unknown` in the source) that the
    schemas validate: a JSON value as the web framework parses it. An absent
    field is a key missing from an `Object`; an absent argument is `None`. */
module Json {
  import opened Wrappers

  datatype Value =
    | Null
    | Bool(b: bool)
    | Number(n: real)
    | Str(s: string)
    | Array(items: seq<Value>)
    | Object(fields: map<string, Value>)

  /** JavaScript truthiness, as `if (v)` tests it. */
  predicate Truthy(v: Value)
    ensures Truthy(v) <==> v != Null && v != Bool(false) && v != Number(0.0) && v != Str("")
  {
    match v
    case Null => false
    case Bool(b) => b
    case Number(n) => n != 0.0
    case Str(s) => s != ""
    case Array(_) => true
    case Object(_) => true
  }

  /** The string stored under `key`, when `v` is an object holding a string there. */
  function StringField(v: Value, key: string): (r: Option<string>)
    ensures r.Some? <==> v.Object? && key in v.fields && v.fields[key].Str?
    ensures r.Some? ==> v.fields[key] == Str(r.value)
  {
    if v.Object? && key in v.fields && v.fields[key].Str? then Some(v.fields[key].s) else None
  }

  /** The number stored under `key`, when `v` is an object holding a number there. */
  function NumberField(v: Value, key: string): (r: Option<real>)
    ensures r.Some? <==> v.Object? && key in v.fields && v.fields[key].Number?
    ensures r.Some? ==> v.fields[key] == Number(r.value)
  {
    if v.Object? && key in v.fields && v.fields[key].Number? then Some(v.fields[key].n) else None
  }
}
