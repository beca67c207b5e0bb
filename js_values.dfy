/**
 * JavaScript values as the SDK handles them: call parameters, configuration
 * objects and the records it stores are all plain objects of such values.
 */
module JsValues {

  /**
   * A JavaScript value, narrowed to what the SDK reads and writes. Numbers are
   * integers; an instant is a count of milliseconds since the Unix epoch (UTC),
   * standing for the ISO-8601 strings the SDK writes and the store parses.
   */
  datatype Value =
    | Undefined
    | Null
    | Bool(b: bool)
    | Num(n: int)
    | Str(s: string)
    | Instant(ms: int)
    | Obj(fields: map<string, Value>)

  /** A plain object: property name to value. */
  type Object = map<string, Value>

  /** `o[key]`: a property the object lacks reads as undefined. */
  function Get(o: Object, key: string): Value {
    if key in o then o[key] else Undefined
  }

  /** `v.key` on any value: only objects have the properties the SDK asks for. */
  function Property(v: Value, key: string): Value
    requires v != Null && v != Undefined
  {
    if v.Obj? then Get(v.fields, key) else Undefined
  }

  /** JavaScript truthiness: `!!v`. */
  predicate Truthy(v: Value) {
    match v
    case Undefined => false
    case Null => false
    case Bool(b) => b
    case Num(n) => n != 0
    case Str(s) => s != ""
    case Instant(_) => true
    case Obj(_) => true
  }

  /** A destructured parameter with a default, `{ name = d }`: the default replaces undefined only. */
  function WithDefault(params: Object, name: string, d: Value): Value {
    if Get(params, name) == Undefined then d else Get(params, name)
  }
}
