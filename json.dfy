/**
 * JSON values as the service sees them once a body or a column has been
 * parsed, together with the few pieces of JavaScript semantics the core relies
 * on: truthiness, `||`, property access and `JSON.stringify`/`JSON.parse`.
 */
module Json {
  import opened Wrappers

  /** A parsed JSON value. Numbers are integers; fractions are not modelled. */
  datatype Value =
    | Null
    | Bool(b: bool)
    | Num(n: int)
    | Str(s: string)
    | Arr(items: seq<Value>)
    | Obj(fields: map<string, Value>)

  /** The empty object `{}`. */
  const EmptyObject: Value := Obj(map[])

  /** JavaScript truthiness of a value that may be `undefined` (None). */
  predicate Truthy(v: Option<Value>) {
    match v
    case None => false
    case Some(x) =>
      match x
      case Null => false
      case Bool(b) => b
      case Num(n) => n != 0
      case Str(s) => s != ""
      case Arr(_) => true
      case Obj(_) => true
  }

  /** `a || b` */
  function Or(a: Option<Value>, b: Option<Value>): Option<Value> {
    if Truthy(a) then a else b
  }

  /** `a || d` for a default `d` that is itself a value. */
  function OrElse(a: Option<Value>, d: Value): Value {
    if Truthy(a) then a.value else d
  }

  /** `v.key`, for an object or anything else without that property. */
  function Field(v: Value, key: string): Option<Value> {
    if v.Obj? && key in v.fields then Some(v.fields[key]) else None
  }

  /** `JSON.stringify` and `JSON.parse`, left uninterpreted. A failed parse is None. */
  datatype Codec = Codec(stringify: Value -> string, parse: string -> Option<Value>)

  /**
   * What the model relies on about the pair: parsing what was stringified
   * gives the value back, no value is written as the empty text, and `{}`
   * is written as the text "{}".
   */
  ghost predicate Lawful(json: Codec) {
    && (forall v :: json.parse(json.stringify(v)) == Some(v))
    && (forall v :: json.stringify(v) != "")
    && json.stringify(EmptyObject) == "{}"
  }

}
