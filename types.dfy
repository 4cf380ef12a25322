/**
  Values the handler receives from its upstream services, in the shape in which
  it reads them (src/handler.ts).
 */
module Types {

  /** An optional value: `None` stands for JavaScript's `undefined` or `null`. */
  datatype Option<T> = None | Some(value: T) {
    /** `x ?? default` */
    function GetOr(default: T): T {
      if Some? then value else default
    }
  }

  /** A string field that may be missing. It is truthy when present and not empty. */
  predicate Present(s: Option<string>) {
    s.Some? && s.value != ""
  }

  /**
    A JSON value as the handler sees it after parsing. Only its truthiness is
    ever inspected, so arrays and objects are not told apart.
   */
  datatype JsValue =
    | Undefined
    | Null
    | Boolean(b: bool)
    | Number(x: real)
    | NotANumber
    | Text(s: string)
    | Composite

  /** JavaScript truthiness: false, 0, NaN, "", null and undefined are falsy. */
  predicate Truthy(v: JsValue) {
    match v
    case Undefined => false
    case Null => false
    case Boolean(b) => b
    case Number(x) => x != 0.0
    case NotANumber => false
    case Text(s) => s != ""
    case Composite => true
  }

  /** `v || null` */
  function OrNull(v: JsValue): JsValue {
    if Truthy(v) then v else Null
  }

  /** One record of the pollution endpoint's `results` array: a name and a pollution value. */
  datatype PollutionRecord = PollutionRecord(name: string, pollution: JsValue)

  /** The arguments of one pollution request. */
  datatype Query = Query(country: string, page: int, limit: int)

  function Min(a: int, b: int): int {
    if a <= b then a else b
  }
}
