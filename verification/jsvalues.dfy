/** The JavaScript values the configuration code handles, and the predicates
    of src/utils.js over them. Numbers are integers here; objects other than
    arrays do not occur among the option values. */
module JsValues {

  datatype JsValue =
    | Undefined
    | Null
    | Bool(b: bool)
    | Num(n: int)
    | Str(s: string)
    | Arr(elems: seq<JsValue>)

  /** The `typeof` operator. */
  function TypeOf(v: JsValue): string {
    match v
    case Undefined => "undefined"
    case Null => "object"
    case Bool(_) => "boolean"
    case Num(_) => "number"
    case Str(_) => "string"
    case Arr(_) => "object"
  }

  /** JavaScript truthiness: `undefined`, `null`, `false`, `0` and `""` are
      falsy; every array, even an empty one, is truthy. */
  predicate Truthy(v: JsValue) {
    match v
    case Undefined => false
    case Null => false
    case Bool(b) => b
    case Num(n) => n != 0
    case Str(s) => s != ""
    case Arr(_) => true
  }

  /** `isUndefined`: `typeof value === "undefined" || value === undefined`. */
  function IsUndefined(v: JsValue): (u: bool)
    ensures u <==> v == Undefined
  {
    TypeOf(v) == "undefined" || v == Undefined
  }

  /** `Array.isArray`. */
  function IsArray(v: JsValue): bool {
    v.Arr?
  }

  /** `isEmptyArray`: anything that is not an array counts as empty. */
  function IsEmptyArray(v: JsValue): (e: bool)
    ensures !v.Arr? ==> e
    ensures v.Arr? ==> (e <==> |v.elems| == 0)
  {
    if IsUndefined(v) || !IsArray(v) then true else |v.elems| == 0
  }

  /** `arrayHasLength`: an array with at least one element. */
  function ArrayHasLength(v: JsValue): (h: bool)
    ensures h <==> v.Arr? && |v.elems| >= 1
  {
    !IsEmptyArray(v)
  }
}
