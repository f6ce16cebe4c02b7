/** The few JavaScript semantics the core relies on: how a value prints inside a
    template literal, what counts as truthy, what `isNaN(Number(v))` says, and
    integer `%` and `Math.floor(a / b)`. */
module Js {

  /** A field read from a parsed JSON body. `Num(text)` carries the number as
      JavaScript prints it (`String(x)`: "37.4", "0", "NaN"); a missing key
      reads as `Undefined`. */
  datatype Value = Undefined | Null | Bool(b: bool) | Num(text: string) | Str(s: string)

  /** The text `${v}` produces. */
  function Render(v: Value): string {
    match v
    case Undefined => "undefined"
    case Null => "null"
    case Bool(b) => if b then "true" else "false"
    case Num(t) => t
    case Str(s) => s
  }

  /** What `v ? a : b` tests: every value is truthy except `undefined`, `null`,
      `false`, the numbers 0 and NaN, and the empty string. */
  predicate Truthy(v: Value) {
    match v
    case Undefined => false
    case Null => false
    case Bool(b) => b
    case Num(t) => t != "0" && t != "NaN"
    case Str(s) => s != ""
  }

  /** Host behaviour the model keeps abstract. */
  datatype Runtime = Runtime(
    // whether `Number(s)` is a number other than NaN, for a string `s`
    isNumericString: string -> bool,
    // `new Date(ms).toUTCString()`
    toUTCString: int -> string,
    // the message of the TypeError raised by calling `.map` on a value that is not an array
    mapTypeError: string)

  /** `isNaN(Number(v))`: `undefined` converts to NaN, `null` and booleans to
      0 or 1, a string according to the host. */
  predicate IsNaNNumber(v: Value, rt: Runtime) {
    match v
    case Undefined => true
    case Null => false
    case Bool(_) => false
    case Num(t) => t == "NaN"
    case Str(s) => !rt.isNumericString(s)
  }

  /** `a % b` on integers: the remainder of truncating division, which takes
      the sign of the dividend. */
  function Remainder(a: int, b: int): int
    requires b > 0
  {
    if a >= 0 then a % b else -((-a) % b)
  }

  /** `Math.floor(a / b)`. */
  function FloorDiv(a: int, b: int): int
    requires b > 0
  {
    a / b
  }
}
