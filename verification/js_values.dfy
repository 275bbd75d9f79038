/** JavaScript values as the login routes see them: session entries, entries of
    the echoed form data and members of the error-message array. */
module JsValues {

  /** The subset of JavaScript values the handlers store or test. Numbers are
      modelled by integers only (no NaN, no fractions); objects and arrays
      are not represented. */
  datatype JsValue = Undefined | Null | Bool(b: bool) | Num(n: int) | Str(s: string)

  /** JavaScript truthiness: `if (v)` takes the then-branch exactly for these values. */
  predicate Truthy(v: JsValue) {
    match v
    case Undefined => false
    case Null => false
    case Bool(b) => b
    case Num(n) => n != 0
    case Str(s) => s != ""
  }

  /** `req.session`: a key-value store; a key that was never written reads as undefined. */
  type Session = map<string, JsValue>

  function Get(session: Session, key: string): JsValue {
    if key in session then session[key] else Undefined
  }

  /** Strings lifted to JavaScript values, in the same order
      (`errorArray.map(error => error.msg)` yields strings). */
  function Texts(ms: seq<string>): (vs: seq<JsValue>)
  {
    seq(|ms|, i requires 0 <= i < |ms| => Str(ms[i]))
  }
}
