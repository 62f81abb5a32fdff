/** The JavaScript values that cross the request boundary: request bodies,
    query parameters and the rows the UI keeps in its state are plain
    objects, modelled as maps from property name to value. */
module Js {
  import opened Text

  /** A JavaScript value as the program uses it. Numbers are integral. */
  datatype JsValue = Undefined | Null | Bool(b: bool) | Num(n: int) | Str(s: string)

  /** A plain object: its own enumerable properties. */
  type Obj = map<string, JsValue>

  /** Property access `o[key]`: `undefined` for a missing property. */
  function Get(o: Obj, key: string): JsValue {
    if key in o then o[key] else Undefined
  }

  /** The value JavaScript treats as true in a condition. */
  predicate Truthy(v: JsValue) {
    match v
    case Undefined => false
    case Null => false
    case Bool(b) => b
    case Num(n) => n != 0
    case Str(s) => s != ""
  }

  /** `v ? 1 : 0`. */
  function Bit(v: JsValue): (b: int)
    ensures b == 1 <==> Truthy(v)
    ensures b == 0 <==> !Truthy(v)
  {
    if Truthy(v) then 1 else 0
  }

  /** `String(v)`, as used by `+` with a string and by template literals. */
  function ToJsString(v: JsValue): string {
    match v
    case Undefined => "undefined"
    case Null => "null"
    case Bool(b) => if b then "true" else "false"
    case Num(n) => IntToString(n)
    case Str(s) => s
  }

  /** The TypeError thrown when destructuring `undefined`. */
  function DestructureError(property: string, source: string): string {
    "Cannot destructure property '" + property + "' of '" + source + "' as it is undefined."
  }

  /** The TypeError thrown by `expr.operation()` when `expr` is not a string. */
  function NotAStringError(expr: string, v: JsValue, operation: string): string {
    match v
    case Undefined => "Cannot read properties of undefined (reading '" + operation + "')"
    case Null => "Cannot read properties of null (reading '" + operation + "')"
    case _ => expr + "." + operation + " is not a function"
  }
}
