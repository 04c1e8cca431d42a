/** The handful of JavaScript notions the account code relies on: optional values, how an awaited
    call settles, the values that flow into documents, and truthiness. */
module Js {

  /** A value that may be absent (`null` / `undefined` in the source). */
  datatype Option<+T> = None | Some(value: T)

  /** How an awaited async call settles: it resolves with a value, or it rejects (throws). */
  datatype Completion<+T> = Returned(value: T) | Threw

  /** The JavaScript values that reach a document draft or a condition. */
  datatype JsValue =
    | Undefined
    | Null
    | Bool(b: bool)
    | Str(s: string)
    | Promise(settlesTo: JsValue)  // what an async function hands back when its call is not awaited

  /** `if (v)`: JavaScript truthiness. Every object is truthy, a pending promise included. */
  predicate Truthy(v: JsValue)
  {
    match v
    case Undefined => false
    case Null => false
    case Bool(b) => b
    case Str(s) => s != ""
    case Promise(_) => true
  }

  /** A string that may be `null`, as a JavaScript value. */
  function OrNull(o: Option<string>): (v: JsValue)
  {
    match o
    case Some(s) => Str(s)
    case None => Null
  }

  /** A request-body field that may be missing, as a JavaScript value. */
  function OrUndefined(o: Option<string>): (v: JsValue)
  {
    match o
    case Some(s) => Str(s)
    case None => Undefined
  }
}
