/**
 * JavaScript values as the route handlers see them: request-body fields,
 * query parameters, values returned by external services, and the fields of
 * a thrown error. Only what the handlers inspect is modelled: `typeof x ===
 * 'string'` and truthiness (`!x`, `a || b`).
 */
module JsValues {

  /** A JavaScript value. Numbers are modelled as integers (see README). */
  datatype JsValue =
    | Undefined
    | Null
    | Bool(b: bool)
    | Num(n: int)
    | Str(s: string)
    | Arr(items: seq<JsValue>)
    | Obj(props: seq<(string, JsValue)>)

  /** JavaScript truthiness: `undefined`, `null`, `false`, `0` and `""` are falsy. */
  predicate Truthy(v: JsValue): (r: bool)
    ensures r <==> !(v == Undefined || v == Null || v == Bool(false) || v == Num(0) || v == Str(""))
  {
    match v
    case Undefined => false
    case Null => false
    case Bool(b) => b
    case Num(n) => n != 0
    case Str(s) => s != ""
    case Arr(_) => true
    case Obj(_) => true
  }

  /** `a || b`: the left operand when it is truthy, the right one otherwise. */
  function Or(a: JsValue, b: JsValue): (r: JsValue)
    ensures Truthy(a) ==> r == a
    ensures !Truthy(a) ==> r == b
    ensures Truthy(r) <==> Truthy(a) || Truthy(b)
  {
    if Truthy(a) then a else b
  }

  /**
   * A thrown error, reduced to the four properties the error middleware reads.
   * A property the error object does not have is `Undefined`.
   */
  datatype Err = Err(status: JsValue, statusCode: JsValue, message: JsValue, stack: JsValue)

  /**
   * `new Error(msg)`: no status, no statusCode, the message, and a stack whose
   * first line is `Error: msg` (the call-site frames that follow it are not modelled).
   */
  function PlainError(msg: string): (e: Err)
    ensures e.message == Str(msg)
    ensures !Truthy(e.status) && !Truthy(e.statusCode)
  {
    Err(Undefined, Undefined, Str(msg), Str("Error: " + msg))
  }

  /** The outcome of an awaited call that may reject. */
  datatype Result<T> = Success(value: T) | Failure(error: Err)

  datatype Option<T> = None | Some(value: T)

  /** Raw bytes of a file or an audio buffer. */
  type Bytes = seq<bv8>
}
