/**
 * The two last-resort middlewares: `errorHandler`, which turns an error passed
 * to `next` into the JSON error envelope, and `notFoundHandler`, which answers
 * a request no route matched.
 */
module ErrorHandler {
  import opened JsValues
  import opened Http

  const InternalServerError: string := "Internal Server Error"

  /** `process.env.NODE_ENV === 'development'`; `None` when the variable is unset. */
  predicate IsDevelopment(nodeEnv: Option<string>) {
    nodeEnv == Some("development")
  }

  /** `err.status || err.statusCode || 500` */
  function ResolveStatus(err: Err): (r: JsValue)
    ensures Truthy(r)
    ensures Truthy(err.status) ==> r == err.status
    ensures !Truthy(err.status) && Truthy(err.statusCode) ==> r == err.statusCode
    ensures !Truthy(err.status) && !Truthy(err.statusCode) ==> r == Num(500)
  {
    Or(Or(err.status, err.statusCode), Num(500))
  }

  /** `err.message || 'Internal Server Error'` */
  function ResolveMessage(err: Err): (r: JsValue)
    ensures Truthy(r)
    ensures Truthy(err.message) ==> r == err.message
    ensures !Truthy(err.message) ==> r == Str(InternalServerError)
  {
    Or(err.message, Str(InternalServerError))
  }

  /**
   * `errorHandler(err, req, res, next)`: the resolved status, `success:false`,
   * the resolved message, and the stack exactly in development.
   */
  function HandleError(err: Err, nodeEnv: Option<string>): (r: Response)
    ensures !r.body.Success() && Truthy(r.status) && Truthy(r.body.message)
    ensures r.status == ResolveStatus(err) && r.body.message == ResolveMessage(err)
    ensures r.body.stack.Some? <==> IsDevelopment(nodeEnv)
    ensures r.body.stack.Some? ==> r.body.stack.value == err.stack
  {
    var stack := if IsDevelopment(nodeEnv) then Some(err.stack) else None;
    Response(ResolveStatus(err), ErrorBody(ResolveMessage(err), stack))
  }

  /** The message of the 404 envelope for a request to `url`. */
  function NotFoundMessage(url: string): (m: string)
    ensures |m| == |url| + 16
    ensures m[..6] == "Route " && m[6..|m| - 10] == url && m[|m| - 10..] == " not found"
  {
    "Route " + url + " not found"
  }

  /** Recovers the URL from a 404 message: the message determines the route it names. */
  function UrlOfNotFoundMessage(m: string): string
    requires |m| >= 16
  {
    m[6..|m| - 10]
  }

  lemma NotFoundMessageRoundTrip(url: string)
    ensures UrlOfNotFoundMessage(NotFoundMessage(url)) == url
  {
  }

  /** Distinct routes get distinct 404 messages. */
  lemma NotFoundMessageInjective(a: string, b: string)
    requires NotFoundMessage(a) == NotFoundMessage(b)
    ensures a == b
  {
    NotFoundMessageRoundTrip(a);
    NotFoundMessageRoundTrip(b);
  }

  /** `notFoundHandler(req, res, next)`: always 404, `success:false`, the route in the message, no stack. */
  function NotFound(originalUrl: string): (r: Response)
    ensures r.status == Num(404) && !r.body.Success()
    ensures r.body.message == Str(NotFoundMessage(originalUrl)) && r.body.stack.None?
  {
    Response(Num(404), ErrorBody(Str(NotFoundMessage(originalUrl)), None))
  }

  /**
   * What the client finally receives from a handler run: the handler's own
   * response, or the error middleware's answer to the forwarded error.
   */
  function Deliver(outcome: Outcome, nodeEnv: Option<string>): (r: Response)
    ensures outcome.Respond? ==> r == outcome.response
    ensures outcome.Forward? ==> !r.body.Success() && r == HandleError(outcome.error, nodeEnv)
  {
    match outcome
    case Respond(response) => response
    case Forward(err) => HandleError(err, nodeEnv)
  }

  /** An error built with `new Error(msg)` and forwarded reaches the client as a 500 with that message. */
  lemma PlainErrorIs500(msg: string, nodeEnv: Option<string>)
    requires msg != ""
    ensures Deliver(Forward(PlainError(msg)), nodeEnv).status == Num(500)
    ensures Deliver(Forward(PlainError(msg)), nodeEnv).body.message == Str(msg)
  {
  }
}
