/**
 * What the API route handlers have in common: the response they return, the outside
 * calls they make (token requests and upstream fetches, in order), and the answer an
 * upstream fetch can give. A handler is a function from its inputs and the outcomes of
 * those calls to an `Outcome`.
 */
module Http {
  import opened Wrappers
  import opened Json

  /** `NextResponse.json(body, { status })`. */
  datatype Response = Response(status: int, body: Json)

  /** An outside call a handler makes. `bearer` is the access token sent in the `Authorization` header. */
  datatype Call =
    | ServerTokenCall
    | ClientTokenCall(userId: Json)
    | FetchCall(url: string, bearer: string)
    | PostCall(url: string, bearer: string, payload: Json)

  /** The response a handler returns and the calls it made on the way, in order. */
  datatype Outcome = Outcome(response: Response, calls: seq<Call>)

  /**
   * An upstream `fetch`: it threw, or it answered with `ok`, a status and the result of
   * parsing the body as JSON (the parse error's message when the body is not JSON).
   */
  datatype Upstream = Threw(message: string) | Answered(ok: bool, status: int, body: Result<Json, string>)

  /** The response `{ error: message }` with the given status. */
  function ErrorResponse(status: int, message: string): (r: Response)
    ensures r.status == status && Get(r.body, "error") == Some(JStr(message))
  {
    Response(status, ErrorBody(message))
  }

  /** `{ error, details }`, the body of the handlers that report a cause alongside a fixed message. */
  function Detailed(status: int, message: string, details: string): (r: Response)
    ensures r.status == status
    ensures Get(r.body, "error") == Some(JStr(message)) && Get(r.body, "details") == Some(JStr(details))
  {
    var fields := [("error", JStr(message)), ("details", JStr(details))];
    assert fields[..1] == [("error", JStr(message))];
    assert "details"[0] != "error"[0];
    assert Lookup(fields[..1], "error") == Some(JStr(message));
    assert Lookup(fields, "error") == Lookup(fields[..1], "error");
    Response(status, JObj(fields))
  }

  /** The message of the `TypeError` raised by destructuring `{ p, ... }` out of a `null` named `subject`. */
  function DestructureNull(p: string, subject: string): string {
    "Cannot destructure property '" + p + "' of '" + subject + "' as it is null."
  }

  /** How the engine names a destructured value that is not held in a variable. */
  const Intermediate := "(intermediate value)"

  /**
   * `const { p, ... } = await request.json()`: the parsed body, or the error thrown by a
   * body that is not JSON or is `null`. Destructuring any other value succeeds, and a
   * field it lacks is `undefined`.
   */
  function RequestFields(body: Result<Json, string>, p: string, subject: string): (r: Result<Json, string>)
    ensures r.Success? <==> body.Success? && !body.value.JNull?
    ensures r.Success? ==> r.value == body.value
    ensures body.Failure? ==> r == body
  {
    match body
    case Failure(e) => Failure(e)
    case Success(j) => if j.JNull? then Failure(DestructureNull(p, subject)) else Success(j)
  }
}
