/**
 * `GET /api/basiq/transactions?userId=...&limit=...&url=...`: fetch a user's transactions,
 * or a page the client names directly. The server token is requested before the
 * parameters are checked.
 */
module TransactionsRoute {
  import opened Wrappers
  import opened Text
  import opened Json
  import opened Http

  const DefaultLimit := "500"
  const UserIdRequired := "User ID is required"
  const InvalidJson := "Invalid JSON from Basiq"
  const FetchFailed := "Failed to fetch transactions"

  /** The URL fetched: the direct `url` when given, else the user's list with the limit; none without either. */
  function TransactionsUrl(userId: Option<string>, limit: Option<string>, directUrl: Option<string>): (r: Option<string>)
    ensures r.None? <==> !Truthy(directUrl) && !Truthy(userId)
    ensures Truthy(directUrl) ==> r == directUrl
  {
    if Truthy(directUrl) then directUrl
    else if !Truthy(userId) then None
    else Some("https://au-api.basiq.io/users/" + userId.value + "/transactions?limit=" + OrElse(limit, DefaultLimit))
  }

  /** Without a direct URL the list URL names the user and the limit, 500 when none or an empty one is given. */
  lemma ListUrl(userId: string, limit: Option<string>)
    requires userId != ""
    ensures var u := TransactionsUrl(Some(userId), limit, None).value;
            && Text.EndsWith(u, "/transactions?limit=" + (if Truthy(limit) then limit.value else "500"))
            && u[..|"https://au-api.basiq.io/users/"|] == "https://au-api.basiq.io/users/"
  {
  }

  /** The handler; `server` is the outcome of the server-token request, `upstream` the transactions fetch. */
  function Handle(userId: Option<string>, limit: Option<string>, directUrl: Option<string>,
                  server: Result<Json, string>, upstream: Upstream): (r: Outcome)
    ensures |r.calls| >= 1 && r.calls[0] == ServerTokenCall
    ensures server.Failure? ==> r == Outcome(ErrorResponse(500, server.error), [ServerTokenCall])
    ensures server.Success? && TransactionsUrl(userId, limit, directUrl).None? ==>
              r == Outcome(ErrorResponse(400, UserIdRequired), [ServerTokenCall])
    ensures server.Success? && TransactionsUrl(userId, limit, directUrl).Some? ==>
              r.calls == [ServerTokenCall, FetchCall(TransactionsUrl(userId, limit, directUrl).value, Show(server.value))]
    ensures |r.calls| == 2 && upstream.Answered? && upstream.body.Failure? ==> r.response == ErrorResponse(502, InvalidJson)
    ensures |r.calls| == 2 && upstream.Answered? && upstream.body.Success? && !upstream.ok ==>
              r.response.status == upstream.status
              && Get(r.response.body, "error") == Some(OrText(Get(upstream.body.value, "message"), FetchFailed))
    ensures |r.calls| == 2 && upstream.Answered? && upstream.body.Success? && upstream.ok && !upstream.body.value.JNull? ==>
              r.response == Response(200, upstream.body.value)
  {
    match server
    case Failure(e) => Outcome(ErrorResponse(500, e), [ServerTokenCall])
    case Success(token) =>
      match TransactionsUrl(userId, limit, directUrl)
      case None => Outcome(ErrorResponse(400, UserIdRequired), [ServerTokenCall])
      case Some(url) =>
        var calls := [ServerTokenCall, FetchCall(url, Show(token))];
        match upstream
        case Threw(e) => Outcome(ErrorResponse(500, e), calls)
        case Answered(ok, status, parsed) =>
          match parsed
          case Failure(_) => Outcome(ErrorResponse(502, InvalidJson), calls)
          case Success(data) =>
            if !ok then Outcome(Response(status, JObj([("error", OrText(Get(data, "message"), FetchFailed))])), calls)
            else if data.JNull? then Outcome(ErrorResponse(500, NullRead("data")), calls)
            else Outcome(Response(200, data), calls)
  }

  /** Even the missing-parameter answer costs a token request: a failing token service turns it into a 500. */
  lemma TokenBeforeGuard(limit: Option<string>, e: string, upstream: Upstream)
    ensures Handle(None, limit, None, Failure(e), upstream).response == ErrorResponse(500, e)
    ensures Handle(None, limit, None, Success(JStr("t")), upstream).response == ErrorResponse(400, UserIdRequired)
  {
  }
}
