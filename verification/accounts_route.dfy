/**
 * `GET /api/basiq/accounts?userId=...&accountId=...&url=...`: a user's account list, one
 * account, or a URL the client names directly. Any upstream error becomes a 500.
 */
module AccountsRoute {
  import opened Wrappers
  import opened Text
  import opened Json
  import opened Http

  const UserIdRequired := "User ID is required"
  const FetchFailed := "Failed to fetch accounts"

  /** The URL fetched: the direct `url`, else the user's accounts, with `/{accountId}` when one is given. */
  function AccountsUrl(userId: Option<string>, accountId: Option<string>, directUrl: Option<string>): (r: Option<string>)
    ensures r.None? <==> !Truthy(directUrl) && !Truthy(userId)
    ensures Truthy(directUrl) ==> r == directUrl
  {
    if Truthy(directUrl) then directUrl
    else if !Truthy(userId) then None
    else
      var list := "https://au-api.basiq.io/users/" + userId.value + "/accounts";
      Some(if Truthy(accountId) then list + "/" + accountId.value else list)
  }

  /** The account id, when given, is one extra path segment after the list URL. */
  lemma AccountSegment(userId: string, accountId: Option<string>)
    requires userId != ""
    ensures var list := AccountsUrl(Some(userId), None, None).value;
            AccountsUrl(Some(userId), accountId, None).value == list + (if Truthy(accountId) then "/" + accountId.value else "")
  {
  }

  /** A request for one account, by id or by direct URL, returns the whole body. */
  predicate Single(accountId: Option<string>, directUrl: Option<string>) {
    Truthy(accountId) || Truthy(directUrl)
  }

  /**
   * The exception the diagnostic log line raises for a body it cannot summarise: a `null`
   * body, a `data` field that is neither absent, `null` nor an array, or an array with a
   * `null` account.
   */
  function SummaryError(data: Json): (r: Option<string>)
    ensures data.JNull? ==> r.Some?
    ensures !data.JNull? && Get(data, "data").None? ==> r.None?
    ensures !data.JNull? && Get(data, "data").Some? && Get(data, "data").value.JArr? ==>
              (r.Some? <==> exists i :: 0 <= i < |Get(data, "data").value.items| && Get(data, "data").value.items[i].JNull?)
  {
    if data.JNull? then Some(NullRead("data"))
    else
      match Get(data, "data")
      case None => None
      case Some(JNull) => None
      case Some(JArr(items)) => if exists i :: 0 <= i < |items| && items[i].JNull? then Some(NullRead("balance")) else None
      case Some(_) => Some("data.data?.reduce is not a function")
  }

  /** The handler; `server` is the outcome of the server-token request, `upstream` the accounts fetch. */
  function Handle(userId: Option<string>, accountId: Option<string>, directUrl: Option<string>,
                  server: Result<Json, string>, upstream: Upstream): (r: Outcome)
    ensures |r.calls| >= 1 && r.calls[0] == ServerTokenCall
    ensures server.Failure? ==> r == Outcome(ErrorResponse(500, server.error), [ServerTokenCall])
    ensures server.Success? && AccountsUrl(userId, accountId, directUrl).None? ==>
              r == Outcome(ErrorResponse(400, UserIdRequired), [ServerTokenCall])
    ensures server.Success? && AccountsUrl(userId, accountId, directUrl).Some? ==>
              r.calls == [ServerTokenCall, FetchCall(AccountsUrl(userId, accountId, directUrl).value, Show(server.value))]
    ensures |r.calls| == 2 && upstream.Answered? && upstream.body.Success? && !upstream.ok && !upstream.body.value.JNull? ==>
              r.response == ErrorResponse(500, Show(OrText(Get(upstream.body.value, "message"), FetchFailed)))
    ensures r.response.status != 200 ==> r.response.status in {400, 500}
    ensures r.response.status == 200 ==> |r.calls| == 2 && upstream.Answered? && upstream.ok && upstream.body.Success?
                                         && SummaryError(upstream.body.value).None?
  {
    match server
    case Failure(e) => Outcome(ErrorResponse(500, e), [ServerTokenCall])
    case Success(token) =>
      match AccountsUrl(userId, accountId, directUrl)
      case None => Outcome(ErrorResponse(400, UserIdRequired), [ServerTokenCall])
      case Some(url) =>
        var calls := [ServerTokenCall, FetchCall(url, Show(token))];
        match upstream
        case Threw(e) => Outcome(ErrorResponse(500, e), calls)
        case Answered(ok, status, parsed) =>
          match parsed
          case Failure(e) => Outcome(ErrorResponse(500, e), calls)
          case Success(data) =>
            if !ok then
              if data.JNull? then Outcome(ErrorResponse(500, NullRead("message")), calls)
              else Outcome(ErrorResponse(500, Show(OrText(Get(data, "message"), FetchFailed))), calls)
            else
              match SummaryError(data)
              case Some(e) => Outcome(ErrorResponse(500, e), calls)
              case None =>
                if Single(accountId, directUrl) then Outcome(Response(200, data), calls)
                else Outcome(Response(200, Or(Get(data, "data"), JArr([]))), calls)
  }

  /**
   * The shape of a successful answer: the whole body for a single account, and for a list
   * the body's `data` array, or an empty array when the body has no `data`.
   */
  lemma ResponseShape(userId: Option<string>, accountId: Option<string>, directUrl: Option<string>,
                      token: Json, status: int, data: Json)
    requires AccountsUrl(userId, accountId, directUrl).Some? && SummaryError(data).None?
    ensures var r := Handle(userId, accountId, directUrl, Success(token), Answered(true, status, Success(data)));
            && r.response.status == 200
            && (Single(accountId, directUrl) ==> r.response.body == data)
            && (!Single(accountId, directUrl) && Get(data, "data").None? ==> r.response.body == JArr([]))
            && (!Single(accountId, directUrl) && Get(data, "data").Some? && Get(data, "data").value.JArr? ==>
                  r.response.body == Get(data, "data").value)
  {
  }

  /** The upstream's own error status never reaches the client: every failure is a 400 or a 500. */
  lemma ErrorsAreInternal(userId: Option<string>, accountId: Option<string>, directUrl: Option<string>,
                          token: Json, status: int, data: Json)
    requires AccountsUrl(userId, accountId, directUrl).Some?
    ensures Handle(userId, accountId, directUrl, Success(token), Answered(false, status, Success(data))).response.status == 500
  {
  }
}
