/**
 * `GET /api/basiq/reports?userId=...`: the user's insights, or an empty set of insights
 * when the upstream answers with an error status.
 */
module ReportsRoute {
  import opened Wrappers
  import opened Text
  import opened Json
  import opened Http

  const UserIdRequired := "User ID is required"

  function InsightsUrl(userId: string): string {
    "https://au-api.basiq.io/users/" + userId + "/insights"
  }

  /** `{ insights: [], reports: {} }`. */
  const EmptyInsights := JObj([("insights", JArr([])), ("reports", JObj([]))])

  /** The handler; `server` is the outcome of the server-token request, `upstream` the insights fetch. */
  function Handle(userId: Option<string>, server: Result<Json, string>, upstream: Upstream): (r: Outcome)
    ensures r.calls == [] <==> !Truthy(userId)
    ensures !Truthy(userId) ==> r.response == ErrorResponse(400, UserIdRequired)
    ensures Truthy(userId) && server.Failure? ==> r == Outcome(ErrorResponse(500, server.error), [ServerTokenCall])
    ensures Truthy(userId) && server.Success? ==> r.calls == [ServerTokenCall, FetchCall(InsightsUrl(userId.value), Show(server.value))]
    ensures Truthy(userId) && server.Success? && upstream.Answered? && upstream.body.Success? ==>
              r.response == Response(200, if upstream.ok then upstream.body.value else EmptyInsights)
    ensures Truthy(userId) && server.Success? && (upstream.Threw? || upstream.body.Failure?) ==> r.response.status == 500
  {
    if !Truthy(userId) then Outcome(ErrorResponse(400, UserIdRequired), [])
    else
      match server
      case Failure(e) => Outcome(ErrorResponse(500, e), [ServerTokenCall])
      case Success(token) =>
        var calls := [ServerTokenCall, FetchCall(InsightsUrl(userId.value), Show(token))];
        match upstream
        case Threw(e) => Outcome(ErrorResponse(500, e), calls)
        case Answered(ok, status, parsed) =>
          match parsed
          case Failure(e) => Outcome(ErrorResponse(500, e), calls)
          case Success(data) =>
            if !ok then Outcome(Response(200, EmptyInsights), calls) else Outcome(Response(200, data), calls)
  }

  /** Once the request reaches the upstream and its body parses, the route always answers 200. */
  lemma NeverForwardsErrorStatus(userId: Option<string>, token: Json, ok: bool, status: int, data: Json)
    requires Truthy(userId)
    ensures Handle(userId, Success(token), Answered(ok, status, Success(data))).response.status == 200
    ensures !ok ==> Get(Handle(userId, Success(token), Answered(ok, status, Success(data))).response.body, "insights") == Some(JArr([]))
  {
    var fs := EmptyInsights.fields;
    GetAt(fs, 0);
  }

  /** Without a user id nothing is asked of the token provider or the upstream. */
  lemma GuardFirst(userId: Option<string>, s1: Result<Json, string>, u1: Upstream, s2: Result<Json, string>, u2: Upstream)
    requires !Truthy(userId)
    ensures Handle(userId, s1, u1) == Handle(userId, s2, u2)
  {
  }
}
