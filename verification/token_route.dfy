/**
 * `POST /api/basiq/token`: hands out client tokens only. A request for any other scope is
 * refused, so the server token never leaves the server.
 */
module TokenRoute {
  import opened Wrappers
  import opened Json
  import opened Http

  const InvalidScope := "Invalid scope or missing userId for CLIENT_ACCESS"
  const ExpiresIn := 3600

  /** `userId ?? ""`. */
  function UserIdOrEmpty(userId: Option<Json>): (r: Json)
    ensures userId.None? || userId.value.JNull? ==> r == JStr("")
    ensures userId.Some? && !userId.value.JNull? ==> r == userId.value
  {
    if userId.None? || userId.value.JNull? then JStr("") else userId.value
  }

  function Granted(token: Json): Json {
    JObj([("access_token", token), ("token_type", JStr("Bearer")), ("expires_in", JNum(ExpiresIn))])
  }

  /** The handler; `client` is the outcome of the client-token request. */
  function Handle(body: Result<Json, string>, client: Result<Json, string>): (r: Outcome)
    ensures ServerTokenCall !in r.calls
    ensures |r.calls| <= 1
    ensures body.Failure? ==> r == Outcome(ErrorResponse(500, body.error), [])
    ensures |r.calls| == 1 <==> body.Success? && !body.value.JNull? && Get(body.value, "scope") == Some(JStr("CLIENT_ACCESS"))
    ensures |r.calls| == 1 ==> r.calls[0] == ClientTokenCall(UserIdOrEmpty(Get(body.value, "userId")))
    ensures body.Success? && !body.value.JNull? && Get(body.value, "scope") != Some(JStr("CLIENT_ACCESS")) ==>
              r.response == ErrorResponse(400, InvalidScope)
    ensures |r.calls| == 1 && client.Success? ==> r.response == Response(200, Granted(client.value))
    ensures |r.calls| == 1 && client.Failure? ==> r.response == ErrorResponse(500, client.error)
  {
    match RequestFields(body, "scope", Intermediate)
    case Failure(e) => Outcome(ErrorResponse(500, e), [])
    case Success(fields) =>
      if Get(fields, "scope") == Some(JStr("CLIENT_ACCESS")) then
        var calls := [ClientTokenCall(UserIdOrEmpty(Get(fields, "userId")))];
        match client
        case Failure(e) => Outcome(ErrorResponse(500, e), calls)
        case Success(token) => Outcome(Response(200, Granted(token)), calls)
      else Outcome(ErrorResponse(400, InvalidScope), [])
  }

  /** A granted token is a bearer token valid for an hour. */
  lemma GrantedFields(token: Json)
    ensures Get(Granted(token), "access_token") == Some(token)
    ensures Get(Granted(token), "token_type") == Some(JStr("Bearer"))
    ensures Get(Granted(token), "expires_in") == Some(JNum(3600))
  {
    var fs := Granted(token).fields;
    GetAt(fs, 0);
    GetAt(fs, 1);
    GetAt(fs, 2);
  }

  /** A server-scope request is refused without asking for any token. */
  lemma ServerScopeRefused(fields: seq<(string, Json)>, client: Result<Json, string>)
    requires Get(JObj(fields), "scope") == Some(JStr("SERVER_ACCESS"))
    ensures Handle(Success(JObj(fields)), client) == Outcome(ErrorResponse(400, InvalidScope), [])
  {
    assert JStr("SERVER_ACCESS") != JStr("CLIENT_ACCESS") by { assert "SERVER_ACCESS"[0] != "CLIENT_ACCESS"[0]; }
  }
}
