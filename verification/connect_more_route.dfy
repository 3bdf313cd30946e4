/**
 * `POST /api/basiq/connect-more`: a link for connecting a further bank, built from a
 * fresh client token. It carries no redirect address.
 */
module ConnectMoreRoute {
  import opened Wrappers
  import opened Json
  import opened Http

  const UserIdRequired := "User ID is required"
  const GenerateFailed := "Failed to generate consent URL"

  function ConnectUrl(token: string): string {
    "https://consent.basiq.io/home?token=" + token + "&action=connect"
  }

  /** The handler; `client` is the outcome of the client-token request. */
  function Handle(body: Result<Json, string>, client: Result<Json, string>): (r: Outcome)
    ensures body.Failure? ==> r == Outcome(Detailed(500, GenerateFailed, body.error), [])
    ensures body.Success? && !body.value.JNull? && !IsTruthy(Get(body.value, "userId")) ==>
              r == Outcome(ErrorResponse(400, UserIdRequired), [])
    ensures body.Success? && !body.value.JNull? && IsTruthy(Get(body.value, "userId")) ==>
              r.calls == [ClientTokenCall(Get(body.value, "userId").value)]
              && (client.Failure? ==> r.response == Detailed(500, GenerateFailed, client.error))
              && (client.Success? ==> r.response == Response(200, JObj([("connectUrl", JStr(ConnectUrl(Show(client.value))))])))
    ensures r.response.status == 200 ==> r.response.body.JObj? && |r.response.body.fields| == 1
                                         && r.response.body.fields[0].0 == "connectUrl"
  {
    match RequestFields(body, "userId", Intermediate)
    case Failure(e) => Outcome(Detailed(500, GenerateFailed, e), [])
    case Success(fields) =>
      var userId := Get(fields, "userId");
      if !IsTruthy(userId) then Outcome(ErrorResponse(400, UserIdRequired), [])
      else
        match client
        case Failure(e) => Outcome(Detailed(500, GenerateFailed, e), [ClientTokenCall(userId.value)])
        case Success(token) => Outcome(Response(200, JObj([("connectUrl", JStr(ConnectUrl(Show(token))))])), [ClientTokenCall(userId.value)])
  }

  /** The link ends in the connect action and starts with the consent page, with the token between. */
  lemma ConnectUrlShape(token: string)
    ensures var u := ConnectUrl(token);
            && u[..|"https://consent.basiq.io/home?token="|] == "https://consent.basiq.io/home?token="
            && u[|"https://consent.basiq.io/home?token="|..|u| - |"&action=connect"|] == token
            && u[|u| - |"&action=connect"|..] == "&action=connect"
  {
  }
}
