/**
 * `POST /api/basiq/users`: validate the e-mail address, create the user upstream with the
 * server token, decode the id it returns, and fetch a client token for that user.
 */
module UsersRoute {
  import opened Wrappers
  import opened Json
  import opened Http
  import Email
  import Uri

  const CreateUserUrl := "https://au-api.basiq.io/users"
  const InternalError := "Internal server error"
  const EmailRequired := "Email is required"
  const InvalidEmail := "Invalid email format"
  const NoServerToken := "Failed to get server access token"
  const CreateFailed := "Failed to create user"
  const NoClientToken := "Failed to generate client access token"

  /** The handler's `catch`: 500 with the fixed error and the thrown message as details. */
  function Crash(message: string): Response {
    Detailed(500, InternalError, message)
  }

  /** The e-mail field of a request body that parsed and destructured. */
  function EmailOf(body: Result<Json, string>): Option<Json> {
    if body.Success? && !body.value.JNull? then Get(body.value, "email") else None
  }

  /** The request passes both checks: an e-mail is present and, as a string, fits the pattern. */
  predicate Valid(body: Result<Json, string>) {
    IsTruthy(EmailOf(body)) && Email.Matches(Show(EmailOf(body).value))
  }

  /** The body of a successful sign-up. */
  function CreatedBody(id: Json, userId: string, email: Json, clientToken: Json): Json {
    JObj([("id", id), ("userId", JStr(userId)), ("email", email), ("clientAccessToken", clientToken), ("status", JStr("created"))])
  }

  /**
   * The handler. `server` and `client` are the outcomes of the two token requests,
   * `upstream` the answer to the user-creation request.
   */
  function Handle(body: Result<Json, string>, server: Result<Json, string>, upstream: Upstream, client: Result<Json, string>): (r: Outcome)
    ensures r.calls == [] <==> !Valid(body)
    ensures body.Failure? ==> r.response == Crash(body.error)
    ensures body.Success? && !body.value.JNull? && !IsTruthy(EmailOf(body)) ==> r.response == ErrorResponse(400, EmailRequired)
    ensures IsTruthy(EmailOf(body)) && !Email.Matches(Show(EmailOf(body).value)) ==> r.response == ErrorResponse(400, InvalidEmail)
    ensures Valid(body) ==> r.calls[0] == ServerTokenCall
    ensures Valid(body) && server.Success? && IsTruthy(Some(server.value)) ==>
              |r.calls| >= 2 && r.calls[1] == PostCall(CreateUserUrl, Show(server.value), JObj([("email", EmailOf(body).value)]))
    ensures Valid(body) && server.Success? && IsTruthy(Some(server.value)) && upstream.Answered? && !upstream.ok ==>
              r.response == ErrorResponse(upstream.status, CreateFailed)
    ensures Valid(body) && server.Failure? ==> r == Outcome(Crash(server.error), [ServerTokenCall])
    ensures Valid(body) && server.Success? && !IsTruthy(Some(server.value)) ==>
              r == Outcome(ErrorResponse(500, NoServerToken), [ServerTokenCall])
    ensures Valid(body) && server.Success? && IsTruthy(Some(server.value)) ==>
              r == AfterCreate(EmailOf(body).value, upstream, client,
                               [ServerTokenCall, PostCall(CreateUserUrl, Show(server.value), JObj([("email", EmailOf(body).value)]))])
    ensures |r.calls| <= 3
  {
    match RequestFields(body, "email", Intermediate)
    case Failure(e) => Outcome(Crash(e), [])
    case Success(fields) =>
      var email := Get(fields, "email");
      if !IsTruthy(email) then Outcome(ErrorResponse(400, EmailRequired), [])
      else if !Email.Matches(Show(email.value)) then Outcome(ErrorResponse(400, InvalidEmail), [])
      else
        match server
        case Failure(e) => Outcome(Crash(e), [ServerTokenCall])
        case Success(token) =>
          if !IsTruthy(Some(token)) then Outcome(ErrorResponse(500, NoServerToken), [ServerTokenCall])
          else AfterCreate(email.value, upstream, client, [ServerTokenCall, PostCall(CreateUserUrl, Show(token), JObj([("email", email.value)]))])
  }

  /** The truthy `id` of an ok creation answer whose body parsed to an object, if there is one. */
  function CreatedId(upstream: Upstream): (r: Option<Json>)
    ensures r.Some? ==> IsTruthy(r)
  {
    if upstream.Answered? && upstream.ok && upstream.body.Success? && !upstream.body.value.JNull?
       && IsTruthy(Get(upstream.body.value, "id"))
    then Get(upstream.body.value, "id")
    else None
  }

  /** Everything after the user-creation request, with the calls made so far. */
  function AfterCreate(email: Json, upstream: Upstream, client: Result<Json, string>, calls: seq<Call>): (r: Outcome)
    ensures r.calls == calls || (|r.calls| == |calls| + 1 && r.calls[..|calls|] == calls && r.calls[|calls|].ClientTokenCall?)
    ensures upstream.Threw? ==> r == Outcome(Crash(upstream.message), calls)
    ensures upstream.Answered? && !upstream.ok ==> r == Outcome(ErrorResponse(upstream.status, CreateFailed), calls)
    ensures upstream.Answered? && upstream.ok && upstream.body.Failure? ==> r == Outcome(Crash(upstream.body.error), calls)
    ensures upstream.Answered? && upstream.ok && upstream.body.Success? && upstream.body.value.JNull? ==>
              r == Outcome(Crash(NullRead("id")), calls)
    ensures (upstream.Answered? && upstream.ok && upstream.body.Success? && !upstream.body.value.JNull?
             && !IsTruthy(Get(upstream.body.value, "id"))) ==> r == Outcome(ErrorResponse(500, CreateFailed), calls)
    ensures CreatedId(upstream).Some? && Uri.Decode(Show(CreatedId(upstream).value)).Failure? ==>
              r == Outcome(Crash(Uri.Decode(Show(CreatedId(upstream).value)).error), calls)
    ensures CreatedId(upstream).Some? && Uri.Decode(Show(CreatedId(upstream).value)).Success? ==>
              var id := CreatedId(upstream).value;
              var u := Uri.Decode(Show(id)).value;
              var calls' := calls + [ClientTokenCall(JStr(u))];
              && (client.Failure? ==> r == Outcome(Crash(client.error), calls'))
              && (client.Success? && !IsTruthy(Some(client.value)) ==> r == Outcome(ErrorResponse(500, NoClientToken), calls'))
              && (client.Success? && IsTruthy(Some(client.value)) ==>
                    r == Outcome(Response(200, CreatedBody(id, u, email, client.value)), calls'))
  {
    match upstream
    case Threw(e) => Outcome(Crash(e), calls)
    case Answered(ok, status, parsed) =>
      if !ok then Outcome(ErrorResponse(status, CreateFailed), calls)
      else
        match parsed
        case Failure(e) => Outcome(Crash(e), calls)
        case Success(data) =>
          if data.JNull? then Outcome(Crash(NullRead("id")), calls)
          else
            var id := Get(data, "id");
            if !IsTruthy(id) then Outcome(ErrorResponse(500, CreateFailed), calls)
            else
              match Uri.Decode(Show(id.value))
              case Failure(e) => Outcome(Crash(e), calls)
              case Success(userId) =>
                var calls' := calls + [ClientTokenCall(JStr(userId))];
                match client
                case Failure(e) => Outcome(Crash(e), calls')
                case Success(ct) =>
                  if !IsTruthy(Some(ct)) then Outcome(ErrorResponse(500, NoClientToken), calls')
                  else Outcome(Response(200, CreatedBody(id.value, userId, email, ct)), calls')
  }

  /** The body of a successful sign-up carries each of its fields. */
  lemma CreatedFields(id: Json, userId: string, email: Json, ct: Json)
    ensures var b := CreatedBody(id, userId, email, ct);
            && Get(b, "id") == Some(id) && Get(b, "userId") == Some(JStr(userId))
            && Get(b, "email") == Some(email) && Get(b, "clientAccessToken") == Some(ct)
            && Get(b, "status") == Some(JStr("created"))
  {
    var b := CreatedBody(id, userId, email, ct);
    var fs := b.fields;
    assert Get(b, "id") == Some(id) by { GetAt(fs, 0); }
    assert Get(b, "userId") == Some(JStr(userId)) by { GetAt(fs, 1); }
    assert Get(b, "email") == Some(email) by { GetAt(fs, 2); }
    assert Get(b, "clientAccessToken") == Some(ct) by { GetAt(fs, 3); }
    assert Get(b, "status") == Some(JStr("created")) by { GetAt(fs, 4); }
  }

  /**
   * An id that arrives percent-encoded is passed back raw as `id` and decoded as `userId`,
   * and the client token is requested for the decoded id.
   */
  lemma DecodedUserId(body: Result<Json, string>, server: Result<Json, string>, status: int,
                      fields: seq<(string, Json)>, u: string, ct: Json)
    requires Valid(body) && server.Success? && IsTruthy(Some(server.value))
    requires Get(JObj(fields), "id") == Some(JStr(Uri.Encode(u))) && u != ""
    requires IsTruthy(Some(ct))
    ensures var r := Handle(body, server, Answered(true, status, Success(JObj(fields))), Success(ct));
            && r.response.status == 200
            && Get(r.response.body, "id") == Some(JStr(Uri.Encode(u)))
            && Get(r.response.body, "userId") == Some(JStr(u))
            && Get(r.response.body, "email") == EmailOf(body)
            && Get(r.response.body, "clientAccessToken") == Some(ct)
            && |r.calls| == 3 && r.calls[2] == ClientTokenCall(JStr(u))
  {
    var email := EmailOf(body).value;
    var calls := [ServerTokenCall, PostCall(CreateUserUrl, Show(server.value), JObj([("email", email)]))];
    var up := Answered(true, status, Success(JObj(fields)));
    assert Handle(body, server, up, Success(ct)) == AfterCreate(email, up, Success(ct), calls);
    EncodedCreate(email, status, fields, u, ct, calls);
  }

  lemma EncodedCreate(email: Json, status: int, fields: seq<(string, Json)>, u: string, ct: Json, calls: seq<Call>)
    requires Get(JObj(fields), "id") == Some(JStr(Uri.Encode(u))) && u != ""
    requires IsTruthy(Some(ct)) && |calls| == 2
    ensures var r := AfterCreate(email, Answered(true, status, Success(JObj(fields))), Success(ct), calls);
            && r.response == Response(200, CreatedBody(JStr(Uri.Encode(u)), u, email, ct))
            && Get(r.response.body, "id") == Some(JStr(Uri.Encode(u)))
            && Get(r.response.body, "userId") == Some(JStr(u))
            && Get(r.response.body, "email") == Some(email)
            && Get(r.response.body, "clientAccessToken") == Some(ct)
            && |r.calls| == 3 && r.calls[2] == ClientTokenCall(JStr(u))
  {
    var enc := Uri.Encode(u);
    Uri.DecodeEncode(u);
    EncodeNonEmpty(u);
    var id := JStr(enc);
    assert IsTruthy(Some(id));
    assert Show(id) == enc;
    assert Uri.Decode(Show(id)) == Success(u);
    var r := AfterCreate(email, Answered(true, status, Success(JObj(fields))), Success(ct), calls);
    assert r == Outcome(Response(200, CreatedBody(id, u, email, ct)), calls + [ClientTokenCall(JStr(u))]);
    CreatedFields(id, u, email, ct);
  }

  lemma EncodeNonEmpty(u: string)
    requires u != ""
    ensures Uri.Encode(u) != ""
  {
    assert |Uri.EncodeChar(u[0])| > 0;
  }
}
