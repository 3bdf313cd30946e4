/**
 * The access-token provider: a server token cached for thirty minutes, client tokens
 * fetched afresh for every call, and the token request itself (Basic authorization built
 * from the API key, a form body carrying the scope, and the classification of the
 * endpoint's answers into a token or an error message). The endpoint's answer, the API
 * key from the environment and the clock are parameters.
 */
module TokenProvider {
  import opened Wrappers
  import opened Text
  import opened Json
  import Utf8
  import Base64

  /** Thirty minutes, in milliseconds. */
  const RefreshInterval := 1000 * 60 * 30

  const KeyMissing := "API key not configured. Please set BASIQ_API_KEY in your environment."
  const InvalidJsonPrefix := "Invalid JSON response from Basiq token endpoint: "
  const ApiErrorPrefix := "Basiq API Error: "
  const UnknownApiError := "Unknown error from Basiq API"
  const NoAccessToken := "Access token not found in Basiq response."

  datatype Scope = ServerAccess | ClientAccess

  function ScopeName(s: Scope): string {
    match s
    case ServerAccess => "SERVER_ACCESS"
    case ClientAccess => "CLIENT_ACCESS"
  }

  /**
   * The key looks pre-encoded when it contains a colon or ends in `==` or `=`; such a key
   * is sent as it is.
   */
  predicate PreEncoded(key: string) {
    Contains(key, ":") || EndsWith(key, "==") || EndsWith(key, "=")
  }

  /** The `==` test adds nothing: a key ending in `==` also ends in `=`. */
  lemma PreEncodedSimplified(key: string)
    ensures PreEncoded(key) <==> Contains(key, ":") || EndsWith(key, "=")
  {
    if EndsWith(key, "==") {
      assert key[|key| - 1..] == "=";
    }
  }

  /** The credentials part of the `Authorization` header. */
  function AuthValue(key: string): (r: string)
    ensures PreEncoded(key) ==> r == key
    ensures !PreEncoded(key) ==> r == Base64.Encode(Utf8.Encode(key + ":"))
  {
    if PreEncoded(key) then key else Base64.Encode(Utf8.Encode(key + ":"))
  }

  /**
   * For a raw key the header carries, in base 64 over UTF-8, the user-id `key` with an
   * empty password (section 2 of RFC 7617): decoding recovers exactly `key + ":"`.
   */
  lemma RawKeyCredentials(key: string)
    requires !PreEncoded(key)
    ensures Base64.Decode(AuthValue(key)).Some?
    ensures Utf8.Decode(Base64.Decode(AuthValue(key)).value) == Some(key + ":")
  {
    Base64.DecodeEncode(Utf8.Encode(key + ":"));
    Utf8.DecodeEncode(key + ":");
  }

  /** The request `getNewToken` sends: its `Authorization` header and its form fields, in order. */
  datatype TokenRequest = TokenRequest(authorization: string, form: seq<(string, string)>)

  /** Builds the request, or fails before any network call when the key is missing or empty. */
  function BuildRequest(scope: Scope, userId: Json, apiKey: Option<string>): (r: Result<TokenRequest, string>)
    ensures r.Failure? <==> !Truthy(apiKey)
    ensures r.Failure? ==> r.error == KeyMissing
    ensures r.Success? ==> r.value.authorization == "Basic " + AuthValue(apiKey.value)
    ensures r.Success? ==> |r.value.form| >= 1 && r.value.form[0] == ("scope", ScopeName(scope))
    ensures r.Success? ==> (|r.value.form| == 2 <==> scope == ClientAccess && IsTruthy(Some(userId)))
    ensures r.Success? && |r.value.form| == 2 ==> r.value.form[1] == ("userId", Show(userId))
    ensures r.Success? ==> |r.value.form| <= 2
  {
    if !Truthy(apiKey) then Failure(KeyMissing)
    else
      var form := [("scope", ScopeName(scope))]
        + (if scope == ClientAccess && IsTruthy(Some(userId)) then [("userId", Show(userId))] else []);
      Success(TokenRequest("Basic " + AuthValue(apiKey.value), form))
  }

  /** The token endpoint's answer: the fetch threw, or a status with the body text and its parse. */
  datatype TokenReply =
    | ReplyThrew(message: string)
    | Reply(ok: bool, status: int, text: string, body: Option<Json>)

  /** `` `${error.title}: ${error.detail}` `` for each item of an error body's `data` array. */
  function ErrorItems(items: seq<Json>): (r: Result<seq<string>, string>)
    ensures r.Success? ==> |r.value| == |items|
    ensures r.Success? <==> forall i :: 0 <= i < |items| ==> !items[i].JNull?
  {
    if |items| == 0 then Success([])
    else if items[0].JNull? then Failure(NullRead("title"))
    else
      match ErrorItems(items[1..])
      case Success(rest) =>
        assert forall i :: 1 <= i < |items| ==> items[i] == items[1..][i - 1];
        Success([TextOf(Get(items[0], "title")) + ": " + TextOf(Get(items[0], "detail"))] + rest)
      case Failure(e) => Failure(e)
  }

  /** The error a non-ok answer with body `data` raises. */
  function ApiError(status: int, data: Json): string {
    if data.JNull? then NullRead("message")
    else
      var message := FirstTruthyJson([Get(data, "message"), Get(data, "error_description"), Get(data, "error")]);
      var items := Get(data, "data");
      if IsTruthy(items) && items.value.JArr? then
        match ErrorItems(items.value.items)
        case Success(texts) => ApiErrorPrefix + Join(texts, ", ")
        case Failure(e) => e
      else "HTTP " + IntToString(status) + ": " + (if message.Some? then Show(message.value) else UnknownApiError)
  }

  /** `a || b || c` over JSON values. */
  function FirstTruthyJson(candidates: seq<Option<Json>>): (r: Option<Json>)
    ensures r.Some? <==> exists i :: 0 <= i < |candidates| && IsTruthy(candidates[i])
    ensures r.Some? ==> IsTruthy(r) && (exists i :: 0 <= i < |candidates| && candidates[i] == r
                                         && forall j :: 0 <= j < i ==> !IsTruthy(candidates[j]))
  {
    if |candidates| == 0 then None
    else if IsTruthy(candidates[0]) then candidates[0]
    else
      var rest := FirstTruthyJson(candidates[1..]);
      assert forall i :: 1 <= i < |candidates| ==> candidates[i] == candidates[1..][i - 1];
      if rest.Some? then
        var i :| 0 <= i < |candidates[1..]| && candidates[1..][i] == rest
                 && forall j :: 0 <= j < i ==> !IsTruthy(candidates[1..][j]);
        assert candidates[i + 1] == rest;
        assert forall j :: 0 <= j < i + 1 ==> !IsTruthy(candidates[j]) by {
          forall j | 0 <= j < i + 1 ensures !IsTruthy(candidates[j]) {
            if j > 0 { assert candidates[j] == candidates[1..][j - 1]; }
          }
        }
        rest
      else rest
  }

  /**
   * `getNewToken(scope, userId)`: the `access_token` of an ok JSON answer, or the error
   * message the function throws.
   */
  function NewToken(scope: Scope, userId: Json, apiKey: Option<string>, reply: TokenReply): (r: Result<Json, string>)
    ensures !Truthy(apiKey) ==> r == Failure(KeyMissing)
    ensures r.Success? <==> Truthy(apiKey) && reply.Reply? && reply.body.Some? && reply.ok
                            && !reply.body.value.JNull? && IsTruthy(Get(reply.body.value, "access_token"))
    ensures r.Success? ==> Some(r.value) == Get(reply.body.value, "access_token") && IsTruthy(Some(r.value))
    ensures Truthy(apiKey) && reply.ReplyThrew? ==> r == Failure(reply.message)
    ensures Truthy(apiKey) && reply.Reply? && reply.body.None? ==> r == Failure(InvalidJsonPrefix + reply.text)
    ensures Truthy(apiKey) && reply.Reply? && reply.body.Some? && !reply.ok ==> r == Failure(ApiError(reply.status, reply.body.value))
  {
    match BuildRequest(scope, userId, apiKey)
    case Failure(e) => Failure(e)
    case Success(_) =>
      match reply
      case ReplyThrew(m) => Failure(m)
      case Reply(ok, status, text, body) =>
        if body.None? then Failure(InvalidJsonPrefix + text)
        else if !ok then Failure(ApiError(status, body.value))
        else if body.value.JNull? then Failure(NullRead("access_token"))
        else
          var token := Get(body.value, "access_token");
          if !IsTruthy(token) then Failure(NoAccessToken) else Success(token.value)
  }

  /** An error body with a `data` array lists each item as `title: detail`, joined by commas. */
  lemma ApiErrorItems(status: int, fields: seq<(string, Json)>, items: seq<Json>)
    requires Get(JObj(fields), "data") == Some(JArr(items)) && forall i :: 0 <= i < |items| ==> !items[i].JNull?
    ensures exists texts: seq<string> ::
              |texts| == |items|
              && (forall i :: 0 <= i < |items| ==> texts[i] == TextOf(Get(items[i], "title")) + ": " + TextOf(Get(items[i], "detail")))
              && ApiError(status, JObj(fields)) == ApiErrorPrefix + Join(texts, ", ")
  {
    var texts := ErrorItemsValue(items);
    assert IsTruthy(Some(JArr(items)));
    assert ApiError(status, JObj(fields)) == ApiErrorPrefix + Join(texts, ", ");
  }

  lemma {:induction false} ErrorItemsValue(items: seq<Json>) returns (texts: seq<string>)
    requires forall i :: 0 <= i < |items| ==> !items[i].JNull?
    ensures ErrorItems(items) == Success(texts)
    ensures |texts| == |items|
    ensures forall i :: 0 <= i < |items| ==> texts[i] == TextOf(Get(items[i], "title")) + ": " + TextOf(Get(items[i], "detail"))
  {
    if |items| == 0 {
      texts := [];
    } else {
      var rest := ErrorItemsValue(items[1..]);
      texts := [TextOf(Get(items[0], "title")) + ": " + TextOf(Get(items[0], "detail"))] + rest;
      forall i | 1 <= i < |items| ensures texts[i] == TextOf(Get(items[i], "title")) + ": " + TextOf(Get(items[i], "detail")) {
        assert items[i] == items[1..][i - 1];
      }
    }
  }

  /** Without a `data` array, a non-ok answer reports its status and the first message field. */
  lemma ApiErrorStatus(status: int, fields: seq<(string, Json)>)
    requires !IsTruthy(Get(JObj(fields), "data")) || !Get(JObj(fields), "data").value.JArr?
    ensures var m := Get(JObj(fields), "message");
            IsTruthy(m) ==> ApiError(status, JObj(fields)) == "HTTP " + IntToString(status) + ": " + Show(m.value)
    ensures !IsTruthy(Get(JObj(fields), "message")) && !IsTruthy(Get(JObj(fields), "error_description"))
            && !IsTruthy(Get(JObj(fields), "error"))
            ==> ApiError(status, JObj(fields)) == "HTTP " + IntToString(status) + ": " + UnknownApiError
  {
  }

  /** The module-level cache: the server token, if any, and when it was fetched. */
  datatype Cache = Cache(token: Option<Json>, refreshedAt: int)

  const EmptyCache := Cache(None, 0)

  /** `!serverToken || Date.now() - serverTokenRefreshDate > REFRESH_INTERVAL`. */
  predicate Stale(c: Cache, now: int) {
    !IsTruthy(c.token) || now - c.refreshedAt > RefreshInterval
  }

  /** One call of `getBasiqServerToken`: its outcome, the cache after it, and whether it fetched. */
  datatype ServerCall = ServerCall(result: Result<Json, string>, cache: Cache, fetched: bool)

  /**
   * `getBasiqServerToken()` at time `now`; a fetch made then completes at `finishedAt`,
   * the second clock reading, which becomes the refresh date.
   */
  function ServerToken(c: Cache, now: int, finishedAt: int, apiKey: Option<string>, reply: TokenReply): (r: ServerCall)
    ensures r.fetched <==> Stale(c, now)
    ensures !r.fetched ==> r.cache == c && r.result == Success(c.token.value)
    ensures r.fetched ==> r.result == NewToken(ServerAccess, JNull, apiKey, reply)
    ensures r.fetched && r.result.Success? ==> r.cache == Cache(Some(r.result.value), finishedAt)
    ensures r.result.Failure? ==> r.cache == c
    ensures r.result.Success? ==> IsTruthy(Some(r.result.value)) && IsTruthy(r.cache.token) && r.cache.token == Some(r.result.value)
  {
    if Stale(c, now) then
      match NewToken(ServerAccess, JNull, apiKey, reply)
      case Success(t) => ServerCall(Success(t), Cache(Some(t), finishedAt), true)
      case Failure(e) => ServerCall(Failure(e), c, true)
    else ServerCall(Success(c.token.value), c, false)
  }

  /** `getBasiqClientToken(userId)`: always a fresh request; there is no cache to consult or change. */
  function ClientToken(userId: Json, apiKey: Option<string>, reply: TokenReply): (r: Result<Json, string>)
    ensures r.Success? ==> reply.Reply? && reply.ok && reply.body.Some? && Some(r.value) == Get(reply.body.value, "access_token")
    ensures !Truthy(apiKey) ==> r == Failure(KeyMissing)
  {
    NewToken(ClientAccess, userId, apiKey, reply)
  }

  /**
   * A second call within thirty minutes of a successful refresh returns the very same
   * token without fetching, whatever the endpoint would have answered.
   */
  lemma CachedWithinWindow(c: Cache, now: int, finishedAt: int, later: int, apiKey: Option<string>,
                           reply1: TokenReply, reply2: TokenReply, finished2: int)
    requires ServerToken(c, now, finishedAt, apiKey, reply1).result.Success?
    requires later - finishedAt <= RefreshInterval
    requires ServerToken(c, now, finishedAt, apiKey, reply1).fetched
    ensures var first := ServerToken(c, now, finishedAt, apiKey, reply1);
            var second := ServerToken(first.cache, later, finished2, apiKey, reply2);
            !second.fetched && second.result == first.result && second.cache == first.cache
  {
  }

  /** Past the window the next call fetches again, even with a token cached; the comparison is strict. */
  lemma ExpiredRefetches(c: Cache, now: int, finishedAt: int, apiKey: Option<string>, reply: TokenReply)
    ensures now - c.refreshedAt > RefreshInterval ==> ServerToken(c, now, finishedAt, apiKey, reply).fetched
    ensures IsTruthy(c.token) && now - c.refreshedAt == RefreshInterval ==> !ServerToken(c, now, finishedAt, apiKey, reply).fetched
  {
  }

  /** The first call always fetches. */
  lemma FirstCallFetches(now: int, finishedAt: int, apiKey: Option<string>, reply: TokenReply)
    ensures ServerToken(EmptyCache, now, finishedAt, apiKey, reply).fetched
  {
  }
}
