/**
 * `POST /api/basiq/consent`: build the link to the bank-consent page from a user id and a
 * client token. It makes no outside call; the base URL comes from the environment.
 */
module ConsentRoute {
  import opened Wrappers
  import opened Text
  import opened Json
  import opened Http
  import Uri

  const DefaultBaseUrl := "http://localhost:3000"
  const CallbackPath := "/auth/callback"
  const ConsentPage := "https://consent.basiq.io/home?token="
  const RedirectParam := "&redirect_uri="
  const FieldsRequired := "User ID and client access token are required"
  const GenerateFailed := "Failed to generate consent URL"

  /** Where the consent page sends the browser back to. */
  function RedirectUri(baseUrl: Option<string>): (r: string)
    ensures EndsWith(r, CallbackPath)
  {
    var base := OrElse(baseUrl, DefaultBaseUrl);
    var r := base + CallbackPath;
    assert r[|r| - |CallbackPath|..] == CallbackPath;
    r
  }

  /** The consent link: the token as it is, the redirect address percent-encoded. */
  function ConsentUrl(token: string, redirectUri: string): string {
    ConsentPage + token + RedirectParam + Uri.Encode(redirectUri)
  }

  /** The body of a ready answer. */
  function ReadyBody(consentUrl: string, userId: Json, token: Json, redirectUri: string): Json {
    JObj([("consentUrl", JStr(consentUrl)), ("userId", userId), ("clientAccessToken", token),
          ("redirectUri", JStr(redirectUri)), ("status", JStr("ready"))])
  }

  /** The handler; `baseUrl` is the configured public base URL. */
  function Handle(body: Result<Json, string>, baseUrl: Option<string>): (r: Outcome)
    ensures r.calls == []
    ensures body.Failure? ==> r.response == Detailed(500, GenerateFailed, body.error)
    ensures body.Success? && !body.value.JNull? ==>
              var userId := Get(body.value, "userId");
              var token := Get(body.value, "clientAccessToken");
              && (!IsTruthy(userId) || !IsTruthy(token) ==> r.response == ErrorResponse(400, FieldsRequired))
              && (IsTruthy(userId) && IsTruthy(token) ==>
                    r.response == Response(200, ReadyBody(ConsentUrl(Show(token.value), RedirectUri(baseUrl)), userId.value,
                                                          token.value, RedirectUri(baseUrl))))
  {
    match RequestFields(body, "userId", Intermediate)
    case Failure(e) => Outcome(Detailed(500, GenerateFailed, e), [])
    case Success(fields) =>
      var userId := Get(fields, "userId");
      var token := Get(fields, "clientAccessToken");
      if !IsTruthy(userId) || !IsTruthy(token) then Outcome(ErrorResponse(400, FieldsRequired), [])
      else
        var redirect := RedirectUri(baseUrl);
        Outcome(Response(200, ReadyBody(ConsentUrl(Show(token.value), redirect), userId.value, token.value, redirect)), [])
  }

  /**
   * The link splits back into its parts: the page, the token, and a `redirect_uri` value
   * with no `&`, `=` or `#` in it that decodes to the redirect address.
   */
  lemma RedirectRecoverable(token: string, redirectUri: string)
    ensures var u := ConsentUrl(token, redirectUri);
            var v := u[|ConsentPage| + |token| + |RedirectParam|..];
            && u[..|ConsentPage|] == ConsentPage
            && u[|ConsentPage|..|ConsentPage| + |token|] == token
            && Uri.Decode(v) == Success(redirectUri)
            && (forall i :: 0 <= i < |v| ==> v[i] != '&' && v[i] != '=' && v[i] != '#')
  {
    var v := Uri.Encode(redirectUri);
    var u := ConsentUrl(token, redirectUri);
    assert u == ConsentPage + token + RedirectParam + v;
    assert u[|ConsentPage| + |token| + |RedirectParam|..] == v;
    assert u[|ConsentPage|..|ConsentPage| + |token|] == token;
    Uri.DecodeEncode(redirectUri);
    NoSeparators(redirectUri);
  }

  /** An encoded component holds none of the characters that delimit query parameters. */
  lemma NoSeparators(s: string)
    ensures forall i :: 0 <= i < |Uri.Encode(s)| ==> Uri.Encode(s)[i] != '&' && Uri.Encode(s)[i] != '=' && Uri.Encode(s)[i] != '#'
  {
    Uri.EncodeAlphabet(s);
  }

  /** The ready body echoes the inputs and carries the link. */
  lemma ReadyFields(consentUrl: string, userId: Json, token: Json, redirectUri: string)
    ensures var b := ReadyBody(consentUrl, userId, token, redirectUri);
            && Get(b, "consentUrl") == Some(JStr(consentUrl)) && Get(b, "userId") == Some(userId)
            && Get(b, "clientAccessToken") == Some(token) && Get(b, "redirectUri") == Some(JStr(redirectUri))
            && Get(b, "status") == Some(JStr("ready"))
  {
    var b := ReadyBody(consentUrl, userId, token, redirectUri);
    var fs := b.fields;
    assert Get(b, "consentUrl") == Some(JStr(consentUrl)) by { GetAt(fs, 0); }
    assert Get(b, "userId") == Some(userId) by { GetAt(fs, 1); }
    assert Get(b, "clientAccessToken") == Some(token) by { GetAt(fs, 2); }
    assert Get(b, "redirectUri") == Some(JStr(redirectUri)) by { GetAt(fs, 3); }
    assert Get(b, "status") == Some(JStr("ready")) by { GetAt(fs, 4); }
  }
}
