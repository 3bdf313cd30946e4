/**
 * The three-step onboarding page: a welcome step with an API connection test, a sign-up
 * step that creates the user and stores it in the browser, and a consent step that asks
 * for the bank-connection link and leaves for it. The page's state after each handler has
 * settled is a `Page`; the answers of the network calls and the stored record are parameters.
 */
module Onboarding {
  import opened Wrappers
  import opened Text
  import opened Json
  import Http

  const TotalSteps := 3
  const CreatingUser := "Creating user account..."
  const CreateFallback := "Failed to create user"
  const SettingUp := "Setting up bank connection..."
  const NoStoredUser := "User data not found. Please go back and create an account."
  const ConsentFallback := "Failed to create consent"
  const Redirecting := "Redirecting to bank connection..."
  const TestPassed := "\U{2705} API connection successful! Token received."
  const TestFailedPrefix := "\U{274C} API connection failed: "
  const TestErrorPrefix := "\U{274C} API connection error: "
  const NotAFunction := "TypeError: data.error.includes is not a function"

  datatype TestStatus = Idle | Testing | TestSucceeded | TestFailed

  /** The page's state: the step shown, the error and debug lines, the connection test's status and whether the API-key help is open. */
  datatype Page = Page(step: int, error: string, debug: string, test: TestStatus, apiKeyHelp: bool)

  function Start(): Page {
    Page(1, "", "", Idle, false)
  }

  /** The width of the progress bar, in percent. */
  function Progress(step: int): (r: real)
    ensures r * 3.0 == step as real * 100.0
  {
    step as real / TotalSteps as real * 100.0
  }

  /** The bar grows with every step and is full exactly on the last one. */
  lemma ProgressBounds(a: int, b: int)
    requires 1 <= a < b <= TotalSteps
    ensures 0.0 < Progress(a) < Progress(b) <= 100.0
    ensures Progress(b) == 100.0 <==> b == TotalSteps
  {
  }

  /** "Next": one step on, with the error and debug lines cleared. */
  function Next(s: Page): (r: Page)
    ensures r.step == s.step + 1 && r.error == "" && r.debug == ""
    ensures r.test == s.test && r.apiKeyHelp == s.apiKeyHelp
  {
    s.(step := s.step + 1, error := "", debug := "")
  }

  /** "Back": one step back, with the error and debug lines cleared. */
  function Prev(s: Page): (r: Page)
    ensures r.step == s.step - 1 && r.error == "" && r.debug == ""
    ensures r.test == s.test && r.apiKeyHelp == s.apiKeyHelp
  {
    s.(step := s.step - 1, error := "", debug := "")
  }

  /** Going forward and back (or back and forward) returns to the same step, with nothing but the two lines changed. */
  lemma NextPrev(s: Page)
    ensures Prev(Next(s)) == Next(Prev(s)) == s.(error := "", debug := "")
  {
  }

  /** The fields of an object literal that `JSON.stringify` writes out: those whose value is not `undefined`. */
  function Present(fields: seq<(string, Option<Json>)>): (r: seq<(string, Json)>)
    ensures forall k :: Lookup(r, k) == LookupPresent(fields, k)
  {
    if |fields| == 0 then []
    else
      var init := Present(fields[..|fields| - 1]);
      var last := fields[|fields| - 1];
      if last.1.None? then
        assert forall k :: LookupPresent(fields, k) == LookupPresent(fields[..|fields| - 1], k);
        init
      else
        var r := init + [(last.0, last.1.value)];
        assert r[..|r| - 1] == init;
        assert forall k :: LookupPresent(fields, k) == (if k == last.0 then last.1 else LookupPresent(fields[..|fields| - 1], k));
        r
  }

  /** The value the last present field named `k` carries. */
  function LookupPresent(fields: seq<(string, Option<Json>)>, k: string): Option<Json> {
    if |fields| == 0 then None
    else if fields[|fields| - 1].0 == k && fields[|fields| - 1].1.Some? then fields[|fields| - 1].1
    else LookupPresent(fields[..|fields| - 1], k)
  }

  /** A key no field carries is absent. */
  lemma {:induction false} PresentAbsent(fields: seq<(string, Option<Json>)>, k: string)
    requires forall j :: 0 <= j < |fields| ==> fields[j].0 != k
    ensures LookupPresent(fields, k).None?
  {
    if |fields| > 0 {
      PresentAbsent(fields[..|fields| - 1], k);
    }
  }

  /** A field whose key no other field carries gives the value of its key. */
  lemma {:induction false} PresentAt(fields: seq<(string, Option<Json>)>, i: int)
    requires 0 <= i < |fields| && forall j :: 0 <= j < |fields| && j != i ==> fields[j].0 != fields[i].0
    ensures LookupPresent(fields, fields[i].0) == fields[i].1
  {
    var init := fields[..|fields| - 1];
    if i < |fields| - 1 {
      PresentAt(init, i);
    } else {
      PresentAbsent(init, fields[i].0);
    }
  }

  /** The fields of `fields` with every `key` field dropped. */
  function Without(fields: seq<(string, Json)>, key: string): (r: seq<(string, Json)>)
    ensures forall k :: Lookup(r, k) == if k == key then None else Lookup(fields, k)
  {
    if |fields| == 0 then []
    else
      var init := Without(fields[..|fields| - 1], key);
      var last := fields[|fields| - 1];
      if last.0 == key then init
      else
        var r := init + [last];
        assert r[..|r| - 1] == init;
        r
  }

  /** The own fields an object spread copies; a stored value that is not an object is taken to have none. */
  function Own(j: Json): seq<(string, Json)> {
    if j.JObj? then j.fields else []
  }

  /**
   * `{ ...user, key: v }` as `JSON.stringify` writes it: `key` carries `v` (and is dropped
   * when `v` is `undefined`), and every other field of `user` is kept.
   */
  function Merge(user: Json, key: string, v: Option<Json>): (r: Json)
    ensures Get(r, key) == v
    ensures forall k :: k != key ==> Get(r, k) == Get(user, k)
  {
    var rest := Without(Own(user), key);
    var r := if v.Some? then rest + [(key, v.value)] else rest;
    assert v.Some? ==> r[..|r| - 1] == rest;
    JObj(r)
  }

  /** A handler that failed with `message`: the error line shows it and the debug line shows it in development only. */
  function Failed(s: Page, message: string, pending: string, development: bool): (r: Page)
    ensures r.step == s.step && r.error == message && r.test == s.test && r.apiKeyHelp == s.apiKeyHelp
  {
    s.(error := message, debug := if development then "Debug: " + message else pending)
  }

  /** The record stored at sign-up: the new user's id and client token as the route returned them, and the e-mail typed in. */
  function SignedUp(data: Json, email: string): Json {
    JObj(Present([("userId", Get(data, "userId")), ("email", Some(JStr(email))), ("clientAccessToken", Get(data, "clientAccessToken"))]))
  }

  datatype Signup = Signup(page: Page, stored: Option<Json>)

  /** `new Error(body.error || fallback).message`: the route's error, as a string, or the fallback. */
  function ErrorOf(data: Json, fallback: string): (m: string)
    ensures IsTruthy(Get(data, "error")) && Get(data, "error").value.JStr? ==> m == Get(data, "error").value.s
    ensures !IsTruthy(Get(data, "error")) ==> m == fallback
  {
    Show(Or(Get(data, "error"), JStr(fallback)))
  }

  /**
   * `handleUserCreation`: post the e-mail to the sign-up route. A non-ok answer fails with
   * the route's error; an ok one stores the new user and moves to the next step.
   */
  function CreateUser(s: Page, email: string, reply: Http.Upstream, stored: Option<Json>, development: bool): (r: Signup)
    ensures r.page.step == s.step + 1 <==> reply.Answered? && reply.ok && reply.body.Success? && !reply.body.value.JNull?
    ensures r.page.step != s.step + 1 ==> r.page.step == s.step && r.stored == stored
    ensures r.page.step == s.step + 1 ==>
              && r.page.error == "" && r.stored.Some?
              && Get(r.stored.value, "email") == Some(JStr(email))
              && Get(r.stored.value, "userId") == Get(reply.body.value, "userId")
              && Get(r.stored.value, "clientAccessToken") == Get(reply.body.value, "clientAccessToken")
    ensures reply.Answered? && !reply.ok && reply.body.Success? && !reply.body.value.JNull? ==>
              r.page == Failed(s, ErrorOf(reply.body.value, CreateFallback), CreatingUser, development)
    ensures reply.Threw? ==> r.page == Failed(s, reply.message, CreatingUser, development)
    ensures r.page.test == s.test && r.page.apiKeyHelp == s.apiKeyHelp
  {
    match reply
    case Threw(m) => Signup(Failed(s, m, CreatingUser, development), stored)
    case Answered(ok, _, body) =>
      match body
      case Failure(e) => Signup(Failed(s, e, CreatingUser, development), stored)
      case Success(data) =>
        if data.JNull? then Signup(Failed(s, NullRead(if ok then "userId" else "error"), CreatingUser, development), stored)
        else if !ok then Signup(Failed(s, ErrorOf(data, CreateFallback), CreatingUser, development), stored)
        else
          var record := SignedUp(data, email);
          StoredFields(data, email);
          Signup(Next(s), Some(record))
  }

  lemma StoredFields(data: Json, email: string)
    ensures Get(SignedUp(data, email), "email") == Some(JStr(email))
    ensures Get(SignedUp(data, email), "userId") == Get(data, "userId")
    ensures Get(SignedUp(data, email), "clientAccessToken") == Get(data, "clientAccessToken")
  {
    var fs := [("userId", Get(data, "userId")), ("email", Some(JStr(email))), ("clientAccessToken", Get(data, "clientAccessToken"))];
    PresentAt(fs, 0);
    PresentAt(fs, 1);
    PresentAt(fs, 2);
  }

  /** The consent handler's effects: the page, the stored record, the request body it posted (if any) and where it sent the browser. */
  datatype ConsentRun = ConsentRun(page: Page, stored: Option<Json>, payload: Option<Json>, redirect: Option<string>)

  /**
   * `handleConsentRedirect`: read the stored user (failing when there is none), post its
   * id and client token to the consent route, merge the returned link into the stored
   * record and leave for it.
   */
  function Consent(s: Page, stored: Option<Json>, reply: Http.Upstream, development: bool): (r: ConsentRun)
    ensures r.page.step == s.step && r.page.test == s.test && r.page.apiKeyHelp == s.apiKeyHelp
    ensures stored.None? ==> r == ConsentRun(Failed(s, NoStoredUser, SettingUp, development), None, None, None)
    ensures r.payload.Some? <==> stored.Some? && !stored.value.JNull?
    ensures r.payload.Some? ==>
              && Get(r.payload.value, "userId") == Get(stored.value, "userId")
              && Get(r.payload.value, "clientAccessToken") == Get(stored.value, "clientAccessToken")
    ensures r.redirect.Some? <==> r.payload.Some? && reply.Answered? && reply.ok && reply.body.Success? && !reply.body.value.JNull?
    ensures r.redirect.None? ==> r.stored == stored
    ensures r.redirect.Some? ==>
              && r.redirect.value == TextOf(Get(reply.body.value, "consentUrl"))
              && r.stored.Some? && r.page.error == ""
              && Get(r.stored.value, "consentUrl") == Get(reply.body.value, "consentUrl")
              && forall k :: k != "consentUrl" ==> Get(r.stored.value, k) == Get(stored.value, k)
  {
    if stored.None? then ConsentRun(Failed(s, NoStoredUser, SettingUp, development), stored, None, None)
    else
      var user := stored.value;
      if user.JNull? then ConsentRun(Failed(s, NullRead("userId"), SettingUp, development), stored, None, None)
      else
        var payload := ConsentPayload(user);
        match reply
        case Threw(m) => ConsentRun(Failed(s, m, SettingUp, development), stored, Some(payload), None)
        case Answered(ok, _, body) =>
          match body
          case Failure(e) => ConsentRun(Failed(s, e, SettingUp, development), stored, Some(payload), None)
          case Success(data) =>
            if data.JNull? then ConsentRun(Failed(s, NullRead(if ok then "consentUrl" else "error"), SettingUp, development), stored, Some(payload), None)
            else if !ok then ConsentRun(Failed(s, ErrorOf(data, ConsentFallback), SettingUp, development), stored, Some(payload), None)
            else
              var url := Get(data, "consentUrl");
              ConsentRun(s.(error := "", debug := Redirecting), Some(Merge(user, "consentUrl", url)), Some(payload), Some(TextOf(url)))
  }

  /** The body posted to the consent route: the stored id and client token. */
  function ConsentPayload(user: Json): (r: Json)
    ensures Get(r, "userId") == Get(user, "userId")
    ensures Get(r, "clientAccessToken") == Get(user, "clientAccessToken")
  {
    var fs := [("userId", Get(user, "userId")), ("clientAccessToken", Get(user, "clientAccessToken"))];
    PresentAt(fs, 0);
    PresentAt(fs, 1);
    JObj(Present(fs))
  }

  /** What the connection test's request gave: it threw (the thrown value as a string), or it answered with `ok` and a parsed body. */
  datatype Probe = ProbeThrew(shown: string) | ProbeAnswered(ok: bool, data: Json)

  /** The test passes: the token route answered ok with a token under either name. */
  predicate Passes(p: Probe) {
    p.ProbeAnswered? && p.ok && !p.data.JNull?
    && (IsTruthy(Get(p.data, "token")) || IsTruthy(Get(p.data, "access_token")))
  }

  /** `data.error.includes(word)` for an error that is an array: an element equal to `word`. */
  predicate HasItem(items: seq<Json>, word: string) {
    exists i :: 0 <= i < |items| && items[i] == JStr(word)
  }

  /**
   * `testConnection`: ask the token route for a client token. A pass clears the API-key
   * help; a failure reports the route's error and opens the help when that error mentions
   * authorization; anything thrown is reported as a connection error.
   */
  function Test(s: Page, p: Probe): (r: Page)
    ensures r.step == s.step && r.error == s.error
    ensures r.test == TestSucceeded <==> Passes(p)
    ensures r.test == TestSucceeded || r.test == TestFailed
    ensures Passes(p) ==> r.debug == TestPassed && !r.apiKeyHelp
    ensures p.ProbeThrew? ==> r == s.(debug := TestErrorPrefix + p.shown, test := TestFailed)
    ensures !Passes(p) && p.ProbeAnswered? && !p.data.JNull? && Get(p.data, "error").Some? && Get(p.data, "error").value.JStr? ==>
              r.debug == TestFailedPrefix + Get(p.data, "error").value.s
              && (r.apiKeyHelp <==> s.apiKeyHelp || Contains(Get(p.data, "error").value.s, "authorization"))
    ensures !Passes(p) && p.ProbeAnswered? && !p.data.JNull? && Get(p.data, "error").None? ==>
              r.debug == TestFailedPrefix + "undefined" && r.apiKeyHelp == s.apiKeyHelp
  {
    match p
    case ProbeThrew(shown) => s.(debug := TestErrorPrefix + shown, test := TestFailed)
    case ProbeAnswered(ok, data) =>
      if data.JNull? then
        s.(debug := TestErrorPrefix + "TypeError: " + NullRead(if ok then "token" else "error"), test := TestFailed)
      else if Passes(p) then s.(debug := TestPassed, test := TestSucceeded, apiKeyHelp := false)
      else
        var err := Get(data, "error");
        var failed := s.(debug := TestFailedPrefix + TextOf(err), test := TestFailed);
        if !IsTruthy(err) then failed
        else
          match err.value
          case JStr(e) =>
            InvalidAuthorization(e);
            failed.(apiKeyHelp := s.apiKeyHelp || Contains(e, "authorization") || Contains(e, "Invalid authorization"))
          case JArr(items) =>
            failed.(apiKeyHelp := s.apiKeyHelp || HasItem(items, "authorization") || HasItem(items, "Invalid authorization"))
          case _ => s.(debug := TestErrorPrefix + NotAFunction, test := TestFailed)
  }

  /** An error naming an invalid authorization names authorization, so the second test adds nothing. */
  lemma InvalidAuthorization(e: string)
    ensures Contains(e, "Invalid authorization") ==> Contains(e, "authorization")
  {
    if Contains(e, "Invalid authorization") {
      var i :| OccursAt(e, "Invalid authorization", i);
      assert e[i + 8..i + 21] == "Invalid authorization"[8..] == "authorization";
      assert OccursAt(e, "authorization", i + 8);
    }
  }

  /** From a page with the help closed, a test that fails with a string error opens it exactly when the error mentions authorization. */
  lemma HelpIffAuthorization(s: Page, ok: bool, data: Json)
    requires !s.apiKeyHelp && !Passes(ProbeAnswered(ok, data)) && !data.JNull?
    requires Get(data, "error").Some? && Get(data, "error").value.JStr?
    ensures Test(s, ProbeAnswered(ok, data)).apiKeyHelp <==> Contains(Get(data, "error").value.s, "authorization")
  {
    assert Contains("", "authorization") == false;
  }

  /** A user action on the page, with the answers its requests get. */
  datatype Event =
    | GetStarted
    | TestApi(probe: Probe)
    | Back
    | Submit(email: string, reply: Http.Upstream, development: bool)
    | Connect(consent: Http.Upstream, development: bool)

  /** The page and what it keeps outside: the stored user record and the link it left for, if any. */
  datatype App = App(page: Page, stored: Option<Json>, left: Option<string>)

  /** The controls each step renders: the welcome step has "Get started" and the test, the others "Back" and their form. */
  predicate Offers(step: int, e: Event) {
    match e
    case GetStarted => step == 1
    case TestApi(_) => step == 1
    case Back => step == 2 || step == 3
    case Submit(_, _, _) => step == 2
    case Connect(_, _) => step == 3
  }

  /** One event; a control the current step does not render does nothing. */
  function Apply(a: App, e: Event): (r: App)
    ensures !Offers(a.page.step, e) ==> r == a
  {
    if !Offers(a.page.step, e) then a
    else
      match e
      case GetStarted => a.(page := Next(a.page))
      case TestApi(p) => a.(page := Test(a.page, p))
      case Back => a.(page := Prev(a.page))
      case Submit(email, reply, dev) =>
        var r := CreateUser(a.page, email, reply, a.stored, dev);
        a.(page := r.page, stored := r.stored)
      case Connect(reply, dev) =>
        var r := Consent(a.page, a.stored, reply, dev);
        a.(page := r.page, stored := r.stored, left := if r.redirect.Some? then r.redirect else a.left)
  }

  function Run(a: App, events: seq<Event>): App
    decreases |events|
  {
    if |events| == 0 then a else Run(Apply(a, events[0]), events[1..])
  }

  /** Every event keeps the step among the three the page can show. */
  lemma ApplyInRange(a: App, e: Event)
    requires 1 <= a.page.step <= TotalSteps
    ensures 1 <= Apply(a, e).page.step <= TotalSteps
  {
  }

  /** Whatever the user does, starting from the welcome step, the page shows one of its three steps and the bar stays within its track. */
  lemma {:induction false} StepsInRange(a: App, events: seq<Event>)
    requires 1 <= a.page.step <= TotalSteps
    ensures 1 <= Run(a, events).page.step <= TotalSteps
    ensures 0.0 < Progress(Run(a, events).page.step) <= 100.0
    decreases |events|
  {
    if |events| > 0 {
      ApplyInRange(a, events[0]);
      StepsInRange(Apply(a, events[0]), events[1..]);
    }
  }

  /** The page starts on the welcome step, with nothing stored. */
  lemma FromStart(events: seq<Event>)
    ensures 1 <= Run(App(Start(), None, None), events).page.step <= TotalSteps
  {
    StepsInRange(App(Start(), None, None), events);
  }
}
