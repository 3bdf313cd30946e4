/**
 * `POST /api/basiq/basiq-report`: create a report job for the last twelve months, then
 * poll the job up to ten times, looking only at the status of its first step, until it
 * yields the report's URL. The three-second pause between polls is not modelled; the
 * clock is the `today` parameter, a date in UTC.
 */
module ReportJobRoute {
  import opened Wrappers
  import opened Calendar
  import opened Json
  import opened Http

  const MaxAttempts := 10
  const ReportsUrl := "https://au-api.basiq.io/reports"
  const JobsUrl := "https://au-api.basiq.io/jobs/"
  const MissingFields := "Missing required fields: reportType or userId"
  const DefaultTitle := "Full Net Worth Report"
  const CreateFailed := "Failed to create report job"
  const UrlMissing := "Report URL missing in job data"
  const JobFailed := "Basiq report job failed"
  const TimedOut := "Polling timed out"

  /**
   * `setFullYear(year - 1)` on a date: the same month and day a year earlier, where
   * 29 February of a year whose predecessor is not a leap year rolls over to 1 March.
   */
  function YearEarlier(d: CalendarDate): (r: CalendarDate)
    ensures r.year == d.year - 1
    ensures !(d.month == 2 && d.day == 29 && !IsLeap(d.year - 1)) ==> r.month == d.month && r.day == d.day
  {
    if d.month == 2 && d.day == 29 && !IsLeap(d.year - 1) then Date(d.year - 1, 3, 1)
    else Date(d.year - 1, d.month, d.day)
  }

  /** The report period always spans a whole year: 365 or 366 days. */
  lemma YearEarlierSpan(d: CalendarDate)
    ensures Ordinal(d) - Ordinal(YearEarlier(d)) == (if (d.month > 2 && IsLeap(d.year)) || (d.month <= 2 && IsLeap(d.year - 1)) then 366 else 365)
  {
    YearLength(d.year - 1);
    OrdinalOfDate(d);
    OrdinalOfDate(YearEarlier(d));
    if d.month == 2 && d.day == 29 && !IsLeap(d.year - 1) {
      LeapDayRollsOver(d);
    } else {
      SameDayBefore(d.year, d.month);
    }
  }

  lemma LeapDayRollsOver(d: CalendarDate)
    requires d.month == 2 && d.day == 29 && !IsLeap(d.year - 1)
    ensures YearEarlier(d) == Date(d.year - 1, 3, 1)
    ensures DaysBeforeMonth(d.year, 2) + 29 == DaysBeforeMonth(d.year - 1, 3) + 1
  {
  }

  lemma SameDayBefore(y: int, m: int)
    requires 1 <= m <= 12
    ensures DaysBeforeMonth(y, m) - DaysBeforeMonth(y - 1, m) ==
            (if m > 2 then (if IsLeap(y) then 1 else 0) - (if IsLeap(y - 1) then 1 else 0) else 0)
  {
  }

  /** A calendar date's day number, spelled out. */
  lemma OrdinalOfDate(d: CalendarDate)
    ensures Ordinal(d) == DaysBeforeYear(d.year) + DaysBeforeMonth(d.year, d.month) + d.day - 1
  {
    assert (d.month - 1) / 12 == 0 && (d.month - 1) % 12 + 1 == d.month;
  }

  /** `n` written with at least `width` digits, padded with leading zeros. */
  function Pad(n: nat, width: nat): (r: string)
    ensures |r| >= width
    ensures forall i :: 0 <= i < |r| ==> '0' <= r[i] <= '9'
    decreases width
  {
    var digits := NatToString(n);
    if |digits| >= width then digits else "0" + Pad(n, width - 1)
  }

  /** Leading zeros do not change the value the digits spell. */
  lemma {:induction false} PadValue(n: nat, width: nat)
    ensures DigitsValue(Pad(n, width)) == n
    decreases width
  {
    if |NatToString(n)| >= width {
      NatToStringValue(n);
    } else {
      PadValue(n, width - 1);
      LeadingZero(Pad(n, width - 1));
    }
  }

  lemma {:induction false} LeadingZero(s: string)
    requires forall i :: 0 <= i < |s| ==> '0' <= s[i] <= '9'
    ensures DigitsValue("0" + s) == DigitsValue(s)
    decreases |s|
  {
    if |s| > 0 {
      var t := "0" + s;
      assert t[..|t| - 1] == "0" + s[..|s| - 1];
      LeadingZero(s[..|s| - 1]);
    }
  }

  /** `toISOString().split("T")[0]`: `YYYY-MM-DD`, with a signed six-digit year outside 0..9999. */
  function IsoDate(d: CalendarDate): string {
    var year := if 0 <= d.year <= 9999 then Pad(d.year, 4)
                else (if d.year < 0 then "-" else "+") + Pad(if d.year < 0 then -d.year else d.year, 6);
    year + "-" + Pad(d.month, 2) + "-" + Pad(d.day, 2)
  }

  /** For years 0 to 9999 the text is ten characters and its fields read back as the date. */
  lemma IsoDateFields(d: CalendarDate)
    requires 0 <= d.year <= 9999
    ensures var s := IsoDate(d);
            && |s| == 10 && s[4] == '-' && s[7] == '-'
            && DigitsValue(s[..4]) == d.year && DigitsValue(s[5..7]) == d.month && DigitsValue(s[8..]) == d.day
  {
    var y := Pad(d.year, 4);
    var m := Pad(d.month, 2);
    var dd := Pad(d.day, 2);
    NatToStringLength(d.year, 4);
    NatToStringLength(d.month, 2);
    NatToStringLength(d.day, 2);
    PadExact(d.year, 4);
    PadExact(d.month, 2);
    PadExact(d.day, 2);
    var s := IsoDate(d);
    assert s == y + "-" + m + "-" + dd;
    assert s[..4] == y && s[5..7] == m && s[8..] == dd;
    PadValue(d.year, 4);
    PadValue(d.month, 2);
    PadValue(d.day, 2);
  }

  /** Below `10^w` a number has at most `w` digits. */
  lemma {:induction false} NatToStringLength(n: nat, w: nat)
    requires 1 <= w && n < Power10(w)
    ensures |NatToString(n)| <= w
    decreases w
  {
    if n >= 10 {
      assert w > 1;
      NatToStringLength(n / 10, w - 1);
    }
  }

  function Power10(w: nat): nat {
    if w == 0 then 1 else 10 * Power10(w - 1)
  }

  lemma {:induction false} PadExact(n: nat, w: nat)
    requires |NatToString(n)| <= w
    ensures |Pad(n, w)| == w
    decreases w
  {
    if |NatToString(n)| < w {
      PadExact(n, w - 1);
    }
  }

  /** `{ name, value }`, one report filter. */
  function Filter(name: string, value: Json): Json {
    JObj([("name", JStr(name)), ("value", value)])
  }

  /** The body of the report-creation request. */
  function ReportPayload(reportType: Json, title: Option<Json>, userId: Json, today: CalendarDate): Json {
    JObj([("reportType", reportType), ("title", Or(title, JStr(DefaultTitle))),
          ("filters", JArr([Filter("fromDate", JStr(IsoDate(YearEarlier(today)))), Filter("toDate", JStr(IsoDate(today))),
                            Filter("users", JArr([userId])), Filter("accounts", JArr([]))]))])
  }

  /** `jobData?.steps?.[0]?.status`. */
  function FirstStepStatus(jobData: Json): Option<Json> {
    Field(FirstItem(Get(jobData, "steps")), "status")
  }

  /** What one poll decides: keep polling, stop with the report's URL, or stop with an error. */
  datatype Tick = Continue | Found(url: Json) | Failed(message: string)

  /**
   * One job fetch: a thrown fetch or unparsable body is an error; otherwise only the first
   * step's status matters, and a success needs a `links.source`.
   */
  function Classify(u: Upstream): (t: Tick)
    ensures u.Answered? && u.body.Success? ==>
              && (t.Found? <==> FirstStepStatus(u.body.value) == Some(JStr("success")) && IsTruthy(Field(Get(u.body.value, "links"), "source")))
              && (t.Continue? <==> FirstStepStatus(u.body.value) != Some(JStr("success")) && FirstStepStatus(u.body.value) != Some(JStr("failed")))
    ensures t.Found? ==> IsTruthy(Some(t.url))
    ensures u.Threw? ==> t == Failed(u.message)
  {
    match u
    case Threw(e) => Failed(e)
    case Answered(_, _, parsed) =>
      match parsed
      case Failure(e) => Failed(e)
      case Success(data) =>
        var status := FirstStepStatus(data);
        if status == Some(JStr("success")) then
          var url := Field(Get(data, "links"), "source");
          if IsTruthy(url) then Found(url.value) else Failed(UrlMissing)
        else if status == Some(JStr("failed")) then Failed(JobFailed)
        else Continue
  }

  /** The result of a polling run and how many job fetches it made. */
  datatype PollRun = PollRun(tick: Tick, fetches: nat)

  /** The loop from attempt `attempt` on; `ticks(i)` is what the i-th job fetch decides. */
  function Poll(ticks: nat -> Tick, attempt: nat): (r: PollRun)
    decreases MaxAttempts - attempt
    ensures !r.tick.Continue?
    ensures attempt < MaxAttempts ==> attempt + r.fetches <= MaxAttempts
    ensures attempt >= MaxAttempts ==> r == PollRun(Failed(TimedOut), 0)
    ensures forall i :: attempt <= i < attempt + r.fetches - 1 ==> ticks(i).Continue?
    ensures r.fetches > 0 && !ticks(attempt + r.fetches - 1).Continue? ==> r.tick == ticks(attempt + r.fetches - 1)
    ensures r.fetches > 0 && ticks(attempt + r.fetches - 1).Continue? ==> r.tick == Failed(TimedOut) && attempt + r.fetches == MaxAttempts
  {
    if attempt >= MaxAttempts then PollRun(Failed(TimedOut), 0)
    else
      match ticks(attempt)
      case Continue =>
        var rest := Poll(ticks, attempt + 1);
        PollRun(rest.tick, rest.fetches + 1)
      case t => PollRun(t, 1)
  }

  /** A job that never decides is fetched exactly ten times, and the run times out. */
  lemma {:induction false} UndecidedTimesOut(ticks: nat -> Tick, attempt: nat)
    requires attempt <= MaxAttempts
    requires forall i :: attempt <= i < MaxAttempts ==> ticks(i).Continue?
    ensures Poll(ticks, attempt) == PollRun(Failed(TimedOut), MaxAttempts - attempt)
    decreases MaxAttempts - attempt
  {
    if attempt < MaxAttempts {
      UndecidedTimesOut(ticks, attempt + 1);
    }
  }

  /** A job that decides at attempt k stops there, after k + 1 fetches, with that decision. */
  lemma {:induction false} DecidesAt(ticks: nat -> Tick, attempt: nat, k: nat)
    requires attempt <= k < MaxAttempts
    requires forall i :: attempt <= i < k ==> ticks(i).Continue?
    requires !ticks(k).Continue?
    ensures Poll(ticks, attempt) == PollRun(ticks(k), k - attempt + 1)
    decreases MaxAttempts - attempt
  {
    if attempt < k {
      assert ticks(attempt).Continue?;
      DecidesAt(ticks, attempt + 1, k);
      var rest := Poll(ticks, attempt + 1);
      assert Poll(ticks, attempt) == PollRun(rest.tick, rest.fetches + 1);
    } else {
      assert Poll(ticks, attempt) == PollRun(ticks(attempt), 1);
    }
  }

  /** What each job fetch decides. */
  function Decisions(jobs: nat -> Upstream): nat -> Tick {
    (i: nat) => Classify(jobs(i))
  }

  /** `{ jobId, reportUrl }`; an undefined `jobId` is left out of the JSON text. */
  function ReadyBody(jobId: Option<Json>, url: Json): Json {
    JObj((if jobId.Some? then [("jobId", jobId.value)] else []) + [("reportUrl", url)])
  }

  /** The job fetches a run makes, all to the same job URL. */
  function JobFetches(jobId: Option<Json>, bearer: string, n: nat): (r: seq<Call>)
    ensures |r| == n && forall i :: 0 <= i < n ==> r[i] == FetchCall(JobsUrl + TextOf(jobId), bearer)
  {
    seq(n, _ => FetchCall(JobsUrl + TextOf(jobId), bearer))
  }

  /** The request's three fields, when the body parsed and both required ones are truthy. */
  predicate Valid(body: Result<Json, string>) {
    body.Success? && !body.value.JNull? && IsTruthy(Get(body.value, "reportType")) && IsTruthy(Get(body.value, "userId"))
  }

  /**
   * The handler: `server` is the outcome of the server-token request, `create` the answer
   * to the report creation, `jobs(i)` the answer to the i-th job fetch.
   */
  function Handle(body: Result<Json, string>, today: CalendarDate, server: Result<Json, string>,
                  create: Upstream, jobs: nat -> Upstream): (r: Outcome)
    ensures r.calls == [] <==> !Valid(body)
    ensures body.Success? && !body.value.JNull? && !Valid(body) ==> r.response == ErrorResponse(400, MissingFields)
    ensures Valid(body) && server.Success? ==>
              |r.calls| >= 2 && r.calls[1] == PostCall(ReportsUrl, Show(server.value),
                ReportPayload(Get(body.value, "reportType").value, Get(body.value, "title"), Get(body.value, "userId").value, today))
    ensures |r.calls| <= 2 + MaxAttempts
    ensures Valid(body) && server.Success? && create.Answered? && create.body.Success? && !create.ok && !create.body.value.JNull? ==>
              r == Outcome(Response(create.status, JObj([("error", OrText(Get(create.body.value, "message"), CreateFailed))])), r.calls)
              && |r.calls| == 2
  {
    match RequestFields(body, "reportType", "body")
    case Failure(e) => Outcome(ErrorResponse(500, e), [])
    case Success(fields) =>
      var reportType := Get(fields, "reportType");
      var userId := Get(fields, "userId");
      if !IsTruthy(reportType) || !IsTruthy(userId) then Outcome(ErrorResponse(400, MissingFields), [])
      else
        match server
        case Failure(e) => Outcome(ErrorResponse(500, e), [ServerTokenCall])
        case Success(token) =>
          var calls := [ServerTokenCall, PostCall(ReportsUrl, Show(token), ReportPayload(reportType.value, Get(fields, "title"), userId.value, today))];
          AfterCreate(Show(token), create, jobs, calls)
  }

  /** Everything after the creation request. */
  function AfterCreate(bearer: string, create: Upstream, jobs: nat -> Upstream, calls: seq<Call>): (r: Outcome)
    ensures |calls| <= |r.calls| <= |calls| + MaxAttempts && r.calls[..|calls|] == calls
    ensures create.Answered? && create.body.Success? && !create.ok && !create.body.value.JNull? ==>
              r == Outcome(Response(create.status, JObj([("error", OrText(Get(create.body.value, "message"), CreateFailed))])), calls)
    ensures create.Answered? && create.ok && create.body.Success? && !create.body.value.JNull? ==>
              var jobId := Get(create.body.value, "id");
              var run := Poll(Decisions(jobs), 0);
              && r.calls == calls + JobFetches(jobId, bearer, run.fetches)
              && r.response == (if run.tick.Found? then Response(200, ReadyBody(jobId, run.tick.url)) else ErrorResponse(500, run.tick.message))
  {
    match create
    case Threw(e) => Outcome(ErrorResponse(500, e), calls)
    case Answered(ok, status, parsed) =>
      match parsed
      case Failure(e) => Outcome(ErrorResponse(500, e), calls)
      case Success(data) =>
        if !ok then
          if data.JNull? then Outcome(ErrorResponse(500, NullRead("message")), calls)
          else Outcome(Response(status, JObj([("error", OrText(Get(data, "message"), CreateFailed))])), calls)
        else if data.JNull? then Outcome(ErrorResponse(500, NullRead("id")), calls)
        else
          var jobId := Get(data, "id");
          var run := Poll(Decisions(jobs), 0);
          var calls' := calls + JobFetches(jobId, bearer, run.fetches);
          if run.tick.Found? then Outcome(Response(200, ReadyBody(jobId, run.tick.url)), calls')
          else Outcome(ErrorResponse(500, run.tick.message), calls')
  }

  /** Without both required fields the request is refused before any token or network call. */
  lemma GuardFirst(body: Result<Json, string>, today: CalendarDate, s1: Result<Json, string>, c1: Upstream, j1: nat -> Upstream,
                   s2: Result<Json, string>, c2: Upstream, j2: nat -> Upstream)
    requires !Valid(body)
    ensures Handle(body, today, s1, c1, j1) == Handle(body, today, s2, c2, j2)
  {
  }

  /** Steps after the first one never matter: two jobs whose first steps agree poll alike. */
  lemma OnlyFirstStep(a: Json, b: Json, ok1: bool, ok2: bool, st1: int, st2: int)
    requires FirstStepStatus(a) == FirstStepStatus(b)
    requires Field(Get(a, "links"), "source") == Field(Get(b, "links"), "source")
    ensures Classify(Answered(ok1, st1, Success(a))) == Classify(Answered(ok2, st2, Success(b)))
  {
  }

  /**
   * When the job's first step succeeds, with a source link, at fetch k (earlier fetches
   * undecided), the route answers 200 with that link after k + 1 job fetches.
   */
  lemma ReadyAt(body: Result<Json, string>, today: CalendarDate, token: Json, status: int, data: Json,
                jobs: nat -> Upstream, k: nat)
    requires Valid(body) && !data.JNull? && k < MaxAttempts
    requires forall i :: 0 <= i < k ==> Classify(jobs(i)).Continue?
    requires Classify(jobs(k)).Found?
    ensures var r := Handle(body, today, Success(token), Answered(true, status, Success(data)), jobs);
            && r.response == Response(200, ReadyBody(Get(data, "id"), Classify(jobs(k)).url))
            && |r.calls| == k + 3
  {
    DecidesAt(Decisions(jobs), 0, k);
  }

  /** A job whose first step never settles within ten fetches ends in a 500 with the timeout message. */
  lemma TimesOut(body: Result<Json, string>, today: CalendarDate, token: Json, status: int, data: Json, jobs: nat -> Upstream)
    requires Valid(body) && !data.JNull?
    requires forall i :: 0 <= i < MaxAttempts ==> Classify(jobs(i)).Continue?
    ensures var r := Handle(body, today, Success(token), Answered(true, status, Success(data)), jobs);
            && r.response == ErrorResponse(500, TimedOut)
            && |r.calls| == 2 + MaxAttempts
  {
    var create := Answered(true, status, Success(data));
    var h := Handle(body, today, Success(token), create, jobs);
    ValidHandle(body, today, token, create, jobs);
    CreatedThenTimesOut(Show(token), create, jobs, h.calls[..2]);
  }

  /** A valid request with a server token makes its two creation calls and hands over to `AfterCreate`. */
  lemma ValidHandle(body: Result<Json, string>, today: CalendarDate, token: Json, create: Upstream, jobs: nat -> Upstream)
    requires Valid(body)
    ensures var h := Handle(body, today, Success(token), create, jobs);
            |h.calls| >= 2 && h == AfterCreate(Show(token), create, jobs, h.calls[..2])
  {
    assert RequestFields(body, "reportType", "body") == Success(body.value);
  }

  lemma CreatedThenTimesOut(bearer: string, create: Upstream, jobs: nat -> Upstream, calls: seq<Call>)
    requires create.Answered? && create.ok && create.body.Success? && !create.body.value.JNull?
    requires forall i :: 0 <= i < MaxAttempts ==> Classify(jobs(i)).Continue?
    ensures var r := AfterCreate(bearer, create, jobs, calls);
            r.response == ErrorResponse(500, TimedOut) && |r.calls| == |calls| + MaxAttempts
  {
    var ticks := Decisions(jobs);
    assert forall i :: 0 <= i < MaxAttempts ==> ticks(i).Continue?;
    UndecidedTimesOut(ticks, 0);
  }
}
