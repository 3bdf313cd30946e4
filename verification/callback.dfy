/**
 * The page the bank-connection flow returns to. It reads `success`, `error` and the job id
 * from the query string, polls the job, marks the stored user as connected, and sends the
 * browser on to the dashboard or back to the start. The poll's outcome, the stored user and
 * the hook's error are parameters; the cookie written and the page left for are results.
 */
module AuthCallback {
  import opened Wrappers
  import opened Text
  import opened Records
  import JobPolling

  const ConnectFailed := "Failed to connect your bank account. Please try again."
  const FetchedMessage := "Successfully connected your bank account and fetched data!"
  const IncompletePrefix := "Bank connection job did not complete successfully: "
  const UnknownStatus := "Unknown status"
  const FailedPrefix := "Bank connection failed: "
  const ConnectedMessage := "Successfully connected your bank account!" + " Redirecting to dashboard..."
  const NothingFound := "Something went wrong." + " No job ID or success status found."
  const Connected := "connected"

  /** The query parameters the page reads; `None` is a parameter that is absent. */
  datatype Params = Params(success: Option<string>, error: Option<string>, jobId: Option<string>, jobIds: Option<string>)

  /** The page's final status; the `polling` status shown while the job runs is not modelled. */
  datatype Status = Succeeded | Errored

  /** Where the page goes next: back to the start (after a three-second pause) or to the dashboard. */
  datatype Destination = Home | Dashboard

  /**
   * What one run of the handler leaves behind: the page status and message, the job id
   * written to the `basiq_job_id` cookie, the stored user and the next page.
   */
  datatype Handled = Handled(status: Status, message: string, cookie: Option<string>, stored: Option<StoredUser>, next: Destination)

  /** `jobId || jobIds`: the `jobId` parameter when it is truthy, otherwise `jobIds` as it is. */
  function JobId(p: Params): (r: Option<string>)
    ensures Truthy(r) <==> Truthy(p.jobId) || Truthy(p.jobIds)
    ensures Truthy(p.jobId) ==> r == p.jobId
  {
    if Truthy(p.jobId) then p.jobId else p.jobIds
  }

  /** When the page has a job id at all, it is the first truthy of the two parameters. */
  lemma JobIdFallback(p: Params)
    ensures Truthy(JobId(p)) ==> JobId(p) == FirstTruthy([p.jobId, p.jobIds])
    ensures !Truthy(JobId(p)) ==> FirstTruthy([p.jobId, p.jobIds]).None?
  {
    assert [p.jobId, p.jobIds][1..] == [p.jobIds];
    assert [p.jobIds][1..] == [];
  }

  /**
   * The stored user spread into a new record with `connectionStatus: "connected"` and, when
   * one is given, the final job id; every other field is kept.
   */
  function MarkConnected(u: StoredUser, jobId: Option<string>): (r: StoredUser)
    ensures r.userId == u.userId && r.email == u.email && r.clientAccessToken == u.clientAccessToken
    ensures r.consentUrl == u.consentUrl
    ensures r.connectionStatus == Some(Connected)
    ensures r.jobId == (if jobId.Some? then jobId else u.jobId)
  {
    u.(connectionStatus := Some(Connected), jobId := if jobId.Some? then jobId else u.jobId)
  }

  /** The stored record after a connection: updated when one was stored, otherwise still absent. */
  function Update(stored: Option<StoredUser>, jobId: Option<string>): Option<StoredUser> {
    if stored.Some? then Some(MarkConnected(stored.value, jobId)) else None
  }

  /**
   * `handleCallback()`. `jobError` is the hook's error as the effect saw it when it ran,
   * `outcome` is how `pollJobStatus` settled (the job it resolved with, or the message it
   * rejected with), and `stored` is the `basiq_user` record.
   */
  function Handle(p: Params, jobError: Option<string>, outcome: Result<Job, string>, stored: Option<StoredUser>): (r: Handled)
    ensures Truthy(p.error) ==> r == Handled(Errored, ConnectFailed, None, stored, Home)
    ensures r.cookie.Some? <==> !Truthy(p.error) && Truthy(JobId(p))
    ensures r.cookie.Some? ==> r.cookie == JobId(p)
    ensures r.status == Succeeded <==> r.next == Dashboard
    ensures r.stored != stored ==> r.status == Succeeded && stored.Some?
    ensures r.stored.Some? <==> stored.Some?
    ensures r.status == Succeeded && stored.Some? ==> r.stored.value.connectionStatus == Some(Connected)
    ensures !Truthy(p.error) && Truthy(JobId(p)) ==>
              (r.status == Succeeded <==> outcome.Success? && outcome.value.status == "success")
    ensures !Truthy(p.error) && Truthy(JobId(p)) && r.status == Succeeded ==>
              r.stored == Update(stored, Some(outcome.value.id)) && r.message == FetchedMessage
    ensures !Truthy(p.error) && Truthy(JobId(p)) && outcome.Failure? ==>
              r.message == FailedPrefix + OrElse(jobError, outcome.error)
    ensures !Truthy(p.error) && Truthy(JobId(p)) && outcome.Success? && outcome.value.status != "success" ==>
              r.message == IncompletePrefix + OrElse(outcome.value.message, UnknownStatus)
    ensures !Truthy(p.error) && !Truthy(JobId(p)) ==>
              (r.status == Succeeded <==> p.success == Some("true"))
  {
    if Truthy(p.error) then Handled(Errored, ConnectFailed, None, stored, Home)
    else if Truthy(JobId(p)) then
      var cookie := JobId(p);
      match outcome
      case Success(job) =>
        if job.status == "success" then Handled(Succeeded, FetchedMessage, cookie, Update(stored, Some(job.id)), Dashboard)
        else Handled(Errored, IncompletePrefix + OrElse(job.message, UnknownStatus), cookie, stored, Home)
      case Failure(e) => Handled(Errored, FailedPrefix + OrElse(jobError, e), cookie, stored, Home)
    else if p.success == Some("true") then Handled(Succeeded, ConnectedMessage, None, Update(stored, None), Dashboard)
    else Handled(Errored, NothingFound, None, stored, Home)
  }

  /**
   * The effect: it runs the handler when there is a job id and polling is not already on,
   * or when the query carries an error; otherwise it does nothing.
   */
  function Effect(p: Params, isPolling: bool, jobError: Option<string>, outcome: Result<Job, string>, stored: Option<StoredUser>): (r: Option<Handled>)
    ensures r.Some? <==> (Truthy(JobId(p)) && !isPolling) || Truthy(p.error)
    ensures r.Some? ==> r.value == Handle(p, jobError, outcome, stored)
  {
    if Truthy(JobId(p)) && !isPolling then Some(Handle(p, jobError, outcome, stored))
    else if Truthy(p.error) then Some(Handle(p, jobError, outcome, stored))
    else None
  }

  /** An error in the query decides the page, whatever else the query, the poll or the storage say. */
  lemma ErrorFirst(p: Params, q: Params, isPolling: bool, e1: Option<string>, e2: Option<string>,
                   o1: Result<Job, string>, o2: Result<Job, string>, stored: Option<StoredUser>)
    requires Truthy(p.error) && Truthy(q.error)
    ensures Effect(p, isPolling, e1, o1, stored) == Effect(q, false, e2, o2, stored)
    ensures Effect(p, isPolling, e1, o1, stored) == Some(Handled(Errored, ConnectFailed, None, stored, Home))
  {
  }

  /**
   * The handler is only run with an error or a job id in the query, so the branch for a
   * success flag without a job id and the final fallback are never what the effect shows.
   */
  lemma FallbacksUnreachable(p: Params, isPolling: bool, jobError: Option<string>, outcome: Result<Job, string>, stored: Option<StoredUser>)
    requires Effect(p, isPolling, jobError, outcome, stored).Some?
    ensures var r := Effect(p, isPolling, jobError, outcome, stored).value;
            r.message != ConnectedMessage && r.message != NothingFound
  {
    var r := Handle(p, jobError, outcome, stored);
    assert |ConnectedMessage| == 69 && ConnectedMessage[0] == 'S';
    assert |NothingFound| == 56 && NothingFound[0] == 'S';
    if Truthy(p.error) {
      assert r.message == ConnectFailed && |ConnectFailed| == 54;
    } else {
      assert Truthy(JobId(p));
      match outcome
      case Success(job) =>
        if job.status == "success" {
          assert r.message == FetchedMessage && |FetchedMessage| == 58;
        } else {
          var m := OrElse(job.message, UnknownStatus);
          assert r.message == IncompletePrefix + m && (IncompletePrefix + m)[0] == IncompletePrefix[0] == 'B';
        }
      case Failure(e) =>
        var m := OrElse(jobError, e);
        assert r.message == FailedPrefix + m && (FailedPrefix + m)[0] == FailedPrefix[0] == 'B';
    }
  }

  /** A job `pollJobStatus` resolves with has status `"success"`: it rejects on every other ending. */
  lemma PolledJobSucceeded(s: JobPolling.HookState, fetch: nat -> FetchResult, maxAttempts: int)
    ensures var h := JobPolling.PollJobStatus(s, fetch, maxAttempts);
            h.outcome.Success? ==> h.outcome.value.status == "success"
  {
    var run := JobPolling.Poll(fetch, maxAttempts, 0, s.jobData);
    var last := JobPolling.Classify(fetch(run.fetches - 1));
    if run.outcome.Success? {
      assert last.Finished?;
    }
  }

  /**
   * With the outcome of a real polling run, the page succeeds exactly when the poll resolved,
   * never reports an incomplete job, and otherwise shows the poll's error unless the hook
   * already held one when the effect ran.
   */
  lemma PolledHandle(p: Params, jobError: Option<string>, s: JobPolling.HookState, fetch: nat -> FetchResult, stored: Option<StoredUser>)
    requires !Truthy(p.error) && Truthy(JobId(p))
    ensures var h := JobPolling.PollJobStatus(s, fetch, JobPolling.DefaultMaxAttempts);
            var r := Handle(p, jobError, h.outcome, stored);
            && (r.status == Succeeded <==> h.outcome.Success?)
            && (h.outcome.Success? ==> r.stored == Update(stored, Some(h.outcome.value.id)))
            && (h.outcome.Failure? ==> r.message == FailedPrefix + OrElse(jobError, h.state.jobError.value))
  {
    PolledJobSucceeded(s, fetch, JobPolling.DefaultMaxAttempts);
  }
}
