/**
 * The client-side job poller: fetch the job repeatedly until it succeeds, fails,
 * reports an error, or the attempt budget runs out. Each fetch is an oracle value
 * `fetch(i)` for the i-th attempt; the five-second pause between attempts is not modelled.
 */
module JobPolling {
  import opened Wrappers
  import opened Text
  import opened Records

  const DefaultMaxAttempts := 30
  const FetchFailedMessage := "Failed to fetch job details from Basiq API."
  const UnknownFailure := "Job failed with unknown error."
  const TimeoutMessage := "Job polling timeout - data may still be processing. Please refresh the page."

  /** What one fetch decides: keep polling, stop with the job, or stop with an error message. */
  datatype Tick = Continue | Finished(job: Job) | Stopped(msg: string)

  /** The job a response puts on display: every parsed body except one carrying an `error` field. */
  function Shown(r: FetchResult): Option<Job> {
    if r.Fetched? && !Truthy(r.job.error) then Some(r.job) else None
  }

  /**
   * The checks applied to one response, in order: a thrown fetch, an `error` field in
   * the body, a non-ok status, a successful job, a failed job; otherwise continue.
   */
  function Classify(r: FetchResult): (t: Tick)
    ensures t.Continue? ==> Shown(r).Some? && r.ok && r.job.status !in {"success", "failed", "error"}
    ensures t.Finished? <==> Shown(r).Some? && r.ok && r.job.status == "success"
    ensures t.Finished? ==> t.job == r.job
    ensures r.Fetched? && Truthy(r.job.error) ==> t == Stopped(r.job.error.value)
    ensures Shown(r).Some? && !r.ok ==>
              t == Stopped(OrElse(r.job.message, OrElse(FirstDetail(r.job), FetchFailedMessage)))
    ensures Shown(r).Some? && r.ok && r.job.status in {"failed", "error"} ==>
              t == Stopped("Job failed: " + OrElse(r.job.message, OrElse(FirstDetail(r.job), UnknownFailure)))
  {
    match r
    case FetchFailed(reason) => Stopped(reason)
    case Fetched(ok, job) =>
      if Truthy(job.error) then Stopped(job.error.value)
      else if !ok then Stopped(OrElse(job.message, OrElse(FirstDetail(job), FetchFailedMessage)))
      else if job.status == "success" then Finished(job)
      else if job.status == "failed" || job.status == "error" then
        Stopped("Job failed: " + OrElse(job.message, OrElse(FirstDetail(job), UnknownFailure)))
      else Continue
  }

  /** The outcome of a polling run, the number of fetches it made and the job left on display. */
  datatype PollRun = PollRun(outcome: Result<Job, string>, fetches: nat, jobData: Option<Job>)

  function Max(a: int, b: int): int {
    if a < b then b else a
  }

  /**
   * `poll()` entered with `attempts` fetches already made. The counter is bumped after
   * each undecided response and the run times out once it reaches `maxAttempts`.
   */
  function Poll(fetch: nat -> FetchResult, maxAttempts: int, attempts: nat, jobData: Option<Job>): (r: PollRun)
    decreases maxAttempts - attempts
    ensures 1 <= r.fetches <= Max(maxAttempts - attempts, 1)
    ensures forall i :: attempts <= i < attempts + r.fetches - 1 ==> Classify(fetch(i)).Continue?
    ensures var last := Classify(fetch(attempts + r.fetches - 1));
            && (r.outcome.Success? <==> last.Finished?)
            && (last.Finished? ==> r.outcome.value == last.job && r.jobData == Some(last.job))
            && (last.Stopped? ==> r.outcome == Failure(last.msg))
            && (last.Continue? ==> r.outcome == Failure(TimeoutMessage) && attempts + r.fetches >= maxAttempts)
    ensures Shown(fetch(attempts + r.fetches - 1)).Some? ==> r.jobData == Shown(fetch(attempts + r.fetches - 1))
    ensures r.fetches == 1 && Shown(fetch(attempts)).None? ==> r.jobData == jobData
  {
    var response := fetch(attempts);
    var shown := if Shown(response).Some? then Shown(response) else jobData;
    match Classify(response)
    case Finished(job) => PollRun(Success(job), 1, shown)
    case Stopped(msg) => PollRun(Failure(msg), 1, shown)
    case Continue =>
      if attempts + 1 >= maxAttempts then PollRun(Failure(TimeoutMessage), 1, shown)
      else
        var rest := Poll(fetch, maxAttempts, attempts + 1, shown);
        PollRun(rest.outcome, rest.fetches + 1, rest.jobData)
  }

  /** The hook's state: the job on display, whether polling is active, and the last polling error. */
  datatype HookState = HookState(jobData: Option<Job>, isPolling: bool, jobError: Option<string>)

  datatype HookRun = HookRun(state: HookState, outcome: Result<Job, string>, fetches: nat)

  /**
   * `pollJobStatus(jobId, maxAttempts)`: start polling, clear the error, run the loop, and on
   * any error stop polling, record the message and reject with it.
   */
  function PollJobStatus(s: HookState, fetch: nat -> FetchResult, maxAttempts: int): (h: HookRun)
    ensures !h.state.isPolling
    ensures h.outcome.Success? ==> h.state.jobError.None? && h.state.jobData == Some(h.outcome.value)
    ensures h.outcome.Failure? ==> h.state.jobError == Some(h.outcome.error)
    ensures 1 <= h.fetches <= Max(maxAttempts, 1)
    ensures forall i :: 0 <= i < h.fetches - 1 ==> Classify(fetch(i)).Continue?
  {
    var run := Poll(fetch, maxAttempts, 0, s.jobData);
    var err := if run.outcome.Failure? then Some(run.outcome.error) else None;
    HookRun(HookState(run.jobData, false, err), run.outcome, run.fetches)
  }

  /** A job that never finishes is fetched exactly `maxAttempts` times (at least once) and then times out. */
  lemma {:induction false} NeverDecidedTimesOut(fetch: nat -> FetchResult, maxAttempts: int, attempts: nat, jobData: Option<Job>)
    requires forall i :: Classify(fetch(i)).Continue?
    ensures Poll(fetch, maxAttempts, attempts, jobData).fetches == Max(maxAttempts - attempts, 1)
    ensures Poll(fetch, maxAttempts, attempts, jobData).outcome == Failure(TimeoutMessage)
    decreases maxAttempts - attempts
  {
    var shown := if Shown(fetch(attempts)).Some? then Shown(fetch(attempts)) else jobData;
    if attempts + 1 < maxAttempts {
      NeverDecidedTimesOut(fetch, maxAttempts, attempts + 1, shown);
    }
  }

  /** With the default budget, an undecided job is fetched thirty times before the timeout error. */
  lemma DefaultBudget(s: HookState, fetch: nat -> FetchResult)
    requires forall i :: Classify(fetch(i)).Continue?
    ensures PollJobStatus(s, fetch, DefaultMaxAttempts).fetches == 30
    ensures PollJobStatus(s, fetch, DefaultMaxAttempts).state.jobError == Some(TimeoutMessage)
  {
    NeverDecidedTimesOut(fetch, DefaultMaxAttempts, 0, s.jobData);
  }

  /**
   * A job that succeeds at attempt k, with every earlier attempt undecided and k within budget,
   * resolves to that job after exactly k + 1 fetches.
   */
  lemma {:induction false} SucceedsAt(fetch: nat -> FetchResult, maxAttempts: int, attempts: nat, jobData: Option<Job>, k: nat)
    requires attempts <= k < Max(maxAttempts, attempts + 1)
    requires forall i :: attempts <= i < k ==> Classify(fetch(i)).Continue?
    requires Classify(fetch(k)).Finished?
    ensures Poll(fetch, maxAttempts, attempts, jobData).outcome == Success(fetch(k).job)
    ensures Poll(fetch, maxAttempts, attempts, jobData).fetches == k - attempts + 1
    decreases maxAttempts - attempts
  {
    var shown := if Shown(fetch(attempts)).Some? then Shown(fetch(attempts)) else jobData;
    if attempts < k {
      assert Classify(fetch(attempts)).Continue?;
      assert attempts + 1 < maxAttempts;
      SucceedsAt(fetch, maxAttempts, attempts + 1, shown, k);
      var rest := Poll(fetch, maxAttempts, attempts + 1, shown);
      assert Poll(fetch, maxAttempts, attempts, jobData) == PollRun(rest.outcome, rest.fetches + 1, rest.jobData);
    } else {
      assert Poll(fetch, maxAttempts, attempts, jobData) == PollRun(Success(fetch(k).job), 1, shown);
    }
  }

  /** The run does not depend on whether polling was already on or on a stale error. */
  lemma StartResetsState(d: Option<Job>, p1: bool, e1: Option<string>, p2: bool, e2: Option<string>,
                         fetch: nat -> FetchResult, maxAttempts: int)
    ensures PollJobStatus(HookState(d, p1, e1), fetch, maxAttempts) == PollJobStatus(HookState(d, p2, e2), fetch, maxAttempts)
  {
  }
}
