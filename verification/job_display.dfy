/**
 * The status panel shown while a bank-data job runs: one display state derived from
 * the latest job, whether polling is active, and the poller's error message.
 */
module JobDisplay {
  import opened Wrappers
  import opened Text
  import opened Records

  datatype LoaderStatus = Loading | Failed | Succeeded | Polling | Idle

  datatype Display = Display(status: LoaderStatus, title: string, message: string, progress: real)

  const DefaultTitle := "Initializing Connection"
  const DefaultMessage := "Preparing to connect your financial data securely."
  const FailedTitle := "Connection Failed"
  const FailedMessage := "There was an issue connecting your bank account. Please try again."
  const SuccessTitle := "Connection Complete!"
  const SuccessMessage := "Your bank account is successfully connected, and your data is ready."
  const PollingTitle := "Connecting Bank Account"
  const PollingMessage := "We're securely connecting to your bank and fetching your financial data."
  const IdleTitle := "Awaiting Connection"
  const IdleMessage := "Waiting for bank connection to start."

  /** A step counts as completed only with status "success" (not "completed"). */
  predicate IsDone(s: Step) {
    s.status == "success"
  }

  predicate IsFailing(s: Step) {
    s.status == "failed" || s.status == "error"
  }

  /** `jobData?.steps || []`. */
  function StepsOf(jobData: Option<Job>): seq<Step> {
    if jobData.Some? then jobData.value.steps else []
  }

  function CountDone(steps: seq<Step>): (n: nat)
    ensures n <= |steps|
    ensures n == 0 <==> forall i :: 0 <= i < |steps| ==> !IsDone(steps[i])
    ensures n == |steps| <==> forall i :: 0 <= i < |steps| ==> IsDone(steps[i])
  {
    if |steps| == 0 then 0
    else
      var n := CountDone(steps[..|steps| - 1]) + (if IsDone(steps[|steps| - 1]) then 1 else 0);
      assert forall i :: 0 <= i < |steps| - 1 ==> steps[..|steps| - 1][i] == steps[i];
      n
  }

  /** Completed steps as a percentage of all steps; 0 when there are none. */
  function Progress(steps: seq<Step>): (p: real)
    ensures 0.0 <= p <= 100.0
    ensures p == 0.0 <==> forall i :: 0 <= i < |steps| ==> !IsDone(steps[i])
    ensures p == 100.0 <==> |steps| > 0 && forall i :: 0 <= i < |steps| ==> IsDone(steps[i])
  {
    if |steps| > 0 then
      Percentage(CountDone(steps), |steps|);
      (CountDone(steps) as real / |steps| as real) * 100.0
    else 0.0
  }

  /** A share of `n` as a percentage lies in [0, 100], and is 0 or 100 exactly for none or all of it. */
  lemma Percentage(c: int, n: int)
    requires 0 <= c <= n && n > 0
    ensures var p := (c as real / n as real) * 100.0;
            0.0 <= p <= 100.0 && (p == 0.0 <==> c == 0) && (p == 100.0 <==> c == n)
  {
    var q := c as real / n as real;
    assert q * n as real == c as real;
    assert 0.0 <= q;
    assert q <= 1.0;
    assert q == 1.0 <==> c == n;
  }

  /** `steps.find(failing)`: the first failing step, if any. */
  function FirstFailing(steps: seq<Step>): (r: Option<Step>)
    ensures r.None? <==> forall i :: 0 <= i < |steps| ==> !IsFailing(steps[i])
    ensures r.Some? ==> exists i :: 0 <= i < |steps| && steps[i] == r.value && IsFailing(steps[i]) &&
                          forall j :: 0 <= j < i ==> !IsFailing(steps[j])
  {
    if |steps| == 0 then None
    else if IsFailing(steps[0]) then Some(steps[0])
    else
      var r := FirstFailing(steps[1..]);
      assert forall i :: 1 <= i < |steps| ==> steps[i] == steps[1..][i - 1];
      if r.Some? then
        var i :| 0 <= i < |steps[1..]| && steps[1..][i] == r.value && IsFailing(steps[1..][i]) &&
                 forall j :: 0 <= j < i ==> !IsFailing(steps[1..][j]);
        assert steps[i + 1] == r.value;
        r
      else r
  }

  /** `failedStep?.result?.title`. */
  function ResultTitle(s: Option<Step>): Option<string> {
    if s.Some? && s.value.result.Some? then s.value.result.value.title else None
  }

  /** `failedStep?.result?.detail`. */
  function ResultDetail(s: Option<Step>): Option<string> {
    if s.Some? && s.value.result.Some? then s.value.result.value.detail else None
  }

  /** `failedStep?.title`. */
  function StepTitle(s: Option<Step>): Option<string> {
    if s.Some? then Some(s.value.title) else None
  }

  predicate ErrorShown(steps: seq<Step>, jobError: Option<string>) {
    Truthy(jobError) || exists i :: 0 <= i < |steps| && IsFailing(steps[i])
  }

  predicate LastStepDone(steps: seq<Step>) {
    |steps| > 0 && IsDone(steps[|steps| - 1])
  }

  /**
   * The panel's status, title, message and progress. First match wins: an error
   * (polling error or any failing step), then success (last step done and polling
   * stopped), then polling, then idle (no job yet), else the initial loading state.
   */
  function Derive(jobData: Option<Job>, isPolling: bool, jobError: Option<string>): (d: Display)
    ensures d.progress == Progress(StepsOf(jobData))
    ensures d.status == Failed <==> ErrorShown(StepsOf(jobData), jobError)
    ensures d.status == Succeeded <==>
              !ErrorShown(StepsOf(jobData), jobError) && LastStepDone(StepsOf(jobData)) && !isPolling
    ensures d.status == Polling <==> !ErrorShown(StepsOf(jobData), jobError) && isPolling
    ensures d.status == Idle <==>
              !ErrorShown(StepsOf(jobData), jobError) && !isPolling && jobData.None?
    ensures d.status == Loading <==>
              !ErrorShown(StepsOf(jobData), jobError) && !isPolling && jobData.Some? && !LastStepDone(StepsOf(jobData))
    ensures d.status == Loading ==> d.title == DefaultTitle && d.message == DefaultMessage
    ensures d.status == Failed ==>
              var f := FirstFailing(StepsOf(jobData));
              d.title == OrElse(ResultTitle(f), OrElse(StepTitle(f), FailedTitle)) &&
              d.message == OrElse(jobError, OrElse(ResultDetail(f), FailedMessage))
  {
    var steps := StepsOf(jobData);
    var progress := Progress(steps);
    var failed := FirstFailing(steps);
    if Truthy(jobError) || failed.Some? then
      Display(Failed, OrElse(ResultTitle(failed), OrElse(StepTitle(failed), FailedTitle)),
              OrElse(jobError, OrElse(ResultDetail(failed), FailedMessage)), progress)
    else if |steps| > 0 && IsDone(steps[|steps| - 1]) && !isPolling then
      Display(Succeeded, SuccessTitle, SuccessMessage, progress)
    else if isPolling then
      Display(Polling, PollingTitle, PollingMessage, progress)
    else if jobData.None? then
      Display(Idle, IdleTitle, IdleMessage, progress)
    else
      Display(Loading, DefaultTitle, DefaultMessage, progress)
  }

  /** A failing step forces the error state, whatever the other steps say and whether or not polling continues. */
  lemma FailurePrecedence(job: Job, isPolling: bool, jobError: Option<string>, i: int)
    requires 0 <= i < |job.steps| && IsFailing(job.steps[i])
    ensures Derive(Some(job), isPolling, jobError).status == Failed
    ensures Truthy(jobError) ==> Derive(Some(job), isPolling, jobError).message == jobError.value
  {
  }

  /** Every step succeeded and polling has stopped: success at 100 percent. */
  lemma AllDoneIsSuccess(job: Job, jobError: Option<string>)
    requires |job.steps| > 0 && forall i :: 0 <= i < |job.steps| ==> IsDone(job.steps[i])
    requires !Truthy(jobError)
    ensures Derive(Some(job), false, jobError).status == Succeeded
    ensures Derive(Some(job), false, jobError).progress == 100.0
  {
    assert !IsFailing(job.steps[0]);
  }

  /**
   * Example: only the last step is inspected for success, so a job whose earlier step is
   * still pending shows success. `Derive`'s contract states the general rule.
   */
  lemma SuccessIgnoresEarlierSteps()
    ensures var job := Job("j", "active", [Step("a", "Verify", "pending", None), Step("b", "Fetch", "success", None)],
                           None, [], None, None);
            var d := Derive(Some(job), false, None);
            d.status == Succeeded && d.progress == 50.0
  {
    var job := Job("j", "active", [Step("a", "Verify", "pending", None), Step("b", "Fetch", "success", None)],
                   None, [], None, None);
    assert !IsFailing(job.steps[0]) && !IsFailing(job.steps[1]);
    assert CountDone(job.steps) == 1;
  }

  /**
   * Example: a failed step's result detail is the message when no polling error is set.
   * `Derive`'s contract states the general title and message chains.
   */
  lemma FailedStepDetailScenario()
    ensures var job := Job("j2", "", [Step("a", "Verify", "success", None),
                                       Step("b", "Fetch", "failed", Some(StepResult(None, Some("bank auth expired"))))],
                           None, [], None, None);
            var d := Derive(Some(job), false, None);
            d.status == Failed && d.message == "bank auth expired" && d.title == "Fetch"
  {
    var job := Job("j2", "", [Step("a", "Verify", "success", None),
                               Step("b", "Fetch", "failed", Some(StepResult(None, Some("bank auth expired"))))],
                   None, [], None, None);
    assert IsFailing(job.steps[1]) && !IsFailing(job.steps[0]);
    assert FirstFailing(job.steps) == Some(job.steps[1]);
  }

  datatype StepClass = CompletedClass | ActiveClass | FailedClass | PendingClass

  /** `getStepStatusClass`: the visual class of a step's status string. */
  function StepStatusClass(status: string): (c: StepClass)
    ensures c == CompletedClass <==> status == "success" || status == "completed"
    ensures c == ActiveClass <==> status == "active" || status == "in-progress"
    ensures c == FailedClass <==> status == "failed" || status == "error"
  {
    match status
    case "success" => CompletedClass
    case "completed" => CompletedClass
    case "active" => ActiveClass
    case "in-progress" => ActiveClass
    case "failed" => FailedClass
    case "error" => FailedClass
    case _ => PendingClass
  }

  /** The step icon marks exactly the failing steps as failed, while progress counts only "success" as done. */
  lemma StepClassAgreesWithFailure(s: Step)
    ensures StepStatusClass(s.status) == FailedClass <==> IsFailing(s)
    ensures IsDone(s) ==> StepStatusClass(s.status) == CompletedClass
  {
  }
}
