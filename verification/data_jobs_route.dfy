/**
 * `GET /api/basiq/data-jobs?jobId=...`: a proxy for one job resource. The id is checked
 * before the server token is requested; the upstream body is returned as it came.
 */
module DataJobsRoute {
  import opened Wrappers
  import opened Text
  import opened Json
  import opened Http

  const JobIdRequired := "Job ID is required"
  const JobsUrl := "https://au-api.basiq.io/jobs/"

  /** A usable job id: present, non-empty and not the text `"null"`. */
  predicate HasJobId(jobId: Option<string>) {
    Truthy(jobId) && jobId.value != "null"
  }

  /** The handler; `server` is the outcome of the server-token request, `upstream` the job fetch. */
  function Handle(jobId: Option<string>, server: Result<Json, string>, upstream: Upstream): (r: Outcome)
    ensures r.calls == [] <==> !HasJobId(jobId)
    ensures !HasJobId(jobId) ==> r.response == ErrorResponse(400, JobIdRequired)
    ensures HasJobId(jobId) && server.Failure? ==> r == Outcome(ErrorResponse(500, server.error), [ServerTokenCall])
    ensures HasJobId(jobId) && server.Success? ==> r.calls == [ServerTokenCall, FetchCall(JobsUrl + jobId.value, Show(server.value))]
    ensures r.response.status == 400 && r.calls != [] ==> upstream.Answered? && !upstream.ok && upstream.body.Success?
  {
    if !HasJobId(jobId) then Outcome(ErrorResponse(400, JobIdRequired), [])
    else
      match server
      case Failure(e) => Outcome(ErrorResponse(500, e), [ServerTokenCall])
      case Success(token) =>
        var calls := [ServerTokenCall, FetchCall(JobsUrl + jobId.value, Show(token))];
        match upstream
        case Threw(e) => Outcome(ErrorResponse(500, e), calls)
        case Answered(ok, status, parsed) =>
          match parsed
          case Failure(e) => Outcome(ErrorResponse(500, e), calls)
          case Success(data) =>
            if !ok then Outcome(Response(status, data), calls)
            else if data.JNull? then Outcome(ErrorResponse(500, NullRead("id")), calls)
            else Outcome(Response(200, data), calls)
  }

  /** Without a usable id the answer does not depend on the token or the upstream: nothing was asked. */
  lemma GuardFirst(jobId: Option<string>, s1: Result<Json, string>, u1: Upstream, s2: Result<Json, string>, u2: Upstream)
    requires !HasJobId(jobId)
    ensures Handle(jobId, s1, u1) == Handle(jobId, s2, u2)
  {
  }

  /**
   * Whatever the upstream status, a parsed body (other than an ok `null`) is returned
   * unchanged, with the upstream status when it is an error and 200 otherwise.
   */
  lemma PassThrough(jobId: Option<string>, token: Json, ok: bool, status: int, data: Json)
    requires HasJobId(jobId) && (!ok || !data.JNull?)
    ensures var r := Handle(jobId, Success(token), Answered(ok, status, Success(data)));
            r.response.body == data && r.response.status == (if ok then 200 else status)
  {
  }
}
