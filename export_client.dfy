/**
 * The CSV export-job client: creating a job, polling it until it settles (a deadline check
 * before every poll, a growing backoff between polls) and downloading its CSV, first without
 * and then with credentials. HTTP exchanges are oracles: each gives back what the server said.
 */
module ExportClient {
  import opened Wrappers
  import opened Text
  import opened Clock
  import opened CsvTable

  const JobTypeTransactionsCsv := "TRANSACTIONS_CSV"
  const JobTypeClientsCsv := "CLIENT_CSV"

  /** The two job statuses that end a wait. */
  const StatusDone := "DONE"
  const StatusFailed := "FAILED"

  /** The separator the error messages put between a status line and a response body. */
  const Dash := " \U{2014} "

  /** The JSON body of a create request. */
  datatype ExportRequest = ExportRequest(jobType: string, startFilter: string, finishFilter: string, filterExpression: string)

  /** The job as the server reports it. */
  datatype ExportResponse = ExportResponse(
    jobId: string, jobType: string, jobStatus: string,
    startFilter: string, finishFilter: string, filterExpression: string,
    tempCsvExternalUrl: Option<string>, failureReason: Option<string>)

  /**
   * One HTTP exchange with the export API: no response at all, or a status code, status
   * line and body together with what decoding that body as a job yields.
   */
  datatype Reply =
    | Unanswered(err: string)
    | Answered(code: int, status: string, body: string, decoded: Result<ExportResponse>)

  /** One GET of the CSV URL: no response, or a status, a body and the outcome of saving it. */
  datatype Download =
    | NotFetched(err: string)
    | Fetched(code: int, status: string, body: string, saved: Result<CsvFile>)

  /** The export API as the sync flows see it: one oracle per kind of request. */
  datatype ExportApi = ExportApi(
    create: (string, ExportRequest) -> Reply,  // branch id and payload of a create request
    poll: (string, nat) -> Reply,              // job id and poll number
    took: (string, nat) -> nat,                // milliseconds the poll with that number took
    fetch: (string, bool) -> Download)         // URL, and whether credentials were sent

  predicate Is2xx(code: int) { 200 <= code < 300 }

  /**
   * CreateCSVExport: the payload echoes the given job type and filters; a transport error,
   * a non-2xx status or an undecodable body is an error, and otherwise the decoded job is
   * returned.
   */
  function CreateCSVExport(branchId: string, jobType: string, filterExpression: string,
                           startFilter: string, finishFilter: string,
                           create: (string, ExportRequest) -> Reply): (r: Result<ExportResponse>)
    ensures var reply := create(branchId, ExportRequest(jobType, startFilter, finishFilter, filterExpression));
      (r.Ok? <==> reply.Answered? && Is2xx(reply.code) && reply.decoded.Ok?) &&
      (r.Ok? ==> r.value == reply.decoded.value)
  {
    var reply := create(branchId, ExportRequest(jobType, startFilter, finishFilter, filterExpression));
    match reply
    case Unanswered(e) => Err("create export job: " + e)
    case Answered(code, status, body, decoded) =>
      if !Is2xx(code) then Err("CSV export create failed: " + status + Dash + body)
      else match decoded
        case Err(e) => Err("decode create response: " + e + Dash + "body=" + body)
        case Ok(job) => Ok(job)
  }

  /** What WaitForCSVJob hands back: Go's (*ExportResponse, error) pair. */
  datatype JobResult = JobResult(job: Option<ExportResponse>, err: Option<string>)

  /** A poll that leaves the job pending: a decoded 2xx reply whose status is neither DONE nor FAILED. */
  predicate Pending(reply: Reply) {
    reply.Answered? && Is2xx(reply.code) && reply.decoded.Ok? &&
    reply.decoded.value.jobStatus != StatusDone && reply.decoded.value.jobStatus != StatusFailed
  }

  /** What the wait returns after a poll that settled the job. */
  function Settled(jobId: string, reply: Reply): JobResult
    requires !Pending(reply)
  {
    match reply
    case Unanswered(e) => JobResult(None, Some("poll failed: " + e))
    case Answered(code, status, body, decoded) =>
      if !Is2xx(code) then JobResult(None, Some("poll non-2xx: " + status + Dash + body))
      else match decoded
        case Err(e) => JobResult(None, Some("decode poll: " + e + Dash + "body=" + body))
        case Ok(out) =>
          if out.jobStatus == StatusDone then JobResult(Some(out), None)
          else if out.failureReason.Some? && out.failureReason.value != "" then
            JobResult(Some(out), Some("CSV job FAILED: " + jobId + Dash + "reason: " + out.failureReason.value))
          else JobResult(Some(out), Some("CSV job FAILED: " + jobId))
  }

  /**
   * What a settling poll means: a job comes back exactly when the exchange itself succeeded,
   * and is the decoded one; only DONE comes back without an error; and a FAILED job's error
   * ends with its reason when that reason is non-empty.
   */
  lemma SettledMeaning(jobId: string, reply: Reply)
    requires !Pending(reply)
    ensures var v := Settled(jobId, reply);
      (v.job.Some? <==> reply.Answered? && Is2xx(reply.code) && reply.decoded.Ok?) &&
      (v.job.Some? ==> v.job.value == reply.decoded.value) &&
      (v.err.None? <==> v.job.Some? && v.job.value.jobStatus == StatusDone) &&
      (v.job.Some? && v.err.Some? ==> v.job.value.jobStatus == StatusFailed) &&
      (v.job.Some? && v.job.value.jobStatus == StatusFailed && v.job.value.failureReason.Some? &&
       v.job.value.failureReason.value != ""
       ==> EndsWith(v.err.value, v.job.value.failureReason.value))
  {
    if reply.Answered? && Is2xx(reply.code) && reply.decoded.Ok? {
      var out := reply.decoded.value;
      if out.jobStatus == StatusFailed && out.failureReason.Some? && out.failureReason.value != "" {
        var msg := "CSV job FAILED: " + jobId + Dash + "reason: " + out.failureReason.value;
        assert msg[|msg| - |out.failureReason.value|..] == out.failureReason.value;
      }
    }
  }

  /** The sleep after the k-th pending poll, in milliseconds: 2, 4, 6, 8 seconds, then 10 seconds for good. */
  function Backoff(k: nat): (d: nat)
    ensures 2000 <= d <= 10000
  {
    if k < 4 then 2000 * (k + 1) else 10000
  }

  /** The loop's update of backoff (add two seconds while under ten) produces the schedule. */
  lemma BackoffStep(k: nat)
    ensures Backoff(0) == 2000
    ensures Backoff(k + 1) == if Backoff(k) < 10000 then Backoff(k) + 2000 else Backoff(k)
  {
  }

  /**
   * The clock at the k-th deadline check: the wait started at `start`, and between two checks
   * the clock moves by the time the poll took plus the backoff slept after it.
   */
  function CheckTime(start: Time, took: nat -> nat, k: nat): Time {
    if k == 0 then start else CheckTime(start, took, k - 1) + took(k - 1) + Backoff(k - 1)
  }

  /** Every check comes at least two seconds after the one before it. */
  lemma {:induction false} CheckTimeGrows(start: Time, took: nat -> nat, k: nat)
    ensures CheckTime(start, took, k) >= start + 2000 * k
  {
    if k > 0 {
      CheckTimeGrows(start, took, k - 1);
    }
  }

  /** The poll and timing oracles of one job. */
  function PollsOf(api: ExportApi, jobId: string): nat -> Reply {
    (k: nat) => api.poll(jobId, k)
  }

  function TimingsOf(api: ExportApi, jobId: string): nat -> nat {
    (k: nat) => api.took(jobId, k)
  }

  /** The wait's result when the deadline passes with the job still pending. */
  function TimedOut(jobId: string): JobResult {
    JobResult(None, Some("timeout waiting for job " + jobId))
  }

  /**
   * What the wait returns once it reaches its k-th deadline check: a timeout if the check is
   * past the deadline, otherwise the k-th poll's result, or the next check if it is pending.
   */
  function WaitFrom(jobId: string, start: Time, maxWait: int, poll: nat -> Reply, took: nat -> nat, k: nat): JobResult
    decreases start + maxWait - CheckTime(start, took, k)
  {
    if CheckTime(start, took, k) > start + maxWait then TimedOut(jobId)
    else if Pending(poll(k)) then WaitFrom(jobId, start, maxWait, poll, took, k + 1)
    else Settled(jobId, poll(k))
  }

  /**
   * The wait's result: no error exactly when a poll saw DONE, and then the job is that poll's;
   * a job comes back with an error only when a poll saw FAILED.
   */
  lemma {:induction false} WaitFromSettles(jobId: string, start: Time, maxWait: int, poll: nat -> Reply, took: nat -> nat, k: nat)
    ensures var r := WaitFrom(jobId, start, maxWait, poll, took, k);
      (r.err.None? ==> r.job.Some? && r.job.value.jobStatus == StatusDone) &&
      (r.job.Some? && r.err.Some? ==> r.job.value.jobStatus == StatusFailed)
    decreases start + maxWait - CheckTime(start, took, k)
  {
    if CheckTime(start, took, k) <= start + maxWait {
      if Pending(poll(k)) {
        WaitFromSettles(jobId, start, maxWait, poll, took, k + 1);
      } else {
        SettledMeaning(jobId, poll(k));
      }
    }
  }

  /**
   * WaitForCSVJob. It polls while the deadline start + maxWait has not passed at the check
   * before the poll, returns the result of the first poll that settles the job, and sleeps
   * Backoff(i) after the i-th poll when that poll left it pending. n is the number of polls
   * made and slept the sleeps taken; a timeout happens only at a check past the deadline,
   * after every poll was pending.
   */
  method WaitForCSVJob(jobId: string, start: Time, maxWait: int, poll: nat -> Reply, took: nat -> nat)
    returns (r: JobResult, n: nat, slept: seq<nat>)
    ensures r == WaitFrom(jobId, start, maxWait, poll, took, 0)
    ensures forall i :: 0 <= i < n ==> CheckTime(start, took, i) <= start + maxWait
    ensures |slept| <= n
    ensures forall i :: 0 <= i < |slept| ==> slept[i] == Backoff(i)
    ensures forall i :: 0 <= i < |slept| ==> Pending(poll(i))
    ensures |slept| == n ==> CheckTime(start, took, n) > start + maxWait && r == TimedOut(jobId)
    ensures |slept| < n ==> |slept| == n - 1 && !Pending(poll(n - 1)) && r == Settled(jobId, poll(n - 1))
    ensures n > 0 ==> 2000 * (n - 1) <= maxWait
  {
    var deadline := start + maxWait;
    var now := start;
    var backoff := 2000;
    n, slept := 0, [];
    while now <= deadline
      invariant now == CheckTime(start, took, n)
      invariant backoff == Backoff(n)
      invariant AllPending(jobId, start, maxWait, poll, took, slept)
      invariant |slept| == n
      invariant WaitFrom(jobId, start, maxWait, poll, took, 0) == WaitFrom(jobId, start, maxWait, poll, took, n)
      decreases deadline - now
    {
      if !Pending(poll(n)) {
        r, n := Settled(jobId, poll(n)), n + 1;
        CheckTimeGrows(start, took, n - 1);
        return;
      }
      PendingStep(jobId, start, maxWait, poll, took, slept);
      WaitFromPending(jobId, start, maxWait, poll, took, n);
      now := now + took(n) + backoff;
      slept := slept + [backoff];
      if backoff < 10000 {
        backoff := backoff + 2000;
      }
      n := n + 1;
    }
    r := TimedOut(jobId);
    if n > 0 {
      CheckTimeGrows(start, took, n - 1);
    }
  }

  /** A pending poll within the deadline passes the wait on to the next check. */
  lemma WaitFromPending(jobId: string, start: Time, maxWait: int, poll: nat -> Reply, took: nat -> nat, k: nat)
    requires CheckTime(start, took, k) <= start + maxWait && Pending(poll(k))
    ensures WaitFrom(jobId, start, maxWait, poll, took, k) == WaitFrom(jobId, start, maxWait, poll, took, k + 1)
  {
  }

  /**
   * The state of the wait after |slept| pending polls: each was made at a check within the
   * deadline and was followed by the scheduled sleep.
   */
  ghost predicate AllPending(jobId: string, start: Time, maxWait: int, poll: nat -> Reply, took: nat -> nat, slept: seq<nat>) {
    (forall i :: 0 <= i < |slept| ==> slept[i] == Backoff(i)) &&
    (forall i :: 0 <= i < |slept| ==> Pending(poll(i))) &&
    (forall i :: 0 <= i < |slept| ==> CheckTime(start, took, i) <= start + maxWait)
  }

  /** One more pending poll within the deadline extends the state by its sleep. */
  lemma PendingStep(jobId: string, start: Time, maxWait: int, poll: nat -> Reply, took: nat -> nat, slept: seq<nat>)
    requires AllPending(jobId, start, maxWait, poll, took, slept)
    requires CheckTime(start, took, |slept|) <= start + maxWait && Pending(poll(|slept|))
    ensures AllPending(jobId, start, maxWait, poll, took, slept + [Backoff(|slept|)])
  {
    var n := |slept|;
    var more := slept + [Backoff(n)];
    forall i | 0 <= i < n + 1
      ensures more[i] == Backoff(i)
    {
      if i < n {
        assert more[i] == slept[i];
      }
    }
  }

  /** tryDownload: a transport error, a non-2xx status or a failed save is an error. */
  function TryDownload(d: Download): (r: Result<CsvFile>)
    ensures r.Ok? <==> d.Fetched? && Is2xx(d.code) && d.saved.Ok?
    ensures r.Ok? ==> r.value == d.saved.value
  {
    match d
    case NotFetched(e) => Err(e)
    case Fetched(code, status, body, saved) =>
      if !Is2xx(code) then Err("download non-2xx: " + status + Dash + body) else saved
  }

  /** What DownloadCSV leaves: the first attempt if it succeeded, otherwise the second. */
  function Downloaded(url: string, fetch: (string, bool) -> Download): (r: Result<CsvFile>)
    ensures r.Ok? <==> TryDownload(fetch(url, false)).Ok? || TryDownload(fetch(url, true)).Ok?
  {
    var first := TryDownload(fetch(url, false));
    if first.Ok? then first else TryDownload(fetch(url, true))
  }

  /**
   * DownloadCSV: an unauthenticated attempt, then an authenticated one only if the first
   * failed; the result is the last attempt's. attempts lists the credential flag of each try.
   */
  method DownloadCSV(url: string, fetch: (string, bool) -> Download) returns (r: Result<CsvFile>, attempts: seq<bool>)
    ensures attempts == if TryDownload(fetch(url, false)).Ok? then [false] else [false, true]
    ensures r == TryDownload(fetch(url, attempts[|attempts| - 1]))
    ensures r.Err? ==> TryDownload(fetch(url, false)).Err? && TryDownload(fetch(url, true)).Err?
    ensures r == Downloaded(url, fetch)
  {
    r := TryDownload(fetch(url, false));
    attempts := [false];
    if r.Ok? {
      return;
    }
    r := TryDownload(fetch(url, true));
    attempts := attempts + [true];
  }
}
