/** The in-memory registry of bulk CSV jobs (`JobManager`). Each method holds
    the registry lock for its whole body, so every call is one atomic,
    sequential update of a map from job id to job record. The clock
    (`time.time()`) and the fresh id (`uuid.uuid4()`) are parameters. */
module Jobs {
  import opened Wrappers
  import opened Text

  datatype JobStatus = Pending | Running | Completed | Failed

  /** Free-form metadata attached by the caller; its values are opaque here. */
  type Metadata = map<string, string>

  datatype Job = Job(
    id: string,
    jobType: string,
    status: JobStatus,
    totalRows: int,
    processedRows: int,
    successRows: int,
    errorRows: int,
    createdAt: real,
    startedAt: Option<real>,
    finishedAt: Option<real>,
    message: Option<string>,
    outputPath: Option<string>,
    outputFilename: Option<string>,
    errors: seq<string>,
    metadata: Metadata)

  type Registry = map<string, Job>

  /** Errors kept per job (`errors[-10:]`). */
  const MaxErrors: nat := 10

  /** What every job record keeps: the row counters add up, none is
      negative, and the error log is short. */
  predicate JobInvariant(j: Job) {
    && j.processedRows == j.successRows + j.errorRows
    && j.successRows >= 0 && j.errorRows >= 0
    && |j.errors| <= MaxErrors
  }

  /** Every record is filed under its own id and keeps its invariant. */
  predicate RegistryInvariant(jobs: Registry) {
    forall id :: id in jobs ==> jobs[id].id == id && JobInvariant(jobs[id])
  }

  /** Appending to the error log keeps only the most recent entries. */
  function AppendError(errors: seq<string>, detail: string): (r: seq<string>)
    ensures |r| == if |errors| < MaxErrors then |errors| + 1 else MaxErrors
    ensures r[|r| - 1] == detail
    ensures r == (errors + [detail])[|errors| + 1 - |r|..]
  {
    KeepLast(errors + [detail], MaxErrors)
  }

  /** Replaces the record of a known job; no other job changes. */
  function Put(jobs: Registry, id: string, job: Job): (r: Registry)
    requires id in jobs
    ensures r.Keys == jobs.Keys && r[id] == job
    ensures forall other :: other in jobs && other != id ==> r[other] == jobs[other]
    ensures RegistryInvariant(jobs) && job.id == id && JobInvariant(job) ==> RegistryInvariant(r)
  {
    jobs[id := job]
  }

  /** The record change `increment` makes to one job. */
  function CountRow(job: Job, success: bool, message: Option<string>, errorDetail: Option<string>): (j: Job)
    ensures j.processedRows == job.processedRows + 1
    ensures success ==> j.successRows == job.successRows + 1 && j.errorRows == job.errorRows
    ensures !success ==> j.errorRows == job.errorRows + 1 && j.successRows == job.successRows
    ensures j.errors != job.errors ==> !success && errorDetail.Some? && errorDetail.value != ""
    ensures !success && errorDetail.Some? && errorDetail.value != "" ==>
      j.errors == AppendError(job.errors, errorDetail.value)
    ensures j.message != job.message ==> message.Some? && message.value != ""
    ensures message.Some? && message.value != "" ==> j.message == message
    ensures j.id == job.id && j.status == job.status && j.totalRows == job.totalRows
    ensures j.metadata == job.metadata
    ensures j.jobType == job.jobType && j.createdAt == job.createdAt
    ensures j.startedAt == job.startedAt && j.finishedAt == job.finishedAt
    ensures j.outputPath == job.outputPath && j.outputFilename == job.outputFilename
    ensures JobInvariant(job) ==> JobInvariant(j)
  {
    var counted :=
      if success then job.(processedRows := job.processedRows + 1, successRows := job.successRows + 1)
      else job.(processedRows := job.processedRows + 1, errorRows := job.errorRows + 1);
    var logged :=
      if !success && errorDetail.Some? && errorDetail.value != ""
      then counted.(errors := AppendError(counted.errors, errorDetail.value))
      else counted;
    if message.Some? && message.value != "" then logged.(message := message) else logged
  }

  /** `create_job`: files a fresh pending job under `newId` and returns the id. */
  function CreateJob(jobs: Registry, newId: string, jobType: string, totalRows: int,
                     metadata: Option<Metadata>, now: real): (r: (Registry, string))
    ensures r.1 == newId && newId in r.0
    ensures r.0.Keys == jobs.Keys + {newId}
    ensures forall id :: id in jobs && id != newId ==> r.0[id] == jobs[id]
    ensures var j := r.0[newId];
      && j.id == newId && j.jobType == jobType && j.totalRows == totalRows
      && j.status == Pending && j.createdAt == now
      && j.processedRows == 0 && j.successRows == 0 && j.errorRows == 0
      && j.startedAt.None? && j.finishedAt.None? && j.message.None?
      && j.outputPath.None? && j.outputFilename.None?
      && j.errors == []
      && (metadata.None? ==> j.metadata == map[])
      && (metadata.Some? ==> j.metadata == metadata.value)
    ensures RegistryInvariant(jobs) ==> RegistryInvariant(r.0)
  {
    var job := Job(
      id := newId, jobType := jobType, status := Pending, totalRows := totalRows,
      processedRows := 0, successRows := 0, errorRows := 0,
      createdAt := now, startedAt := None, finishedAt := None, message := None,
      outputPath := None, outputFilename := None, errors := [],
      // `metadata or {}`: an empty dict and None both become a fresh `{}`
      metadata := metadata.GetOr(map[]));
    (jobs[newId := job], newId)
  }

  /** `start_job`: marks the job running and stamps its start time. */
  function StartJob(jobs: Registry, id: string, now: real): (r: Registry)
    ensures id !in jobs ==> r == jobs
    ensures r.Keys == jobs.Keys
    ensures forall other :: other in jobs && other != id ==> r[other] == jobs[other]
    ensures id in jobs ==> r[id] == jobs[id].(status := Running, startedAt := Some(now))
    ensures RegistryInvariant(jobs) ==> RegistryInvariant(r)
  {
    if id !in jobs then jobs else Put(jobs, id, jobs[id].(status := Running, startedAt := Some(now)))
  }

  /** `increment`: counts one processed row as a success or an error; logs a
      non-empty error detail of a failed row; replaces the message only when
      a non-empty one is given. */
  function Increment(jobs: Registry, id: string, success: bool,
                     message: Option<string>, errorDetail: Option<string>): (r: Registry)
    ensures id !in jobs ==> r == jobs
    ensures r.Keys == jobs.Keys
    ensures forall other :: other in jobs && other != id ==> r[other] == jobs[other]
    ensures id in jobs ==> r[id] == CountRow(jobs[id], success, message, errorDetail)
    ensures RegistryInvariant(jobs) ==> RegistryInvariant(r)
  {
    if id !in jobs then jobs else Put(jobs, id, CountRow(jobs[id], success, message, errorDetail))
  }

  /** `complete_job`: whatever the prior status, the job becomes completed
      with its finish time and output location. */
  function CompleteJob(jobs: Registry, id: string, outputPath: string, outputFilename: string,
                       now: real): (r: Registry)
    ensures id !in jobs ==> r == jobs
    ensures r.Keys == jobs.Keys
    ensures forall other :: other in jobs && other != id ==> r[other] == jobs[other]
    ensures id in jobs ==> r[id] == jobs[id].(status := Completed, finishedAt := Some(now),
                                             outputPath := Some(outputPath),
                                             outputFilename := Some(outputFilename))
    ensures RegistryInvariant(jobs) ==> RegistryInvariant(r)
  {
    if id !in jobs then jobs
    else
      Put(jobs, id, jobs[id].(status := Completed, finishedAt := Some(now),
                              outputPath := Some(outputPath), outputFilename := Some(outputFilename)))
  }

  /** The record change `fail_job` makes to one job: failed, finished now, the
      detail as its message and as the newest log entry; the counters stay. */
  function MarkFailed(job: Job, errorDetail: string, now: real): (j: Job)
    ensures j.status == Failed && j.finishedAt == Some(now)
    ensures j.message == Some(errorDetail)
    ensures j.errors == AppendError(job.errors, errorDetail)
    ensures j.processedRows == job.processedRows && j.successRows == job.successRows
    ensures j.errorRows == job.errorRows
    ensures j.id == job.id && j.totalRows == job.totalRows && j.metadata == job.metadata
    ensures j.jobType == job.jobType && j.createdAt == job.createdAt && j.startedAt == job.startedAt
    ensures j.outputPath == job.outputPath && j.outputFilename == job.outputFilename
    ensures JobInvariant(job) ==> JobInvariant(j)
  {
    job.(status := Failed, finishedAt := Some(now), message := Some(errorDetail),
         errors := AppendError(job.errors, errorDetail))
  }

  /** `fail_job`: whatever the prior status, the job becomes failed; the
      detail becomes the message and is logged (even when empty). */
  function FailJob(jobs: Registry, id: string, errorDetail: string, now: real): (r: Registry)
    ensures id !in jobs ==> r == jobs
    ensures r.Keys == jobs.Keys
    ensures forall other :: other in jobs && other != id ==> r[other] == jobs[other]
    ensures id in jobs ==> r[id] == MarkFailed(jobs[id], errorDetail, now)
    ensures RegistryInvariant(jobs) ==> RegistryInvariant(r)
  {
    if id !in jobs then jobs else Put(jobs, id, MarkFailed(jobs[id], errorDetail, now))
  }

  /** `get_job`: a copy of the record, or nothing for an unknown id. The
      registry is a value here, so reading it cannot change it. */
  function GetJob(jobs: Registry, id: string): (r: Option<Job>)
    ensures r.Some? <==> id in jobs
    ensures r.Some? ==> r.value == jobs[id]
  {
    if id in jobs then Some(jobs[id]) else None
  }

  /** A fresh id grows the registry by exactly one job. */
  lemma CreateFreshGrows(jobs: Registry, newId: string, jobType: string, totalRows: int,
                         metadata: Option<Metadata>, now: real)
    requires newId !in jobs
    ensures |CreateJob(jobs, newId, jobType, totalRows, metadata, now).0| == |jobs| + 1
  {
    var r := CreateJob(jobs, newId, jobType, totalRows, metadata, now).0;
    assert r.Keys == jobs.Keys + {newId};
  }

  /** Logging details one at a time keeps exactly the last ten of them, in order. */
  lemma {:induction false} AppendErrorsKeepsRecent(errors: seq<string>, details: seq<string>)
    requires |errors| <= MaxErrors
    ensures AppendErrors(errors, details) == KeepLast(errors + details, MaxErrors)
    decreases |details|
  {
    if |details| > 0 {
      var pre := errors + [details[0]];
      var e1 := AppendError(errors, details[0]);
      var m := |pre| - |e1|;
      assert e1 == pre[m..];
      AppendErrorsKeepsRecent(e1, details[1..]);
      var all := errors + details;
      assert all == pre + details[1..];
      assert e1 + details[1..] == all[m..];
      KeepLastOfSuffix(all, m);
    }
  }

  /** The error log after several appends, one detail at a time. */
  function AppendErrors(errors: seq<string>, details: seq<string>): seq<string>
    decreases |details|
  {
    if |details| == 0 then errors else AppendErrors(AppendError(errors, details[0]), details[1..])
  }

  /** Dropping a prefix that is outside the last ten does not change the last ten. */
  lemma KeepLastOfSuffix(s: seq<string>, k: nat)
    requires k <= |s|
    requires |s| - k >= MaxErrors || k == 0
    ensures KeepLast(s[k..], MaxErrors) == KeepLast(s, MaxErrors)
  {
  }
}
