/**
 * `Update`: replace the running instance of a job by a new version that resumes from a fresh
 * savepoint. With exactly one running job whose name starts with the base name, the savepoint
 * is requested and polled until it is completed, the job is cancelled, and the newest savepoint
 * of the directory is handed to `Deploy`. With none, `Update` fails or, when asked to, falls
 * back to a plain deployment; with several it refuses.
 */
module UpdateOperation {
  import opened Wrappers
  import opened Strings
  import opened Collaborators
  import opened FileSystems
  import Decimal
  import Savepoints
  import opened DeployOperation

  /** The settings of one update. */
  datatype UpdateJob = UpdateJob(
    jobNameBase: string,
    localFilename: string,
    remoteFilename: string,
    apiToken: string,
    entryClass: string,
    parallelism: int,
    programArgs: seq<string>,
    savepointDir: string,
    allowNonRestoredState: bool,
    fallbackToDeploy: bool)

  /** `Update` waits this many seconds for the savepoint. */
  const SavepointWaitSeconds: nat := 60

  // ---------------------------------------------------------------------------
  // filterRunningJobsByName

  predicate IsRunningWithBase(job: Job, jobNameBase: string) {
    job.status == "RUNNING" && HasPrefix(job.name, jobNameBase)
  }

  /** The running jobs whose name starts with the base name, in listing order. */
  function RunningWithBase(jobs: seq<Job>, jobNameBase: string): seq<Job>
    decreases |jobs|
  {
    if jobs == [] then []
    else
      var last := jobs[|jobs| - 1];
      RunningWithBase(jobs[..|jobs| - 1], jobNameBase) + (if IsRunningWithBase(last, jobNameBase) then [last] else [])
  }

  /** `filterRunningJobsByName` */
  method FilterRunningJobsByName(jobs: seq<Job>, jobNameBase: string) returns (ret: seq<Job>)
    ensures ret == RunningWithBase(jobs, jobNameBase)
  {
    ret := [];
    for i := 0 to |jobs|
      invariant ret == RunningWithBase(jobs[..i], jobNameBase)
    {
      assert jobs[..i + 1][..i] == jobs[..i];
      if jobs[i].status == "RUNNING" && HasPrefix(jobs[i].name, jobNameBase) {
        ret := ret + [jobs[i]];
      }
    }
    assert jobs[..|jobs|] == jobs;
  }

  /** A job is kept exactly when it is running and its name starts with the base name. */
  lemma {:induction false} RunningWithBaseKeepsExactlyMatches(jobs: seq<Job>, jobNameBase: string)
    ensures forall job :: job in RunningWithBase(jobs, jobNameBase) <==> job in jobs && IsRunningWithBase(job, jobNameBase)
    decreases |jobs|
  {
    if jobs != [] {
      var front := jobs[..|jobs| - 1];
      RunningWithBaseKeepsExactlyMatches(front, jobNameBase);
      assert jobs == front + [jobs[|jobs| - 1]];
    }
  }

  /** Filtering a concatenation filters each part: the kept jobs stay in listing order. */
  lemma {:induction false} RunningWithBaseDistributes(a: seq<Job>, b: seq<Job>, jobNameBase: string)
    ensures RunningWithBase(a + b, jobNameBase) == RunningWithBase(a, jobNameBase) + RunningWithBase(b, jobNameBase)
    decreases |b|
  {
    if b == [] {
      assert a + b == a;
    } else {
      var front := b[..|b| - 1];
      RunningWithBaseDistributes(a, front, jobNameBase);
      assert (a + b)[..|a + b| - 1] == a + front;
    }
  }

  // ---------------------------------------------------------------------------
  // monitorSavepointCreation

  /** The n-th poll (counting from 0) reported the savepoint as completed. */
  predicate Completed(api: FlinkApi, jobId: string, requestId: string, attempt: nat) {
    api.monitorSavepointCreation(jobId, requestId, attempt) == Ok("COMPLETED")
  }

  /** The first poll from `k` up to `retries` that reports completion. */
  function FirstCompletedFrom(api: FlinkApi, jobId: string, requestId: string, k: nat, retries: nat): Option<nat>
    decreases retries - k
  {
    if k > retries then None
    else if Completed(api, jobId, requestId, k) then Some(k)
    else FirstCompletedFrom(api, jobId, requestId, k + 1, retries)
  }

  /** It is the first completed poll in range, and there is none when it is absent. */
  lemma {:induction false} FirstCompletedFromIsFirst(api: FlinkApi, jobId: string, requestId: string, k: nat, retries: nat)
    ensures var r := FirstCompletedFrom(api, jobId, requestId, k, retries);
            (r.Some? ==> k <= r.value <= retries && Completed(api, jobId, requestId, r.value) &&
                         forall j :: k <= j < r.value ==> !Completed(api, jobId, requestId, j)) &&
            (r.None? ==> forall j :: k <= j <= retries ==> !Completed(api, jobId, requestId, j))
    decreases retries - k
  {
    if k <= retries && !Completed(api, jobId, requestId, k) {
      FirstCompletedFromIsFirst(api, jobId, requestId, k + 1, retries);
    }
  }

  function Polls(jobId: string, requestId: string, n: nat): (calls: seq<Call>)
    ensures |calls| == n && forall c :: c in calls ==> c == Call.MonitorSavepointCreation(jobId, requestId)
  {
    seq(n, _ => Call.MonitorSavepointCreation(jobId, requestId))
  }

  function SavepointTimedOut(jobId: string, maxElapsedTime: nat): string {
    "failed to create savepoint for job \"" + jobId + "\" within " + Decimal.FormatInt(maxElapsedTime) + " seconds"
  }

  /**
   * What `monitorSavepointCreation` does when the back-off allows `retries` polls after the
   * first: it stops at the first poll reporting completion and fails once the polls run out.
   */
  function MonitorRun(api: FlinkApi, jobId: string, requestId: string, maxElapsedTime: nat, retries: nat): Traced<Outcome> {
    match FirstCompletedFrom(api, jobId, requestId, 0, retries)
    case Some(k) => Traced(Pass, Polls(jobId, requestId, k + 1))
    case None => Traced(Fail(SavepointTimedOut(jobId, maxElapsedTime)), Polls(jobId, requestId, retries + 1))
  }

  /**
   * `monitorSavepointCreation`. A poll that fails, reports the savepoint in progress or reports
   * any other status is retried until the back-off gives up.
   */
  method MonitorSavepointCreation(api: FlinkApi, jobId: string, requestId: string, maxElapsedTime: nat, retries: nat)
    returns (outcome: Outcome, calls: seq<Call>)
    ensures Traced(outcome, calls) == MonitorRun(api, jobId, requestId, maxElapsedTime, retries)
  {
    calls := [];
    var attempt: nat := 0;
    while true
      invariant attempt <= retries
      invariant calls == Polls(jobId, requestId, attempt)
      invariant FirstCompletedFrom(api, jobId, requestId, 0, retries) == FirstCompletedFrom(api, jobId, requestId, attempt, retries)
      decreases retries - attempt
    {
      var res := api.monitorSavepointCreation(jobId, requestId, attempt);
      calls := calls + [Call.MonitorSavepointCreation(jobId, requestId)];
      if res.Ok? && res.value == "COMPLETED" {
        return Pass, calls;
      }
      if attempt == retries {
        return Fail(SavepointTimedOut(jobId, maxElapsedTime)), calls;
      }
      attempt := attempt + 1;
    }
  }

  /** The monitor succeeds exactly when some allowed poll reports completion, and then stops there. */
  lemma MonitorSucceedsIffCompleted(api: FlinkApi, jobId: string, requestId: string, maxElapsedTime: nat, retries: nat)
    ensures var run := MonitorRun(api, jobId, requestId, maxElapsedTime, retries);
            (run.value == Pass <==> exists k :: 0 <= k <= retries && Completed(api, jobId, requestId, k)) &&
            (run.value == Pass ==> Completed(api, jobId, requestId, |run.calls| - 1) &&
                                   forall j :: 0 <= j < |run.calls| - 1 ==> !Completed(api, jobId, requestId, j)) &&
            (run.value != Pass ==> run.value == Fail(SavepointTimedOut(jobId, maxElapsedTime)) &&
                                   |run.calls| == retries + 1)
  {
    FirstCompletedFromIsFirst(api, jobId, requestId, 0, retries);
  }

  // ---------------------------------------------------------------------------
  // Update

  const MissingJobNameBase := "unspecified argument 'JobNameBase'"
  const MissingSavepointDir := "unspecified argument 'SavepointDir'"

  function RetrievingJobsFailed(e: string): string { "retrieving jobs failed: " + e }

  function NoInstanceRunning(jobNameBase: string): string {
    "no instance running for job name base \"" + jobNameBase + "\". Aborting update"
  }

  function TooManyInstances(jobNameBase: string, n: nat): string {
    "job name with base \"" + jobNameBase + "\" has " + Decimal.FormatInt(n) + " instances running. Aborting update"
  }

  function SavepointRequestFailed(jobId: string, e: string): string {
    "failed to create savepoint for job " + jobId + " due to error: " + e
  }

  function CancelFailed(jobId: string, e: string): string {
    "job \"" + jobId + "\" failed to cancel due to: " + e
  }

  /** The deployment an update starts from: the jar and run settings, and no savepoint. */
  function DeployFor(u: UpdateJob): (d: DeployJob)
    ensures d.savepointDir == "" && d.savepointPath == ""
  {
    DeployJob(u.remoteFilename, u.apiToken, u.localFilename, u.entryClass, u.parallelism,
              u.programArgs, "", "", u.allowNonRestoredState)
  }

  /** How the single-instance path ends before the deployment: an error, or the deployment to make. */
  datatype Preparation = Preparation(outcome: Outcome, calls: seq<Call>, deploy: DeployJob)

  /**
   * The single-instance path up to the deployment: request a savepoint, wait for it, cancel
   * the job, and locate the newest savepoint of the directory.
   */
  function PrepareReplacement(api: FlinkApi, fs: FileSystem, u: UpdateJob, jobId: string, retries: nat): Preparation {
    var create := [Call.CreateSavepoint(jobId, u.savepointDir)];
    match api.createSavepoint(jobId, u.savepointDir)
    case Err(e) => Preparation(Fail(SavepointRequestFailed(jobId, e)), create, DeployFor(u))
    case Ok(requestId) =>
      var monitor := MonitorRun(api, jobId, requestId, SavepointWaitSeconds, retries);
      if monitor.value.Fail? then Preparation(monitor.value, create + monitor.calls, DeployFor(u))
      else
        var cancel := create + monitor.calls + [Call.Terminate(jobId, "cancel")];
        match api.terminate(jobId, "cancel")
        case Fail(e) => Preparation(Fail(CancelFailed(jobId, e)), cancel, DeployFor(u))
        case Pass =>
          var lookup := cancel + [ReadDir(TrimTrailingSlash(u.savepointDir))];
          match Savepoints.LatestSavepoint(fs, u.savepointDir)
          case Err(e) => Preparation(Fail(SavepointLookupFailed(e)), lookup, DeployFor(u))
          case Ok(latest) => Preparation(Pass, lookup, DeployFor(u).(savepointPath := ResumePath(DeployFor(u), latest)))
  }

  /** The single-instance path of `Update`: the preparation, then the deployment it asks for. */
  method ReplaceRunningJob(api: FlinkApi, fs: FileSystem, u: UpdateJob, jobId: string, retries: nat)
    returns (outcome: Outcome, calls: seq<Call>, deploy: DeployJob)
    ensures Preparation(outcome, calls, deploy) == PrepareReplacement(api, fs, u, jobId, retries)
  {
    deploy := DeployFor(u);
    calls := [Call.CreateSavepoint(jobId, u.savepointDir)];
    var savepointResponse := api.createSavepoint(jobId, u.savepointDir);
    if savepointResponse.Err? {
      return Fail(SavepointRequestFailed(jobId, savepointResponse.error)), calls, deploy;
    }
    var monitored, polls := MonitorSavepointCreation(api, jobId, savepointResponse.value, SavepointWaitSeconds, retries);
    calls := calls + polls;
    if monitored.Fail? {
      return monitored, calls, deploy;
    }
    calls := calls + [Call.Terminate(jobId, "cancel")];
    var cancelled := api.terminate(jobId, "cancel");
    if cancelled.Fail? {
      return Fail(CancelFailed(jobId, cancelled.error)), calls, deploy;
    }
    calls := calls + [ReadDir(TrimTrailingSlash(u.savepointDir))];
    var latestSavepoint := Savepoints.RetrieveLatestSavepoint(fs, u.savepointDir);
    if latestSavepoint.Err? {
      return Fail(SavepointLookupFailed(latestSavepoint.error)), calls, deploy;
    }
    if |latestSavepoint.value| != 0 {
      deploy := deploy.(savepointPath := latestSavepoint.value);
    }
    return Pass, calls, deploy;
  }

  /** The deployment an update makes, if it gets that far, and the calls made before it. */
  function UpdatePlan(api: FlinkApi, fs: FileSystem, u: UpdateJob, retries: nat): Preparation {
    if |u.jobNameBase| == 0 then Preparation(Fail(MissingJobNameBase), [], DeployFor(u))
    else if |u.savepointDir| == 0 then Preparation(Fail(MissingSavepointDir), [], DeployFor(u))
    else
      match api.retrieveJobs
      case Err(e) => Preparation(Fail(RetrievingJobsFailed(e)), [RetrieveJobs], DeployFor(u))
      case Ok(jobs) =>
        var running := RunningWithBase(jobs, u.jobNameBase);
        if |running| == 0 then
          if !u.fallbackToDeploy then Preparation(Fail(NoInstanceRunning(u.jobNameBase)), [RetrieveJobs], DeployFor(u))
          else Preparation(Pass, [RetrieveJobs], DeployFor(u))
        else if |running| == 1 then
          var prep := PrepareReplacement(api, fs, u, running[0].id, retries);
          Preparation(prep.outcome, [RetrieveJobs] + prep.calls, prep.deploy)
        else Preparation(Fail(TooManyInstances(u.jobNameBase, |running|)), [RetrieveJobs], DeployFor(u))
  }

  /**
   * What `Update` does, when the back-off allows `retries` savepoint polls after the first:
   * its outcome and the calls it makes, in order.
   */
  function UpdateRun(api: FlinkApi, net: Network, fs: FileSystem, u: UpdateJob, retries: nat): Traced<Outcome> {
    var plan := UpdatePlan(api, fs, u, retries);
    if plan.outcome.Fail? then Traced(plan.outcome, plan.calls)
    else
      var deploy := DeployRun(api, net, fs, plan.deploy);
      Traced(deploy.value, plan.calls + deploy.calls)
  }

  /** `Update` */
  method Update(api: FlinkApi, net: Network, fs: FileSystem, u: UpdateJob, retries: nat) returns (outcome: Outcome, calls: seq<Call>)
    ensures Traced(outcome, calls) == UpdateRun(api, net, fs, u, retries)
  {
    var planned, deploy;
    planned, calls, deploy := PlanUpdate(api, fs, u, retries);
    if planned.Fail? {
      return planned, calls;
    }
    var deployed, deployCalls := Deploy(api, net, fs, deploy);
    return deployed, calls + deployCalls;
  }

  /** The part of `Update` before the deployment: the checks, the job listing and the replacement. */
  method PlanUpdate(api: FlinkApi, fs: FileSystem, u: UpdateJob, retries: nat)
    returns (outcome: Outcome, calls: seq<Call>, deploy: DeployJob)
    ensures Preparation(outcome, calls, deploy) == UpdatePlan(api, fs, u, retries)
  {
    deploy := DeployFor(u);
    calls := [];
    if |u.jobNameBase| == 0 {
      return Fail(MissingJobNameBase), calls, deploy;
    }
    if |u.savepointDir| == 0 {
      return Fail(MissingSavepointDir), calls, deploy;
    }
    calls := calls + [RetrieveJobs];
    var jobs := api.retrieveJobs;
    if jobs.Err? {
      return Fail(RetrievingJobsFailed(jobs.error)), calls, deploy;
    }
    var runningJobs := FilterRunningJobsByName(jobs.value, u.jobNameBase);
    if |runningJobs| == 0 {
      if !u.fallbackToDeploy {
        return Fail(NoInstanceRunning(u.jobNameBase)), calls, deploy;
      }
      return Pass, calls, deploy;
    } else if |runningJobs| == 1 {
      var prepared, prepCalls, replacement := ReplaceRunningJob(api, fs, u, runningJobs[0].id, retries);
      return prepared, calls + prepCalls, replacement;
    } else {
      return Fail(TooManyInstances(u.jobNameBase, |runningJobs|)), calls, deploy;
    }
  }

  /** The job name base is checked first, then the savepoint directory, before any call. */
  lemma UpdateValidatesFirst(api: FlinkApi, net: Network, fs: FileSystem, u: UpdateJob, retries: nat)
    ensures |u.jobNameBase| == 0 ==> UpdateRun(api, net, fs, u, retries) == Traced(Fail(MissingJobNameBase), [])
    ensures |u.jobNameBase| > 0 && |u.savepointDir| == 0 ==>
              UpdateRun(api, net, fs, u, retries) == Traced(Fail(MissingSavepointDir), [])
    ensures |u.jobNameBase| > 0 && |u.savepointDir| > 0 ==>
              |UpdateRun(api, net, fs, u, retries).calls| > 0 && UpdateRun(api, net, fs, u, retries).calls[0] == RetrieveJobs
  {
  }

  /** A failed job listing is reported with its cause and nothing else is called. */
  lemma UpdateReportsRetrieveJobsFailure(api: FlinkApi, net: Network, fs: FileSystem, u: UpdateJob, retries: nat)
    requires |u.jobNameBase| > 0 && |u.savepointDir| > 0 && api.retrieveJobs.Err?
    ensures UpdateRun(api, net, fs, u, retries) == Traced(Fail(RetrievingJobsFailed(api.retrieveJobs.error)), [RetrieveJobs])
  {
  }

  /**
   * Without a running instance the update fails, making no further call, unless it may fall
   * back to a deployment, which then starts from no savepoint at all.
   */
  lemma UpdateWithoutInstance(api: FlinkApi, net: Network, fs: FileSystem, u: UpdateJob, retries: nat)
    requires |u.jobNameBase| > 0 && |u.savepointDir| > 0 && api.retrieveJobs.Ok?
    requires |RunningWithBase(api.retrieveJobs.value, u.jobNameBase)| == 0
    ensures !u.fallbackToDeploy ==>
              UpdateRun(api, net, fs, u, retries) == Traced(Fail(NoInstanceRunning(u.jobNameBase)), [RetrieveJobs])
    ensures u.fallbackToDeploy ==>
              var deploy := DeployRun(api, net, fs, DeployFor(u));
              UpdateRun(api, net, fs, u, retries) == Traced(deploy.value, [RetrieveJobs] + deploy.calls) &&
              DeployFor(u).savepointDir == "" && DeployFor(u).savepointPath == ""
  {
  }

  /** With several running instances the update refuses, naming their number, and calls nothing else. */
  lemma UpdateRefusesSeveralInstances(api: FlinkApi, net: Network, fs: FileSystem, u: UpdateJob, retries: nat)
    requires |u.jobNameBase| > 0 && |u.savepointDir| > 0 && api.retrieveJobs.Ok?
    requires |RunningWithBase(api.retrieveJobs.value, u.jobNameBase)| >= 2
    ensures UpdateRun(api, net, fs, u, retries) ==
            Traced(Fail(TooManyInstances(u.jobNameBase, |RunningWithBase(api.retrieveJobs.value, u.jobNameBase)|)), [RetrieveJobs])
  {
  }

  /**
   * With one running instance whose savepoint completes, which is cancelled and whose savepoint
   * directory can be searched: the calls are the listing, the savepoint request, the polls, the
   * cancellation, the directory listing and the deployment, in that order, and the deployment
   * resumes from the newest savepoint and decides the outcome.
   */
  lemma UpdateReplacesTheInstance(api: FlinkApi, net: Network, fs: FileSystem, u: UpdateJob, retries: nat,
                                  requestId: string, latest: string)
    requires |u.jobNameBase| > 0 && |u.savepointDir| > 0 && api.retrieveJobs.Ok?
    requires |RunningWithBase(api.retrieveJobs.value, u.jobNameBase)| == 1
    requires var id := RunningWithBase(api.retrieveJobs.value, u.jobNameBase)[0].id;
             api.createSavepoint(id, u.savepointDir) == Ok(requestId) &&
             (exists k :: 0 <= k <= retries && Completed(api, id, requestId, k)) &&
             api.terminate(id, "cancel") == Pass
    requires Savepoints.LatestSavepoint(fs, u.savepointDir) == Ok(latest)
    ensures var id := RunningWithBase(api.retrieveJobs.value, u.jobNameBase)[0].id;
            var deploy := DeployRun(api, net, fs, DeployFor(u).(savepointPath := latest));
            UpdateRun(api, net, fs, u, retries) ==
              Traced(deploy.value,
                     [RetrieveJobs, Call.CreateSavepoint(id, u.savepointDir)] +
                     MonitorRun(api, id, requestId, SavepointWaitSeconds, retries).calls +
                     [Call.Terminate(id, "cancel"), ReadDir(TrimTrailingSlash(u.savepointDir))] +
                     deploy.calls)
  {
    var id := RunningWithBase(api.retrieveJobs.value, u.jobNameBase)[0].id;
    MonitorSucceedsIffCompleted(api, id, requestId, SavepointWaitSeconds, retries);
    assert ResumePath(DeployFor(u), latest) == latest;
  }

  /**
   * With one running instance the first failing step ends the update with its own message: a
   * refused savepoint, a savepoint that never completes, a failed cancellation, a failed
   * savepoint lookup.
   */
  lemma UpdateStopsAtFirstFailure(api: FlinkApi, net: Network, fs: FileSystem, u: UpdateJob, retries: nat)
    requires |u.jobNameBase| > 0 && |u.savepointDir| > 0 && api.retrieveJobs.Ok?
    requires |RunningWithBase(api.retrieveJobs.value, u.jobNameBase)| == 1
    ensures var id := RunningWithBase(api.retrieveJobs.value, u.jobNameBase)[0].id;
            var run := UpdateRun(api, net, fs, u, retries);
            var requested := api.createSavepoint(id, u.savepointDir);
            (requested.Err? ==>
               run == Traced(Fail(SavepointRequestFailed(id, requested.error)),
                             [RetrieveJobs, Call.CreateSavepoint(id, u.savepointDir)])) &&
            (requested.Ok? && (forall k :: 0 <= k <= retries ==> !Completed(api, id, requested.value, k)) ==>
               run.value == Fail(SavepointTimedOut(id, SavepointWaitSeconds)) &&
               run.calls == [RetrieveJobs, Call.CreateSavepoint(id, u.savepointDir)] + Polls(id, requested.value, retries + 1)) &&
            (requested.Ok? && (exists k :: 0 <= k <= retries && Completed(api, id, requested.value, k)) &&
             api.terminate(id, "cancel").Fail? ==>
               run.value == Fail(CancelFailed(id, api.terminate(id, "cancel").error))) &&
            (requested.Ok? && (exists k :: 0 <= k <= retries && Completed(api, id, requested.value, k)) &&
             api.terminate(id, "cancel").Pass? && Savepoints.LatestSavepoint(fs, u.savepointDir).Err? ==>
               run.value == Fail(SavepointLookupFailed(Savepoints.LatestSavepoint(fs, u.savepointDir).error)))
  {
    var id := RunningWithBase(api.retrieveJobs.value, u.jobNameBase)[0].id;
    var requested := api.createSavepoint(id, u.savepointDir);
    if requested.Ok? {
      MonitorSucceedsIffCompleted(api, id, requested.value, SavepointWaitSeconds, retries);
      FirstCompletedFromIsFirst(api, id, requested.value, 0, retries);
    }
  }

  /** The single-instance path cancels `jobId` only, and only once its savepoint has completed. */
  lemma PreparationCancelsOnlyAfterCompletedSavepoint(api: FlinkApi, fs: FileSystem, u: UpdateJob, jobId: string, retries: nat)
    ensures forall c :: c in PrepareReplacement(api, fs, u, jobId, retries).calls && c.Terminate? ==>
              c == Call.Terminate(jobId, "cancel") && api.createSavepoint(jobId, u.savepointDir).Ok? &&
              exists k :: 0 <= k <= retries && Completed(api, jobId, api.createSavepoint(jobId, u.savepointDir).value, k)
  {
    var requested := api.createSavepoint(jobId, u.savepointDir);
    if requested.Ok? {
      var monitor := MonitorRun(api, jobId, requested.value, SavepointWaitSeconds, retries);
      MonitorSucceedsIffCompleted(api, jobId, requested.value, SavepointWaitSeconds, retries);
      assert forall c :: c in monitor.calls ==> c.MonitorSavepointCreation?;
    }
  }

  /**
   * A job is cancelled only when it is the single running instance and one of the allowed
   * polls reported its savepoint completed: a failed or unfinished savepoint never cancels.
   */
  lemma UpdateCancelsOnlyAfterCompletedSavepoint(api: FlinkApi, net: Network, fs: FileSystem, u: UpdateJob, retries: nat)
    ensures forall c :: c in UpdateRun(api, net, fs, u, retries).calls && c.Terminate? ==>
              |u.jobNameBase| > 0 && |u.savepointDir| > 0 && api.retrieveJobs.Ok? &&
              (var running := RunningWithBase(api.retrieveJobs.value, u.jobNameBase);
               |running| == 1 && c == Call.Terminate(running[0].id, "cancel") &&
               api.createSavepoint(running[0].id, u.savepointDir).Ok? &&
               exists k :: 0 <= k <= retries &&
                 Completed(api, running[0].id, api.createSavepoint(running[0].id, u.savepointDir).value, k))
  {
    var plan := UpdatePlan(api, fs, u, retries);
    DeployCallsOnlyDeploySteps(api, net, fs, plan.deploy);
    assert forall c :: c in UpdateRun(api, net, fs, u, retries).calls && c.Terminate? ==> c in plan.calls;
    if |u.jobNameBase| > 0 && |u.savepointDir| > 0 && api.retrieveJobs.Ok? {
      var running := RunningWithBase(api.retrieveJobs.value, u.jobNameBase);
      if |running| == 1 {
        PreparationCancelsOnlyAfterCompletedSavepoint(api, fs, u, running[0].id, retries);
      }
    }
  }
}
