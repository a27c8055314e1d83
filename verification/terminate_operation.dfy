/**
 * `Terminate`: stop or cancel a job through the REST API. The job name base is passed to the
 * API as the job id.
 */
module TerminateOperation {
  import opened Wrappers
  import opened Collaborators

  /** The settings of one termination. */
  datatype TerminateJob = TerminateJob(jobNameBase: string, mode: string)

  const MissingJobNameBase := "unspecified argument 'JobNameBase'"

  function TerminateFailed(jobNameBase: string, e: string): string {
    "job \"" + jobNameBase + "\" failed to terminate due to: " + e
  }

  /**
   * `Terminate`: an empty job name base is refused without a call; otherwise exactly one
   * terminate request is made, for the base as job id and with the mode unchanged, and its
   * failure is reported with the base and the cause.
   */
  function Terminate(api: FlinkApi, t: TerminateJob): (r: Traced<Outcome>)
    ensures |t.jobNameBase| == 0 ==> r == Traced(Fail(MissingJobNameBase), [])
    ensures |t.jobNameBase| > 0 ==> r.calls == [Call.Terminate(t.jobNameBase, t.mode)]
    ensures |t.jobNameBase| > 0 ==> (r.value == Pass <==> api.terminate(t.jobNameBase, t.mode) == Pass)
    ensures |t.jobNameBase| > 0 && api.terminate(t.jobNameBase, t.mode).Fail? ==>
              r.value == Fail(TerminateFailed(t.jobNameBase, api.terminate(t.jobNameBase, t.mode).error))
  {
    if |t.jobNameBase| == 0 then Traced(Fail(MissingJobNameBase), [])
    else
      match api.terminate(t.jobNameBase, t.mode)
      case Fail(e) => Traced(Fail(TerminateFailed(t.jobNameBase, e)), [Call.Terminate(t.jobNameBase, t.mode)])
      case Pass => Traced(Pass, [Call.Terminate(t.jobNameBase, t.mode)])
  }

  /** A termination makes at most one call, and whether it succeeds depends only on that call's answer. */
  lemma TerminateDependsOnlyOnItsCall(api1: FlinkApi, api2: FlinkApi, t: TerminateJob)
    requires |t.jobNameBase| > 0
    requires api1.terminate(t.jobNameBase, t.mode) == api2.terminate(t.jobNameBase, t.mode)
    ensures Terminate(api1, t) == Terminate(api2, t)
  {
  }
}
