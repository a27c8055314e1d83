/**
 * The legacy `Query.execute`: find the running instances of a job base name through the
 * `flink` command line and, when exactly one runs, run the queryable-state client jar against
 * it with `java`, handing back what that command printed.
 */
module LegacyQuery {
  import opened Wrappers
  import opened Collaborators
  import LegacyFlink
  import Decimal

  /** The settings of one query. */
  datatype Query = Query(
    jobNameBase: string,
    filename: string,
    mainClass: string,
    jobManagerRPCAddress: string,
    jobManagerRPCPort: int)

  function NotActive(jobNameBase: string): string {
    jobNameBase + " is not an active running job base name"
  }

  function TooManyInstances(jobNameBase: string, n: nat): string {
    jobNameBase + " has " + Decimal.FormatNat(n) + " instances running"
  }

  /** The `java` command that queries the state of the running job `jobId`. */
  function QueryCommand(q: Query, jobId: string): Command {
    Command("java", ["-cp", q.filename, q.mainClass, jobId, q.jobManagerRPCAddress,
                     Decimal.FormatInt(q.jobManagerRPCPort)])
  }

  /**
   * The query command names the jar, the main class, the job, the address and the port in
   * that order, and the port, written in decimal, reads back as itself.
   */
  lemma QueryCommandArguments(q: Query, jobId: string)
    requires Decimal.MinInt64 <= q.jobManagerRPCPort <= Decimal.MaxInt64
    ensures var c := QueryCommand(q, jobId);
            c.name == "java" && |c.args| == 6 && c.args[0] == "-cp" && c.args[1] == q.filename &&
            c.args[2] == q.mainClass && c.args[3] == jobId && c.args[4] == q.jobManagerRPCAddress &&
            Decimal.ParseInt64(c.args[5]) == Ok(q.jobManagerRPCPort)
  {
    Decimal.FormatParseRoundTrip(q.jobManagerRPCPort);
  }

  /** What `Query.execute` does: its output or error, and the commands it runs, in order. */
  function QueryRun(shell: Shell, q: Query): Traced<Result<string>> {
    var listed := [RunCommand(LegacyFlink.ListRunning)];
    match LegacyFlink.RunningJobIds(shell, q.jobNameBase)
    case Err(e) => Traced(Err(e), listed)
    case Ok(jobIds) =>
      if |jobIds| == 0 then Traced(Err(NotActive(q.jobNameBase)), listed)
      else if |jobIds| == 1 then
        var command := QueryCommand(q, jobIds[0]);
        Traced(shell.combinedOutput(command), listed + [RunCommand(command)])
      else Traced(Err(TooManyInstances(q.jobNameBase, |jobIds|)), listed)
  }

  /** `Query.execute` */
  method Execute(shell: Shell, q: Query) returns (r: Result<string>, calls: seq<Call>)
    ensures Traced(r, calls) == QueryRun(shell, q)
  {
    var jobIds, listing := LegacyFlink.RetrieveRunningJobIds(shell, q.jobNameBase);
    calls := listing;
    if jobIds.Err? {
      return Err(jobIds.error), calls;
    }
    LegacyFlink.SameIds(jobIds.value, LegacyFlink.RunningJobIds(shell, q.jobNameBase).value);
    if |jobIds.value| == 0 {
      return Err(NotActive(q.jobNameBase)), calls;
    } else if |jobIds.value| == 1 {
      var args := ["-cp", q.filename, q.mainClass, jobIds.value[0], q.jobManagerRPCAddress,
                   Decimal.FormatInt(q.jobManagerRPCPort)];
      calls := calls + [RunCommand(Command("java", args))];
      var out := shell.combinedOutput(Command("java", args));
      if out.Err? {
        return Err(out.error), calls;
      }
      return Ok(out.value), calls;
    } else {
      return Err(TooManyInstances(q.jobNameBase, |jobIds.value|)), calls;
    }
  }

  /**
   * `java` runs exactly when one instance of the base name is running, against that
   * instance, and the query returns what it printed or its error.
   */
  lemma QueryRunsJavaOnlyForTheOneInstance(shell: Shell, q: Query)
    ensures var run := QueryRun(shell, q);
            |run.calls| == 2 <==>
              LegacyFlink.RunningJobIds(shell, q.jobNameBase).Ok? &&
              |LegacyFlink.RunningJobIds(shell, q.jobNameBase).value| == 1
    ensures var run := QueryRun(shell, q);
            |run.calls| == 2 ==>
              var jobId := LegacyFlink.RunningJobIds(shell, q.jobNameBase).value[0];
              run.calls[1] == RunCommand(QueryCommand(q, jobId)) &&
              run.value == shell.combinedOutput(QueryCommand(q, jobId))
    ensures |QueryRun(shell, q).calls| >= 1 && QueryRun(shell, q).calls[0] == RunCommand(LegacyFlink.ListRunning)
  {
  }

  /** Every refusal names the base: no instance, or how many instances are running. */
  lemma QueryRefusals(shell: Shell, q: Query)
    requires LegacyFlink.RunningJobIds(shell, q.jobNameBase).Ok?
    ensures var n := |LegacyFlink.RunningJobIds(shell, q.jobNameBase).value|;
            (n == 0 ==> QueryRun(shell, q).value == Err(NotActive(q.jobNameBase))) &&
            (n >= 2 ==> QueryRun(shell, q).value == Err(TooManyInstances(q.jobNameBase, n)))
  {
  }

  /** A failing listing is returned as it is, and nothing else runs. */
  lemma QueryPassesListingFailureThrough(shell: Shell, q: Query)
    requires LegacyFlink.RunningJobIds(shell, q.jobNameBase).Err?
    ensures QueryRun(shell, q) ==
            Traced(Err(LegacyFlink.RunningJobIds(shell, q.jobNameBase).error), [RunCommand(LegacyFlink.ListRunning)])
  {
  }
}
