/**
 * The command-line actions of the current generation: each checks its flags, fills in the
 * settings of one operation step by step, hands them to the operator and reports its error.
 */
module Cli {
  import opened Wrappers
  import opened Collaborators
  import opened FileSystems
  import Decimal
  import DeployOperation
  import UpdateOperation
  import TerminateOperation

  /** The flag values of one command line; a flag that is not given reads as empty, 0 or false. */
  datatype Flags = Flags(
    jobNameBase: string,
    fileName: string,
    remoteFileName: string,
    apiToken: string,
    entryClass: string,
    parallelism: int,
    programArgs: seq<string>,
    savepointDir: string,
    savepointPath: string,
    allowNonRestoredState: bool,
    fallbackToDeploy: bool,
    mode: string)

  /** The operator the actions hand their settings to, as its answer to every request. */
  datatype Operator = Operator(
    deploy: DeployOperation.DeployJob -> Outcome,
    update: UpdateOperation.UpdateJob -> Outcome,
    terminate: TerminateOperation.TerminateJob -> Outcome)

  const FileFlagsUnspecified := "both flags 'file-name' and 'remote-file-name' unspecified"
  const FileFlagsBoth := "both flags 'file-name' and 'remote-file-name' specified, only one allowed"
  const SavepointFlagsBoth := "both flags 'savepoint-dir' and 'savepoint-path' specified, only one allowed"
  const JobNameBaseFlagUnspecified := "unspecified flag 'job-name-base'"
  const SavepointDirFlagUnspecified := "unspecified flag 'savepoint-dir'"
  const UnknownMode := "unknown value for 'mode', only 'cancel' and 'stop' are supported"

  /** How an action reports what the operator returned. */
  function Reported(o: Outcome): (r: Outcome)
    ensures r.Pass? <==> o.Pass?
    ensures o.Fail? ==> r.error == "an error occurred: " + o.error
  {
    match o
    case Pass => Pass
    case Fail(e) => Fail("an error occurred: " + e)
  }

  /** Exactly one of the two file-name flags is given. */
  predicate OneFileFlag(c: Flags) {
    (|c.fileName| > 0) != (|c.remoteFileName| > 0)
  }

  /** A parallelism of 0 means "not given" and becomes 1. */
  function Parallelism(flag: int): (p: int)
    ensures p != 0
    ensures flag == 0 ==> p == 1
    ensures flag != 0 ==> p == flag
  {
    if flag != 0 then flag else 1
  }

  /** `DeployAction` */
  method DeployAction(c: Flags, operator: Operator) returns (outcome: Outcome, submitted: Option<DeployOperation.DeployJob>)
    ensures |c.fileName| == 0 && |c.remoteFileName| == 0 ==> outcome == Fail(FileFlagsUnspecified) && submitted == None
    ensures |c.fileName| > 0 && |c.remoteFileName| > 0 ==> outcome == Fail(FileFlagsBoth) && submitted == None
    ensures OneFileFlag(c) && |c.savepointDir| > 0 && |c.savepointPath| > 0 ==>
              outcome == Fail(SavepointFlagsBoth) && submitted == None
    ensures submitted.Some? <==> OneFileFlag(c) && !(|c.savepointDir| > 0 && |c.savepointPath| > 0)
    ensures submitted.Some? ==>
              var d := submitted.value;
              d.localFilename == c.fileName &&
              d.remoteFilename == (if |c.fileName| > 0 then "" else c.remoteFileName) &&
              d.apiToken == (if |c.fileName| > 0 then "" else c.apiToken) &&
              d.entryClass == c.entryClass && d.parallelism == Parallelism(c.parallelism) &&
              d.programArgs == c.programArgs &&
              d.savepointDir == c.savepointDir && d.savepointPath == c.savepointPath &&
              d.allowNonRestoredState == c.allowNonRestoredState &&
              outcome == Reported(operator.deploy(d))
  {
    var deploy := DeployOperation.DeployJob("", "", "", "", 0, [], "", "", false);
    if |c.fileName| == 0 && |c.remoteFileName| == 0 {
      return Fail(FileFlagsUnspecified), None;
    }
    if |c.fileName| > 0 && |c.remoteFileName| > 0 {
      return Fail(FileFlagsBoth), None;
    }
    if |c.fileName| > 0 {
      deploy := deploy.(localFilename := c.fileName);
    } else {
      deploy := deploy.(remoteFilename := c.remoteFileName);
      if |c.apiToken| > 0 {
        deploy := deploy.(apiToken := c.apiToken);
      }
    }
    assert deploy.localFilename == c.fileName &&
           deploy.remoteFilename == (if |c.fileName| > 0 then "" else c.remoteFileName) &&
           deploy.apiToken == (if |c.fileName| > 0 then "" else c.apiToken);
    if |c.entryClass| > 0 {
      deploy := deploy.(entryClass := c.entryClass);
    }
    if c.parallelism != 0 {
      deploy := deploy.(parallelism := c.parallelism);
    } else {
      deploy := deploy.(parallelism := 1);
    }
    if |c.programArgs| > 0 {
      deploy := deploy.(programArgs := c.programArgs);
    }
    assert deploy.entryClass == c.entryClass && deploy.parallelism == Parallelism(c.parallelism) &&
           deploy.programArgs == c.programArgs;
    if |c.savepointDir| > 0 && |c.savepointPath| > 0 {
      return Fail(SavepointFlagsBoth), None;
    }
    if |c.savepointDir| > 0 {
      deploy := deploy.(savepointDir := c.savepointDir);
    }
    if |c.savepointPath| > 0 {
      deploy := deploy.(savepointPath := c.savepointPath);
    }
    deploy := deploy.(allowNonRestoredState := c.allowNonRestoredState);
    var err := operator.deploy(deploy);
    return Reported(err), Some(deploy);
  }

  /** `UpdateAction`: the job name base is checked first, then the file names, then the savepoint directory. */
  method UpdateAction(c: Flags, operator: Operator) returns (outcome: Outcome, submitted: Option<UpdateOperation.UpdateJob>)
    ensures |c.jobNameBase| == 0 ==> outcome == Fail(JobNameBaseFlagUnspecified) && submitted == None
    ensures |c.jobNameBase| > 0 && |c.fileName| == 0 && |c.remoteFileName| == 0 ==>
              outcome == Fail(FileFlagsUnspecified) && submitted == None
    ensures |c.jobNameBase| > 0 && |c.fileName| > 0 && |c.remoteFileName| > 0 ==>
              outcome == Fail(FileFlagsBoth) && submitted == None
    ensures |c.jobNameBase| > 0 && OneFileFlag(c) && |c.savepointDir| == 0 ==>
              outcome == Fail(SavepointDirFlagUnspecified) && submitted == None
    ensures submitted.Some? <==> |c.jobNameBase| > 0 && OneFileFlag(c) && |c.savepointDir| > 0
    ensures submitted.Some? ==>
              var u := submitted.value;
              u.jobNameBase == c.jobNameBase &&
              u.localFilename == c.fileName &&
              u.remoteFilename == (if |c.fileName| > 0 then "" else c.remoteFileName) &&
              u.apiToken == (if |c.fileName| > 0 then "" else c.apiToken) &&
              u.entryClass == c.entryClass && u.parallelism == Parallelism(c.parallelism) &&
              u.programArgs == c.programArgs && u.savepointDir == c.savepointDir &&
              u.allowNonRestoredState == c.allowNonRestoredState && u.fallbackToDeploy == c.fallbackToDeploy &&
              outcome == Reported(operator.update(u))
  {
    var update := UpdateOperation.UpdateJob("", "", "", "", "", 0, [], "", false, false);
    if |c.jobNameBase| != 0 {
      update := update.(jobNameBase := c.jobNameBase);
    } else {
      return Fail(JobNameBaseFlagUnspecified), None;
    }
    if |c.fileName| == 0 && |c.remoteFileName| == 0 {
      return Fail(FileFlagsUnspecified), None;
    }
    if |c.fileName| > 0 && |c.remoteFileName| > 0 {
      return Fail(FileFlagsBoth), None;
    }
    if |c.fileName| > 0 {
      update := update.(localFilename := c.fileName);
    } else {
      update := update.(remoteFilename := c.remoteFileName);
      if |c.apiToken| > 0 {
        update := update.(apiToken := c.apiToken);
      }
    }
    assert update.localFilename == c.fileName &&
           update.remoteFilename == (if |c.fileName| > 0 then "" else c.remoteFileName) &&
           update.apiToken == (if |c.fileName| > 0 then "" else c.apiToken);
    if |c.entryClass| > 0 {
      update := update.(entryClass := c.entryClass);
    }
    if c.parallelism != 0 {
      update := update.(parallelism := c.parallelism);
    } else {
      update := update.(parallelism := 1);
    }
    if |c.programArgs| > 0 {
      update := update.(programArgs := c.programArgs);
    }
    assert update.entryClass == c.entryClass && update.parallelism == Parallelism(c.parallelism) &&
           update.programArgs == c.programArgs;
    if |c.savepointDir| != 0 {
      update := update.(savepointDir := c.savepointDir);
    } else {
      return Fail(SavepointDirFlagUnspecified), None;
    }
    update := update.(allowNonRestoredState := c.allowNonRestoredState);
    update := update.(fallbackToDeploy := c.fallbackToDeploy);
    var err := operator.update(update);
    return Reported(err), Some(update);
  }

  /** The termination modes the command line accepts: none, "cancel" or "stop". */
  predicate KnownMode(mode: string) {
    |mode| == 0 || mode == "cancel" || mode == "stop"
  }

  /** `TerminateAction` */
  method TerminateAction(c: Flags, operator: Operator) returns (outcome: Outcome, submitted: Option<TerminateOperation.TerminateJob>)
    ensures |c.jobNameBase| == 0 ==> outcome == Fail(JobNameBaseFlagUnspecified) && submitted == None
    ensures |c.jobNameBase| > 0 && !KnownMode(c.mode) ==> outcome == Fail(UnknownMode) && submitted == None
    ensures submitted.Some? <==> |c.jobNameBase| > 0 && KnownMode(c.mode)
    ensures submitted.Some? ==>
              submitted.value == TerminateOperation.TerminateJob(c.jobNameBase, c.mode) &&
              outcome == Reported(operator.terminate(submitted.value))
  {
    var terminate := TerminateOperation.TerminateJob("", "");
    if |c.jobNameBase| == 0 {
      return Fail(JobNameBaseFlagUnspecified), None;
    }
    terminate := terminate.(jobNameBase := c.jobNameBase);
    if |c.mode| > 0 && c.mode != "cancel" && c.mode != "stop" {
      return Fail(UnknownMode), None;
    }
    terminate := terminate.(mode := c.mode);
    var err := operator.terminate(terminate);
    return Reported(err), Some(terminate);
  }

  /**
   * Settings the deploy action accepts name exactly one jar file and at most one savepoint
   * setting, so the deployment never stops at its own checks: it always reads the savepoint
   * directory or fetches the jar.
   */
  lemma AcceptedDeploymentGetsPastItsChecks(api: FlinkApi, net: Network, fs: FileSystem, d: DeployOperation.DeployJob)
    requires (|d.localFilename| > 0) != (|d.remoteFilename| > 0)
    requires !(|d.savepointDir| > 0 && |d.savepointPath| > 0)
    ensures var run := DeployOperation.DeployRun(api, net, fs, d);
            |run.calls| > 0 &&
            (|d.savepointDir| > 0 ==> run.calls[0].ReadDir?) &&
            (|d.savepointDir| == 0 ==> run.calls[0].DownloadFile? || run.calls[0].UploadJar?)
  {
  }

  /** Settings the update action accepts always get the update as far as listing the jobs. */
  lemma AcceptedUpdateListsJobs(api: FlinkApi, net: Network, fs: FileSystem, u: UpdateOperation.UpdateJob, retries: nat)
    requires |u.jobNameBase| > 0 && |u.savepointDir| > 0
    ensures var run := UpdateOperation.UpdateRun(api, net, fs, u, retries);
            |run.calls| > 0 && run.calls[0] == RetrieveJobs
  {
    UpdateOperation.UpdateValidatesFirst(api, net, fs, u, retries);
  }

  /** Settings the terminate action accepts always reach the terminate request. */
  lemma AcceptedTerminationCallsTheApi(api: FlinkApi, t: TerminateOperation.TerminateJob)
    requires |t.jobNameBase| > 0 && KnownMode(t.mode)
    ensures TerminateOperation.Terminate(api, t).calls == [Call.Terminate(t.jobNameBase, t.mode)]
  {
  }

  /**
   * `getAPITimeoutSeconds`: 10 when the environment variable is empty, otherwise its value read
   * as a base-10 64-bit integer, with the parse error passed on.
   */
  function GetAPITimeoutSeconds(env: string): (r: Result<int>)
    ensures |env| == 0 ==> r == Ok(10)
    ensures r.Ok? ==> Decimal.MinInt64 <= r.value <= Decimal.MaxInt64
    ensures r.Err? ==> |env| > 0 && (r.error == Decimal.SyntaxError(env) || r.error == Decimal.RangeError(env))
  {
    if |env| > 0 then Decimal.ParseInt64(env) else Ok(10)
  }

  /** Every 64-bit timeout written in decimal is read back as itself. */
  lemma GetAPITimeoutSecondsReadsDecimal(i: int)
    requires Decimal.MinInt64 <= i <= Decimal.MaxInt64
    ensures GetAPITimeoutSeconds(Decimal.FormatInt(i)) == Ok(i)
  {
    Decimal.FormatParseRoundTrip(i);
  }

  /**
   * A set value is accepted exactly when it is an optional sign and at least one digit, with a
   * value that fits in 64 bits, and it is read as that value.
   */
  lemma GetAPITimeoutSecondsAcceptsOnlyDecimal(env: string, v: int)
    requires |env| > 0
    ensures GetAPITimeoutSeconds(env) == Ok(v) <==>
              |Decimal.Unsigned(env)| > 0 && Decimal.AllDigits(Decimal.Unsigned(env)) &&
              Decimal.SignedValue(env) == v && Decimal.MinInt64 <= v <= Decimal.MaxInt64
  {
    Decimal.ParseInt64Accepts(env, v);
  }

  /** A value that is not a number, such as "bla", is refused with the syntax error of the parse. */
  lemma GetAPITimeoutSecondsRefusesText()
    ensures GetAPITimeoutSeconds("bla") == Err("strconv.ParseInt: parsing \"bla\": invalid syntax")
  {
    assert Decimal.Unsigned("bla") == "bla";
    Decimal.ParseInt64RefusesNonDigit("bla", 0);
    assert Decimal.SyntaxError("bla") == "strconv.ParseInt: parsing \"bla\": invalid syntax";
  }
}
