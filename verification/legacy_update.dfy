/**
 * The legacy `UpdateJob.execute`: find the running instances of a job base name through the
 * `flink` command line; with none, resume from the newest savepoint of the savepoint directory;
 * with one, take a savepoint of it, read the savepoint's path from `flink savepoint`'s output,
 * cancel it and resume from that path; with more, refuse. The redeployment is the legacy
 * `Deploy.execute`.
 *
 * The savepoint path is read with the regular expression `Savepoint completed. Path: file:(.*)\n`.
 * Neither `.` nor `(.*)` matches a newline and every match ends with one, so each
 * newline-terminated line holds at most one match, found at the leftmost place the fixed text
 * occurs, and the captured path is the rest of that line.
 */
module LegacyUpdate {
  import opened Wrappers
  import opened Strings
  import opened Collaborators
  import opened FileSystems
  import Savepoints
  import LegacyFlink
  import LegacyDeploy
  import Decimal

  // ---------------------------------------------------------------------------
  // RetrieveLatestSavepoint

  /**
   * The legacy `RetrieveLatestSavepoint`: the same scan as the current generation's locator,
   * but an empty directory is not an error: it yields no savepoint.
   */
  function LegacyLatestSavepoint(fs: FileSystem, dir: string): Result<string> {
    var d := TrimTrailingSlash(dir);
    match FileSystems.ReadDir(fs, d)
    case Err(e) => Err(e)
    case Ok(names) =>
      match Savepoints.ScanNewest(fs, d, names)
      case Err(e) => Err(e)
      case Ok(n) => Ok(n.path)
  }

  /** `RetrieveLatestSavepoint` */
  method RetrieveLatestSavepoint(fs: FileSystem, dir: string) returns (r: Result<string>)
    ensures r == LegacyLatestSavepoint(fs, dir)
  {
    var d := dir;
    if HasSuffix(d, "/") {
      d := TrimTrailingSlash(d);
    }
    var files := FileSystems.ReadDir(fs, d);
    if files.Err? {
      return Err(files.error);
    }
    var newest := Savepoints.NewestEntry(fs, d, files.value);
    if newest.Err? {
      return Err(newest.error);
    }
    return Ok(newest.value.path);
  }

  /** An existing but empty directory yields no savepoint and no error. */
  lemma LegacyLatestSavepointOfEmptyDirectory(fs: FileSystem, dir: string)
    requires TrimTrailingSlash(dir) in fs.dirs && fs.dirs[TrimTrailingSlash(dir)] == []
    ensures LegacyLatestSavepoint(fs, dir) == Ok("")
  {
  }

  /**
   * Apart from the empty directory the two generations locate the same savepoint, so the
   * legacy result is the newest entry, the first listed among equals, or "" when no entry is
   * newer than the epoch.
   */
  lemma LegacyLatestSavepointAgreesElsewhere(fs: FileSystem, dir: string)
    requires TrimTrailingSlash(dir) !in fs.dirs || fs.dirs[TrimTrailingSlash(dir)] != []
    ensures LegacyLatestSavepoint(fs, dir) == Savepoints.LatestSavepoint(fs, dir)
  {
  }

  // ---------------------------------------------------------------------------
  // ExtractSavepointPath

  const Completed := "Savepoint completed"
  const PathMarker := " Path: file:"
  /** The length of the fixed text before the path: `Completed`, one character, `PathMarker`. */
  const MarkerLength := 32

  const NoSavepointPath := "could not extract savepoint path from Flink's output"
  const MultipleSavepoints := "multiple matches for savepoint found"

  /** The fixed text of the expression occurs at `p`, with any character where it has `.`. */
  predicate MarkerAt(line: string, p: nat) {
    StartsAt(line, p, Completed) && StartsAt(line, p + 20, PathMarker)
  }

  /** The leftmost place at or after `p` where the fixed text occurs. */
  function FirstMarker(line: string, p: nat): (r: Option<nat>)
    ensures r.Some? ==> p <= r.value && r.value + MarkerLength <= |line|
    decreases |line| - p
  {
    if p + MarkerLength > |line| then None
    else if MarkerAt(line, p) then Some(p)
    else FirstMarker(line, p + 1)
  }

  /** The leftmost occurrence is found, and nothing else. */
  lemma {:induction false} FirstMarkerIsLeftmost(line: string, p: nat)
    ensures FirstMarker(line, p).None? <==> forall q :: p <= q ==> !MarkerAt(line, q)
    ensures FirstMarker(line, p).Some? ==>
              var q := FirstMarker(line, p).value;
              p <= q && MarkerAt(line, q) && forall k :: p <= k < q ==> !MarkerAt(line, k)
    decreases |line| - p
  {
    if p + MarkerLength <= |line| && !MarkerAt(line, p) {
      FirstMarkerIsLeftmost(line, p + 1);
    }
  }

  /** The path a line reports: the rest of the line after the leftmost occurrence of the fixed text. */
  function SavepointPathIn(line: string): Option<string> {
    match FirstMarker(line, 0)
    case None => None
    case Some(q) => Some(line[q + MarkerLength..])
  }

  /** The captured paths, one per line that holds the fixed text, in output order. */
  function SavepointMatches(lines: seq<string>): seq<string>
    decreases |lines|
  {
    if lines == [] then []
    else
      var rest := SavepointMatches(lines[1..]);
      match SavepointPathIn(lines[0])
      case None => rest
      case Some(path) => [path] + rest
  }

  /** `ExtractSavepointPath` */
  function ExtractSavepointPath(output: string): Result<string> {
    var matches := SavepointMatches(TerminatedLines(output));
    if |matches| == 0 then Err(NoSavepointPath)
    else if |matches| == 1 then Ok(matches[0])
    else Err(MultipleSavepoints)
  }

  /** The line `flink savepoint` prints when it has written a savepoint. */
  function SavepointReport(path: string): string {
    Completed + "." + PathMarker + path
  }

  /** A report line holds the fixed text at its start, so it reports its own path. */
  lemma SavepointReportIsRead(path: string)
    ensures SavepointPathIn(SavepointReport(path)) == Some(path)
  {
    var line := SavepointReport(path);
    assert line[..19] == Completed;
    assert line[20..32] == PathMarker;
    assert MarkerAt(line, 0);
    assert line[32..] == path;
  }

  /** The fixed text starts with an 'S', so it cannot start inside text without one. */
  lemma NoMarkerInIndent(indent: string, rest: string)
    requires 'S' !in indent
    ensures forall q :: 0 <= q < |indent| ==> !MarkerAt(indent + rest, q)
  {
    forall q | 0 <= q < |indent|
      ensures !MarkerAt(indent + rest, q)
    {
      assert (indent + rest)[q] == indent[q] != Completed[0];
    }
  }

  /** After any prefix, a report line holds the fixed text where it starts, followed by its path. */
  lemma ReportAfterPrefix(prefix: string, path: string)
    ensures MarkerAt(prefix + SavepointReport(path), |prefix|)
    ensures (prefix + SavepointReport(path))[|prefix| + MarkerLength..] == path
  {
    var line := prefix + SavepointReport(path);
    var b := |prefix|;
    assert line[b..] == SavepointReport(path);
    assert line[b..b + 19] == Completed;
    assert line[b + 20..b + 32] == PathMarker;
  }

  /** An occurrence with none before it is the leftmost one. */
  lemma FirstMarkerIsOnlyOne(line: string, b: nat)
    requires MarkerAt(line, b)
    requires forall q :: 0 <= q < b ==> !MarkerAt(line, q)
    ensures FirstMarker(line, 0) == Some(b)
  {
    FirstMarkerIsLeftmost(line, 0);
  }

  /**
   * A report line indented by text without an 'S', such as the tabs `flink savepoint` may
   * print first, still reports its own path: the fixed text cannot start inside the indent.
   */
  lemma IndentedReportIsRead(indent: string, path: string)
    requires 'S' !in indent
    ensures SavepointPathIn(indent + SavepointReport(path)) == Some(path)
  {
    ReportAfterPrefix(indent, path);
    NoMarkerInIndent(indent, SavepointReport(path));
    FirstMarkerIsOnlyOne(indent + SavepointReport(path), |indent|);
  }

  lemma {:induction false} MatchesOfNoReport(lines: seq<string>)
    requires forall i :: 0 <= i < |lines| ==> SavepointPathIn(lines[i]).None?
    ensures SavepointMatches(lines) == []
    decreases |lines|
  {
    if lines != [] {
      assert forall i :: 0 <= i < |lines| - 1 ==> lines[1..][i] == lines[i + 1];
      MatchesOfNoReport(lines[1..]);
    }
  }

  lemma {:induction false} MatchesOfOneReport(lines: seq<string>, i: nat)
    requires i < |lines| && SavepointPathIn(lines[i]).Some?
    requires forall j :: 0 <= j < |lines| && j != i ==> SavepointPathIn(lines[j]).None?
    ensures SavepointMatches(lines) == [SavepointPathIn(lines[i]).value]
    decreases |lines|
  {
    assert forall j :: 0 <= j < |lines| - 1 ==> lines[1..][j] == lines[j + 1];
    if i == 0 {
      MatchesOfNoReport(lines[1..]);
    } else {
      MatchesOfOneReport(lines[1..], i - 1);
    }
  }

  lemma {:induction false} MatchesOfSomeReport(lines: seq<string>, i: nat)
    requires i < |lines| && SavepointPathIn(lines[i]).Some?
    ensures |SavepointMatches(lines)| >= 1
    decreases |lines|
  {
    if i > 0 && SavepointPathIn(lines[0]).None? {
      assert lines[1..][i - 1] == lines[i];
      MatchesOfSomeReport(lines[1..], i - 1);
    }
  }

  lemma {:induction false} MatchesOfTwoReports(lines: seq<string>, i: nat, j: nat)
    requires i < j < |lines| && SavepointPathIn(lines[i]).Some? && SavepointPathIn(lines[j]).Some?
    ensures |SavepointMatches(lines)| >= 2
    decreases |lines|
  {
    assert lines[1..][j - 1] == lines[j];
    if i == 0 {
      MatchesOfSomeReport(lines[1..], j - 1);
    } else {
      assert lines[1..][i - 1] == lines[i];
      MatchesOfTwoReports(lines[1..], i - 1, j - 1);
    }
  }

  /** Output in which no line holds the fixed text yields no path. */
  lemma ExtractWithoutReport(lines: seq<string>)
    requires forall l :: l in lines ==> '\n' !in l
    requires forall i :: 0 <= i < |lines| ==> SavepointPathIn(lines[i]).None?
    ensures ExtractSavepointPath(UnlinesTerminated(lines)) == Err(NoSavepointPath)
  {
    TerminatedLinesRoundTrip(lines);
    MatchesOfNoReport(lines);
  }

  /**
   * Output holding one line with the fixed text, wherever on the line it stands, yields the
   * rest of that line after the fixed text.
   */
  lemma ExtractReadsTheReport(lines: seq<string>, i: nat, path: string)
    requires forall l :: l in lines ==> '\n' !in l
    requires i < |lines| && SavepointPathIn(lines[i]) == Some(path)
    requires forall j :: 0 <= j < |lines| && j != i ==> SavepointPathIn(lines[j]).None?
    ensures ExtractSavepointPath(UnlinesTerminated(lines)) == Ok(path)
  {
    TerminatedLinesRoundTrip(lines);
    MatchesOfOneReport(lines, i);
  }

  /** Two lines holding the fixed text make the output ambiguous. */
  lemma ExtractRefusesTwoReports(lines: seq<string>, i: nat, j: nat)
    requires forall l :: l in lines ==> '\n' !in l
    requires i < j < |lines| && SavepointPathIn(lines[i]).Some? && SavepointPathIn(lines[j]).Some?
    ensures ExtractSavepointPath(UnlinesTerminated(lines)) == Err(MultipleSavepoints)
  {
    TerminatedLinesRoundTrip(lines);
    MatchesOfTwoReports(lines, i, j);
  }

  /** A report that is not followed by a newline is not read. */
  lemma ExtractNeedsTheNewline(path: string)
    requires '\n' !in path
    ensures ExtractSavepointPath(SavepointReport(path)) == Err(NoSavepointPath)
  {
    var line := SavepointReport(path);
    assert '\n' !in line by {
      assert forall k :: 0 <= k < |line| ==> line[k] != '\n' by {
        forall k | 0 <= k < |line|
          ensures line[k] != '\n'
        {
          if k >= MarkerLength {
            assert line[k] == path[k - MarkerLength];
          }
        }
      }
    }
    SplitWithoutSeparator(line, '\n');
  }

  // ---------------------------------------------------------------------------
  // CreateSavepoint

  /**
   * `CreateSavepoint`: `flink savepoint`, the path read from its output, then a check that the
   * path can be looked up (a missing path is accepted; only a failing lookup is an error).
   */
  function CreateSavepoint(shell: Shell, fs: FileSystem, jobId: string, savepointTargetDir: string): Traced<Result<string>> {
    var taken := LegacyFlink.Savepoint(shell, jobId, savepointTargetDir);
    match taken.value
    case Err(e) => Traced(Err(e), taken.calls)
    case Ok(out) =>
      match ExtractSavepointPath(out)
      case Err(e) => Traced(Err(e), taken.calls)
      case Ok(path) =>
        match Exists(fs, path)
        case Err(e) => Traced(Err(e), taken.calls)
        case Ok(_) => Traced(Ok(path), taken.calls)
  }

  /**
   * A savepoint is created only for a given job and directory, by one `flink savepoint`
   * command whose output reports exactly one path; that path is returned whether or not it
   * exists, unless looking it up fails.
   */
  lemma CreateSavepointSuccess(shell: Shell, fs: FileSystem, jobId: string, dir: string)
    requires CreateSavepoint(shell, fs, jobId, dir).value.Ok?
    ensures |jobId| > 0 && |dir| > 0
    ensures var command := LegacyFlink.SavepointCommand(jobId, dir);
            var path := CreateSavepoint(shell, fs, jobId, dir).value.value;
            CreateSavepoint(shell, fs, jobId, dir).calls == [RunCommand(command)] &&
            shell.combinedOutput(command).Ok? &&
            ExtractSavepointPath(shell.combinedOutput(command).value) == Ok(path) &&
            !(path in fs.stats && fs.stats[path].Err?)
  {
  }

  /** Every failure is the command's, the extraction's or the lookup's, in that order. */
  lemma CreateSavepointErrors(shell: Shell, fs: FileSystem, jobId: string, dir: string)
    requires |jobId| > 0 && |dir| > 0
    ensures var command := LegacyFlink.SavepointCommand(jobId, dir);
            var r := CreateSavepoint(shell, fs, jobId, dir).value;
            var out := shell.combinedOutput(command);
            (out.Err? ==> r == Err(out.error)) &&
            (out.Ok? && ExtractSavepointPath(out.value).Err? ==> r == ExtractSavepointPath(out.value)) &&
            (out.Ok? && ExtractSavepointPath(out.value).Ok? ==>
               var path := ExtractSavepointPath(out.value).value;
               (path in fs.stats && fs.stats[path].Err? ==> r == Err(fs.stats[path].error)) &&
               (!(path in fs.stats && fs.stats[path].Err?) ==> r == Ok(path)))
  {
  }

  // ---------------------------------------------------------------------------
  // UpdateJob.execute

  /** The settings of one legacy update. */
  datatype UpdateJob = UpdateJob(
    jobNameBase: string,
    runArgs: string,
    localFilename: string,
    remoteFilename: string,
    apiToken: string,
    jarArgs: string,
    savepointDirectory: string,
    allowNonRestorableState: bool)

  const MissingJobNameBase := "unspecified argument 'jobNameBase'"
  const MissingSavepointDirectory := "unspecified argument 'savepointDirectory'"

  function TooManyInstances(jobNameBase: string, n: nat): string {
    "Jobname base \"" + jobNameBase + "\" has " + Decimal.FormatNat(n) + " instances running"
  }

  /** The deployment an update hands over to: its files and flags, resuming from `savepointPath`. */
  function Redeployment(u: UpdateJob, savepointPath: string): LegacyDeploy.Deploy {
    LegacyDeploy.Deploy(u.remoteFilename, u.apiToken, u.localFilename, "", 0, u.jarArgs,
                        savepointPath, u.allowNonRestorableState)
  }

  /**
   * What `UpdateJob.execute` does: its outcome and the calls it makes, in order. The running
   * ids are those of `LegacyFlink.RunningJobIds`; only their number and, when there is one,
   * the id itself matter, and neither depends on the order the ids are collected in.
   */
  function UpdateRun(client: LegacyRestClient, net: Network, shell: Shell, fs: FileSystem, u: UpdateJob): Traced<Outcome> {
    if |u.jobNameBase| == 0 then Traced(Fail(MissingJobNameBase), [])
    else if |u.savepointDirectory| == 0 then Traced(Fail(MissingSavepointDirectory), [])
    else
      var listed := [RunCommand(LegacyFlink.ListRunning)];
      match LegacyFlink.RunningJobIds(shell, u.jobNameBase)
      case Err(e) => Traced(Fail(e), listed)
      case Ok(jobIds) =>
        if |jobIds| == 0 then
          var rest := FromLatest(client, net, fs, u);
          Traced(rest.value, listed + rest.calls)
        else if |jobIds| == 1 then
          var rest := FromSavepointOf(client, net, shell, fs, u, jobIds[0]);
          Traced(rest.value, listed + rest.calls)
        else Traced(Fail(TooManyInstances(u.jobNameBase, |jobIds|)), listed)
  }

  /** No instance runs: deploy from the newest savepoint of the directory, if any. */
  function FromLatest(client: LegacyRestClient, net: Network, fs: FileSystem, u: UpdateJob): Traced<Outcome> {
    var looked := [ReadDir(TrimTrailingSlash(u.savepointDirectory))];
    match LegacyLatestSavepoint(fs, u.savepointDirectory)
    case Err(e) => Traced(Fail(e), looked)
    case Ok(latest) =>
      var deployed := LegacyDeploy.DeployRun(client, net, Redeployment(u, latest));
      Traced(deployed.value, looked + deployed.calls)
  }

  /**
   * One instance runs: take a savepoint of it, cancel it (what the cancellation reports is
   * ignored) and deploy from the savepoint.
   */
  function FromSavepointOf(client: LegacyRestClient, net: Network, shell: Shell, fs: FileSystem, u: UpdateJob, jobId: string): Traced<Outcome> {
    var taken := CreateSavepoint(shell, fs, jobId, u.savepointDirectory);
    match taken.value
    case Err(e) => Traced(Fail(e), taken.calls)
    case Ok(savepoint) =>
      var cancelled := LegacyFlink.CancelJob(shell, jobId);
      var deployed := LegacyDeploy.DeployRun(client, net, Redeployment(u, savepoint));
      Traced(deployed.value, taken.calls + cancelled.calls + deployed.calls)
  }

  /** `UpdateJob.execute` */
  method Execute(client: LegacyRestClient, net: Network, shell: Shell, fs: FileSystem, u: UpdateJob)
    returns (outcome: Outcome, calls: seq<Call>)
    ensures Traced(outcome, calls) == UpdateRun(client, net, shell, fs, u)
  {
    if |u.jobNameBase| == 0 {
      return Fail(MissingJobNameBase), [];
    }
    if |u.savepointDirectory| == 0 {
      return Fail(MissingSavepointDirectory), [];
    }
    var jobIds, listing := LegacyFlink.RetrieveRunningJobIds(shell, u.jobNameBase);
    if jobIds.Err? {
      return Fail(jobIds.error), listing;
    }
    LegacyFlink.SameIds(jobIds.value, LegacyFlink.RunningJobIds(shell, u.jobNameBase).value);
    if |jobIds.value| == 0 {
      outcome, calls := ResumeFromLatest(client, net, fs, u);
    } else if |jobIds.value| == 1 {
      outcome, calls := ReplaceInstance(client, net, shell, fs, u, jobIds.value[0]);
    } else {
      return Fail(TooManyInstances(u.jobNameBase, |jobIds.value|)), listing;
    }
    calls := listing + calls;
  }

  /** The branch of `UpdateJob.execute` for no running instance. */
  method ResumeFromLatest(client: LegacyRestClient, net: Network, fs: FileSystem, u: UpdateJob)
    returns (outcome: Outcome, calls: seq<Call>)
    ensures Traced(outcome, calls) == FromLatest(client, net, fs, u)
  {
    calls := [ReadDir(TrimTrailingSlash(u.savepointDirectory))];
    var deploy := Redeployment(u, "");
    var latestSavepoint := RetrieveLatestSavepoint(fs, u.savepointDirectory);
    if latestSavepoint.Err? {
      return Fail(latestSavepoint.error), calls;
    }
    if |latestSavepoint.value| != 0 {
      deploy := deploy.(savepointPath := latestSavepoint.value);
    }
    var deployed := LegacyDeploy.DeployRun(client, net, deploy);
    return deployed.value, calls + deployed.calls;
  }

  /** The branch of `UpdateJob.execute` for one running instance. */
  method ReplaceInstance(client: LegacyRestClient, net: Network, shell: Shell, fs: FileSystem, u: UpdateJob, jobId: string)
    returns (outcome: Outcome, calls: seq<Call>)
    ensures Traced(outcome, calls) == FromSavepointOf(client, net, shell, fs, u, jobId)
  {
    var savepoint := CreateSavepoint(shell, fs, jobId, u.savepointDirectory);
    calls := savepoint.calls;
    if savepoint.value.Err? {
      return Fail(savepoint.value.error), calls;
    }
    var deploy := Redeployment(u, savepoint.value.value);
    var cancelled := LegacyFlink.CancelJob(shell, jobId);
    calls := calls + cancelled.calls;
    var deployed := LegacyDeploy.DeployRun(client, net, deploy);
    return deployed.value, calls + deployed.calls;
  }

  /** The base name and the savepoint directory are required before anything runs. */
  lemma UpdateNeedsBaseAndDirectory(client: LegacyRestClient, net: Network, shell: Shell, fs: FileSystem, u: UpdateJob)
    ensures |u.jobNameBase| == 0 ==> UpdateRun(client, net, shell, fs, u) == Traced(Fail(MissingJobNameBase), [])
    ensures |u.jobNameBase| > 0 && |u.savepointDirectory| == 0 ==>
              UpdateRun(client, net, shell, fs, u) == Traced(Fail(MissingSavepointDirectory), [])
    ensures UpdateRun(client, net, shell, fs, u).calls != [] <==>
              |u.jobNameBase| > 0 && |u.savepointDirectory| > 0
  {
  }

  /** With no instance running the job is deployed from the newest savepoint of the directory. */
  lemma UpdateWithoutInstanceResumesFromLatest(client: LegacyRestClient, net: Network, shell: Shell, fs: FileSystem, u: UpdateJob)
    requires |u.jobNameBase| > 0 && |u.savepointDirectory| > 0
    requires LegacyFlink.RunningJobIds(shell, u.jobNameBase) == Ok([])
    requires LegacyLatestSavepoint(fs, u.savepointDirectory).Ok?
    ensures var latest := LegacyLatestSavepoint(fs, u.savepointDirectory).value;
            var deployed := LegacyDeploy.DeployRun(client, net, Redeployment(u, latest));
            UpdateRun(client, net, shell, fs, u) ==
              Traced(deployed.value,
                     [RunCommand(LegacyFlink.ListRunning), ReadDir(TrimTrailingSlash(u.savepointDirectory))] + deployed.calls)
  {
  }

  /** An empty savepoint directory is no error: the job is deployed without a savepoint. */
  lemma UpdateFromEmptyDirectoryStartsAfresh(client: LegacyRestClient, net: Network, shell: Shell, fs: FileSystem, u: UpdateJob)
    requires |u.jobNameBase| > 0 && |u.savepointDirectory| > 0
    requires LegacyFlink.RunningJobIds(shell, u.jobNameBase) == Ok([])
    requires TrimTrailingSlash(u.savepointDirectory) in fs.dirs && fs.dirs[TrimTrailingSlash(u.savepointDirectory)] == []
    ensures UpdateRun(client, net, shell, fs, u).value == LegacyDeploy.DeployRun(client, net, Redeployment(u, "")).value
  {
    LegacyLatestSavepointOfEmptyDirectory(fs, u.savepointDirectory);
    UpdateWithoutInstanceResumesFromLatest(client, net, shell, fs, u);
  }

  /**
   * With one instance running a savepoint is taken, the instance is cancelled whatever the
   * cancellation reports, and the job is deployed from the savepoint.
   */
  lemma UpdateOfOneInstanceSavepointsCancelsAndRedeploys(
    client: LegacyRestClient, net: Network, shell: Shell, fs: FileSystem, u: UpdateJob, jobId: string)
    requires |u.jobNameBase| > 0 && |u.savepointDirectory| > 0
    requires LegacyFlink.RunningJobIds(shell, u.jobNameBase) == Ok([jobId])
    requires CreateSavepoint(shell, fs, jobId, u.savepointDirectory).value.Ok?
    ensures |jobId| > 0
    ensures var savepoint := CreateSavepoint(shell, fs, jobId, u.savepointDirectory).value.value;
            var deployed := LegacyDeploy.DeployRun(client, net, Redeployment(u, savepoint));
            UpdateRun(client, net, shell, fs, u) ==
              Traced(deployed.value,
                     [RunCommand(LegacyFlink.ListRunning),
                      RunCommand(LegacyFlink.SavepointCommand(jobId, u.savepointDirectory)),
                      RunCommand(LegacyFlink.CancelCommand(jobId))] + deployed.calls)
  {
    CreateSavepointSuccess(shell, fs, jobId, u.savepointDirectory);
  }

  /** A failed savepoint stops the update: nothing is cancelled or deployed. */
  lemma UpdateStopsWhenTheSavepointFails(
    client: LegacyRestClient, net: Network, shell: Shell, fs: FileSystem, u: UpdateJob, jobId: string)
    requires |u.jobNameBase| > 0 && |u.savepointDirectory| > 0
    requires LegacyFlink.RunningJobIds(shell, u.jobNameBase) == Ok([jobId])
    requires CreateSavepoint(shell, fs, jobId, u.savepointDirectory).value.Err?
    ensures UpdateRun(client, net, shell, fs, u) ==
            Traced(Fail(CreateSavepoint(shell, fs, jobId, u.savepointDirectory).value.error),
                   [RunCommand(LegacyFlink.ListRunning)] + CreateSavepoint(shell, fs, jobId, u.savepointDirectory).calls)
  {
  }

  /** Several running instances are refused after the listing, naming their number. */
  lemma UpdateRefusesSeveralInstances(client: LegacyRestClient, net: Network, shell: Shell, fs: FileSystem, u: UpdateJob)
    requires |u.jobNameBase| > 0 && |u.savepointDirectory| > 0
    requires LegacyFlink.RunningJobIds(shell, u.jobNameBase).Ok?
    requires |LegacyFlink.RunningJobIds(shell, u.jobNameBase).value| >= 2
    ensures UpdateRun(client, net, shell, fs, u) ==
            Traced(Fail(TooManyInstances(u.jobNameBase, |LegacyFlink.RunningJobIds(shell, u.jobNameBase).value|)),
                   [RunCommand(LegacyFlink.ListRunning)])
  {
  }

  /**
   * A job is cancelled only when it is the one running instance of the base name and a
   * savepoint of it has been taken and read back.
   */
  lemma UpdateCancelsOnlyAfterASavepoint(
    client: LegacyRestClient, net: Network, shell: Shell, fs: FileSystem, u: UpdateJob, jobId: string)
    requires RunCommand(LegacyFlink.CancelCommand(jobId)) in UpdateRun(client, net, shell, fs, u).calls
    ensures LegacyFlink.RunningJobIds(shell, u.jobNameBase) == Ok([jobId])
    ensures CreateSavepoint(shell, fs, jobId, u.savepointDirectory).value.Ok?
  {
    var run := UpdateRun(client, net, shell, fs, u);
    var jobIds := LegacyFlink.RunningJobIds(shell, u.jobNameBase);
    var cancel := RunCommand(LegacyFlink.CancelCommand(jobId));
    if jobIds.Ok? && |jobIds.value| == 0 {
      var latest := LegacyLatestSavepoint(fs, u.savepointDirectory);
      if latest.Ok? {
        var deployed := LegacyDeploy.DeployRun(client, net, Redeployment(u, latest.value));
        LegacyDeploy.DeployCallsOnlyDeploySteps(client, net, Redeployment(u, latest.value));
      }
    } else if jobIds.Ok? && |jobIds.value| == 1 {
      var taken := CreateSavepoint(shell, fs, jobIds.value[0], u.savepointDirectory);
      assert cancel !in taken.calls;
      if taken.value.Ok? {
        var deployed := LegacyDeploy.DeployRun(client, net, Redeployment(u, taken.value.value));
        LegacyDeploy.DeployCallsOnlyDeploySteps(client, net, Redeployment(u, taken.value.value));
        assert cancel !in deployed.calls;
        assert jobIds.value == [jobId];
      }
    }
  }
}
