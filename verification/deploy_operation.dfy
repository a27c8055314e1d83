/**
 * `Deploy`: submit a job to the cluster, optionally resuming from a savepoint. The settings
 * are checked first; then the savepoint directory, if given, is searched for the newest
 * savepoint; then the jar is fetched (a remote jar is downloaded to a fixed staging path),
 * uploaded, and run under the id the upload reported.
 */
module DeployOperation {
  import opened Wrappers
  import opened Strings
  import opened Collaborators
  import opened FileSystems
  import Savepoints

  /** The settings of one deployment. */
  datatype DeployJob = DeployJob(
    remoteFilename: string,
    apiToken: string,
    localFilename: string,
    entryClass: string,
    parallelism: int,
    programArgs: seq<string>,
    savepointDir: string,
    savepointPath: string,
    allowNonRestoredState: bool)

  const StagingPath := "/tmp/job.jar"
  const ConflictingSavepointSettings := "both properties 'SavepointDir' and 'SavepointPath' are specified"
  const MissingJarFile := "both properties 'RemoteFilename' and 'LocalFilename' are unspecified"

  function SavepointLookupFailed(e: string): string {
    "retrieving the latest savepoint failed: " + e
  }

  /**
   * `extractJarIDFromFilename`: the part of the stored file name after its last slash, or the
   * whole name when it has none.
   */
  function ExtractJarIDFromFilename(filename: string): (id: string)
    ensures '/' !in id && HasSuffix(filename, id)
    ensures id == filename || filename[|filename| - |id| - 1] == '/'
  {
    LastPiece(filename, '/');
    var parts := Split(filename, '/');
    parts[|parts| - 1]
  }

  /** Only one piece of a name fits: a suffix without a slash that starts the name or follows a slash. */
  lemma ExtractJarIDIsUnique(filename: string, id: string)
    requires '/' !in id && HasSuffix(filename, id)
    requires id == filename || filename[|filename| - |id| - 1] == '/'
    ensures ExtractJarIDFromFilename(filename) == id
  {
  }

  /** The jar the deployment uploads: the local file when given, else the staged download. */
  function JarFile(d: DeployJob): string {
    if |d.localFilename| > 0 then d.localFilename else StagingPath
  }

  /** The savepoint a deployment resumes from once the savepoint directory has been searched. */
  function ResumePath(d: DeployJob, latest: string): string {
    if |latest| != 0 then latest else d.savepointPath
  }

  /** The run request for the uploaded jar. */
  function RunRequest(d: DeployJob, storedName: string): JarRun {
    JarRun(ExtractJarIDFromFilename(storedName), d.entryClass, d.programArgs, d.parallelism,
           d.savepointPath, d.allowNonRestoredState)
  }

  /** Steps from the jar-file check on: fetch the jar, upload it, run it. */
  function ShipJar(api: FlinkApi, net: Network, d: DeployJob): Traced<Outcome> {
    if |d.remoteFilename| == 0 && |d.localFilename| == 0 then Traced(Fail(MissingJarFile), [])
    else
      var download := if |d.remoteFilename| > 0 then [DownloadFile(d.remoteFilename, d.apiToken, StagingPath)] else [];
      var downloaded := if |d.remoteFilename| > 0 then net.downloadFile(d.remoteFilename, d.apiToken, StagingPath) else Pass;
      if downloaded.Fail? then Traced(downloaded, download)
      else
        var upload := download + [UploadJar(JarFile(d))];
        match api.uploadJar(JarFile(d))
        case Err(e) => Traced(Fail(e), upload)
        case Ok(storedName) =>
          var request := RunRequest(d, storedName);
          Traced(api.runJar(request), upload + [RunJar(request)])
  }

  /** What `Deploy` does: its outcome and the calls it makes, in order. */
  function DeployRun(api: FlinkApi, net: Network, fs: FileSystem, d: DeployJob): Traced<Outcome> {
    if |d.savepointDir| > 0 && |d.savepointPath| > 0 then Traced(Fail(ConflictingSavepointSettings), [])
    else if |d.savepointDir| > 0 then
      var lookup := [ReadDir(TrimTrailingSlash(d.savepointDir))];
      match Savepoints.LatestSavepoint(fs, d.savepointDir)
      case Err(e) => Traced(Fail(SavepointLookupFailed(e)), lookup)
      case Ok(latest) =>
        var rest := ShipJar(api, net, d.(savepointPath := ResumePath(d, latest)));
        Traced(rest.value, lookup + rest.calls)
    else ShipJar(api, net, d)
  }

  /** `Deploy` */
  method Deploy(api: FlinkApi, net: Network, fs: FileSystem, deploy: DeployJob) returns (outcome: Outcome, calls: seq<Call>)
    ensures Traced(outcome, calls) == DeployRun(api, net, fs, deploy)
  {
    var d := deploy;
    calls := [];
    if |d.savepointDir| > 0 && |d.savepointPath| > 0 {
      return Fail(ConflictingSavepointSettings), calls;
    }
    if |d.savepointDir| > 0 {
      calls := calls + [ReadDir(TrimTrailingSlash(d.savepointDir))];
      var latest := Savepoints.RetrieveLatestSavepoint(fs, d.savepointDir);
      if latest.Err? {
        return Fail(SavepointLookupFailed(latest.error)), calls;
      }
      if |latest.value| != 0 {
        d := d.(savepointPath := latest.value);
      }
    }
    var shipped, shipCalls := Ship(api, net, d);
    return shipped, calls + shipCalls;
  }

  /** The part of `Deploy` from the jar-file check on. */
  method Ship(api: FlinkApi, net: Network, d: DeployJob) returns (outcome: Outcome, calls: seq<Call>)
    ensures Traced(outcome, calls) == ShipJar(api, net, d)
  {
    calls := [];
    if |d.remoteFilename| == 0 && |d.localFilename| == 0 {
      return Fail(MissingJarFile), calls;
    }
    var filename := "";
    if |d.remoteFilename| > 0 {
      filename := StagingPath;
      calls := calls + [DownloadFile(d.remoteFilename, d.apiToken, filename)];
      var downloaded := net.downloadFile(d.remoteFilename, d.apiToken, filename);
      if downloaded.Fail? {
        return downloaded, calls;
      }
    }
    if |d.localFilename| > 0 {
      filename := d.localFilename;
    }
    calls := calls + [UploadJar(filename)];
    var uploadResponse := api.uploadJar(filename);
    if uploadResponse.Err? {
      return Fail(uploadResponse.error), calls;
    }
    var jarId := ExtractJarIDFromFilename(uploadResponse.value);
    var request := JarRun(jarId, d.entryClass, d.programArgs, d.parallelism, d.savepointPath, d.allowNonRestoredState);
    calls := calls + [RunJar(request)];
    outcome := api.runJar(request);
  }

  /** Conflicting savepoint settings are refused before anything is read or called. */
  lemma DeployRefusesConflictingSavepoints(api: FlinkApi, net: Network, fs: FileSystem, d: DeployJob)
    requires |d.savepointDir| > 0 && |d.savepointPath| > 0
    ensures DeployRun(api, net, fs, d) == Traced(Fail(ConflictingSavepointSettings), [])
  {
  }

  /** The savepoint lookup is reported with its cause, and nothing is uploaded after it fails. */
  lemma DeployReportsSavepointLookupFailure(api: FlinkApi, net: Network, fs: FileSystem, d: DeployJob)
    requires |d.savepointDir| > 0 && |d.savepointPath| == 0
    requires Savepoints.LatestSavepoint(fs, d.savepointDir).Err?
    ensures DeployRun(api, net, fs, d) ==
            Traced(Fail(SavepointLookupFailed(Savepoints.LatestSavepoint(fs, d.savepointDir).error)),
                   [ReadDir(TrimTrailingSlash(d.savepointDir))])
  {
  }

  /** Without a jar file nothing is downloaded, uploaded or run. */
  lemma DeployNeedsAJarFile(api: FlinkApi, net: Network, fs: FileSystem, d: DeployJob)
    requires |d.remoteFilename| == 0 && |d.localFilename| == 0
    requires !(|d.savepointDir| > 0 && |d.savepointPath| > 0)
    requires |d.savepointDir| > 0 ==> Savepoints.LatestSavepoint(fs, d.savepointDir).Ok?
    ensures DeployRun(api, net, fs, d).value == Fail(MissingJarFile)
    ensures forall c :: c in DeployRun(api, net, fs, d).calls ==> c.ReadDir?
  {
  }

  /** After the checks: a successful shipment downloaded, uploaded and ran, in that order. */
  lemma ShipJarSuccess(api: FlinkApi, net: Network, d: DeployJob)
    requires ShipJar(api, net, d).value == Pass
    ensures |d.remoteFilename| > 0 || |d.localFilename| > 0
    ensures |d.remoteFilename| > 0 ==>
              net.downloadFile(d.remoteFilename, d.apiToken, StagingPath) == Pass &&
              ShipJar(api, net, d).calls[0] == DownloadFile(d.remoteFilename, d.apiToken, StagingPath)
    ensures api.uploadJar(JarFile(d)).Ok?
    ensures var request := RunRequest(d, api.uploadJar(JarFile(d)).value);
            var calls := ShipJar(api, net, d).calls;
            api.runJar(request) == Pass && |calls| >= 2 &&
            calls[|calls| - 2..] == [UploadJar(JarFile(d)), RunJar(request)]
  {
  }

  /**
   * A successful deployment downloaded the remote jar if there was one, uploaded the jar file,
   * and ran the uploaded jar under the id taken from the stored name, resuming from the newest
   * savepoint of the savepoint directory when one was found and from the given path otherwise.
   */
  lemma DeploySuccessRunsTheUploadedJar(api: FlinkApi, net: Network, fs: FileSystem, d: DeployJob)
    requires DeployRun(api, net, fs, d).value == Pass
    ensures !(|d.savepointDir| > 0 && |d.savepointPath| > 0)
    ensures |d.savepointDir| > 0 ==> Savepoints.LatestSavepoint(fs, d.savepointDir).Ok?
    ensures var resume := if |d.savepointDir| > 0
                          then ResumePath(d, Savepoints.LatestSavepoint(fs, d.savepointDir).value)
                          else d.savepointPath;
            var shipped := d.(savepointPath := resume);
            ShipJar(api, net, shipped).value == Pass &&
            DeployRun(api, net, fs, d).calls ==
              (if |d.savepointDir| > 0 then [ReadDir(TrimTrailingSlash(d.savepointDir))] else []) +
              ShipJar(api, net, shipped).calls
  {
    if |d.savepointDir| == 0 {
      assert d.(savepointPath := d.savepointPath) == d;
    }
  }

  /** A failed download, upload or run is returned as the collaborator reported it. */
  lemma DeployPassesCollaboratorErrorsThrough(api: FlinkApi, net: Network, fs: FileSystem, d: DeployJob)
    requires |d.savepointDir| == 0 && (|d.remoteFilename| > 0 || |d.localFilename| > 0)
    ensures |d.remoteFilename| > 0 && net.downloadFile(d.remoteFilename, d.apiToken, StagingPath).Fail? ==>
              DeployRun(api, net, fs, d).value == net.downloadFile(d.remoteFilename, d.apiToken, StagingPath)
    ensures (|d.remoteFilename| == 0 || net.downloadFile(d.remoteFilename, d.apiToken, StagingPath).Pass?) &&
            api.uploadJar(JarFile(d)).Err? ==>
              DeployRun(api, net, fs, d).value == Fail(api.uploadJar(JarFile(d)).error)
    ensures (|d.remoteFilename| == 0 || net.downloadFile(d.remoteFilename, d.apiToken, StagingPath).Pass?) &&
            api.uploadJar(JarFile(d)).Ok? ==>
              DeployRun(api, net, fs, d).value == api.runJar(RunRequest(d, api.uploadJar(JarFile(d)).value))
  {
  }

  /** A deployment only reads the savepoint directory, downloads, uploads and runs jars. */
  lemma DeployCallsOnlyDeploySteps(api: FlinkApi, net: Network, fs: FileSystem, d: DeployJob)
    ensures forall c :: c in DeployRun(api, net, fs, d).calls ==>
              c.ReadDir? || c.DownloadFile? || c.UploadJar? || c.RunJar?
  {
    if |d.savepointDir| > 0 && |d.savepointPath| == 0 {
      var latest := Savepoints.LatestSavepoint(fs, d.savepointDir);
      if latest.Ok? {
        var rest := ShipJar(api, net, d.(savepointPath := ResumePath(d, latest.value)));
        assert DeployRun(api, net, fs, d).calls == [ReadDir(TrimTrailingSlash(d.savepointDir))] + rest.calls;
      }
    }
  }
}
