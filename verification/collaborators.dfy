/**
 * What the deployer talks to: the Flink REST API (current generation), the `flink` command
 * line (legacy generation, through a commander), the legacy REST client and the jar download.
 * Each collaborator is a record of total functions: its answer to every possible request. Every
 * operation of the model returns, next to its result, the list of collaborator calls it made,
 * in order.
 */
module Collaborators {
  import opened Wrappers

  /** A job as the Flink REST API lists it. */
  datatype Job = Job(id: string, name: string, status: string)

  /** The arguments of a run-jar request. */
  datatype JarRun = JarRun(
    jarId: string,
    entryClass: string,
    programArgs: seq<string>,
    parallelism: int,
    savepointPath: string,
    allowNonRestoredState: bool)

  /** A jar known to the legacy REST endpoint. */
  datatype Jar = Jar(id: string, name: string)

  /** An external command and its arguments. */
  datatype Command = Command(name: string, args: seq<string>)

  /** One request made to a collaborator. */
  datatype Call =
    | RetrieveJobs
    | CreateSavepoint(jobId: string, savepointDir: string)
    | MonitorSavepointCreation(jobId: string, requestId: string)
    | Terminate(jobId: string, mode: string)
    | UploadJar(filename: string)
    | RunJar(request: JarRun)
    | DownloadFile(url: string, apiToken: string, targetPath: string)
    | ReadDir(dir: string)
    | RunCommand(command: Command)
    | LegacyUploadJar(filename: string)
    | LegacyRetrieveJars
    | LegacyRunJar(jarId: string, jarArgs: string, savepointPath: string, allowNonRestorableState: bool)

  /** A result together with the calls made to produce it. */
  datatype Traced<+T> = Traced(value: T, calls: seq<Call>)

  /**
   * The Flink REST API. `createSavepoint` answers with the request id of the asynchronous
   * savepoint; `monitorSavepointCreation` answers with the status id of the savepoint, and
   * takes the number of earlier polls so that the answer may change over time.
   */
  datatype FlinkApi = FlinkApi(
    retrieveJobs: Result<seq<Job>>,
    createSavepoint: (string, string) -> Result<string>,
    monitorSavepointCreation: (string, string, nat) -> Result<string>,
    terminate: (string, string) -> Outcome,
    uploadJar: string -> Result<string>,
    runJar: JarRun -> Outcome)

  /** `downloadFile(url, apiToken, targetPath)`. */
  datatype Network = Network(downloadFile: (string, string, string) -> Outcome)

  /** A commander: the combined output of a command, or the error it failed with. */
  datatype Shell = Shell(combinedOutput: Command -> Result<string>)

  /** The legacy REST client; `uploadJar` answers with the file name the server stored. */
  datatype LegacyRestClient = LegacyRestClient(
    uploadJar: string -> Result<string>,
    retrieveJars: Result<seq<Jar>>,
    runJar: (string, string, string, bool) -> Outcome)
}
