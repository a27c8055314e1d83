# flink-deployer, modelled in Dafny

flink-deployer is a command-line tool that deploys, updates and terminates Apache Flink jobs.
This project models the decision logic of its two generations:

- The current generation (`cmd/cli/operations`, `cmd/cli/flink`, `cmd/cli/main.go`) talks to
  the Flink job manager over its REST API. It covers `Deploy`, `Update` (savepoint, poll,
  cancel, redeploy), `Terminate`, the savepoint locator, the terminate request and its retry
  policy, and the flag checks of the command-line actions.
- The legacy generation (`package main` in `cmd/cli`) drives the `flink` command line. It covers
  the parsing of `flink list -r` output, the savepoint-path extraction, the update and query
  decision tables, and the legacy deployment with its `run` argument list.

Every collaborator is a record of total functions: its answer to every request it can
receive. This covers the REST API, the `flink` and `java` commands, the legacy REST client, the
jar download and the filesystem. Every operation returns its result together with the list of
collaborator calls it made, in order. So "no cancel before a completed savepoint" and "nothing
is uploaded after a failed check" are stated as properties of that list.

Operations that work step by step in the source are methods with loops or early returns
(`FilterRunningJobsByName`, `MonitorSavepointCreation`, `RetrieveLatestSavepoint`,
`ExtractJobs`, `AssembleRunArgs`, the `Execute` methods). Each is proved equal to a
specification function. The decision tables and call orders the source promises are proved as
lemmas about those functions.

Modules, by source file:

| module | models |
|---|---|
| `UpdateOperation` | `cmd/cli/operations/update_job.go` |
| `DeployOperation` | `cmd/cli/operations/deploy.go` |
| `Savepoints` | `cmd/cli/operations/retrieve_savepoint.go` |
| `TerminateOperation` | `cmd/cli/operations/terminate_job.go` |
| `FlinkClient` | `cmd/cli/flink/terminate.go` and `cmd/cli/flink/client.go` |
| `Cli` | `cmd/cli/main.go` |
| `LegacyFlink` | `cmd/cli/flink.go` |
| `LegacyUpdate` | `cmd/cli/updatejob.go` |
| `LegacyDeploy` | `cmd/cli/deploy.go` |
| `LegacyQuery` | `cmd/cli/query.go` |

Supporting modules: `Wrappers` holds `Result`, `Option` and `Outcome`. `Strings` holds prefix,
suffix, split and join, the trailing-slash trim and newline-terminated lines. `Decimal` holds
decimal formatting and Go's `strconv.ParseInt(s, 10, 64)`. `Collaborators` holds the
collaborator records and the call log. `FileSystems` holds directory listings, `Stat` and
`afero.Exists`.

Two regular expressions are modelled exactly, at line level:

- the job-line expression of `ExtractJobs`;
- the savepoint-report expression of `ExtractSavepointPath`.

Neither expression can match a newline, and every match ends with one. So each
newline-terminated line holds at most one match: the leftmost match on that line.

Where the code and its tests or documentation disagree, the model follows the code:

- The legacy `RetrieveLatestSavepoint` returns "" without an error for an empty directory.
  The legacy test expects an error there.
- `cmd/cli/updatejob.go:100-107` builds the legacy deployment with a `runArgs` field that the
  `Deploy` struct does not have. The model ignores `runArgs` and leaves the entry class and
  the parallelism unset ("" and 0).
- `cmd/cli/updatejob.go:141` returns the single result of `Deploy.execute` where two results
  are declared. The model returns only the outcome.

## Model

| member | source | states |
|---|---|---|
| UpdateOperation.FilterRunningJobsByName | cmd/cli/operations/update_job.go:29-36 | the loop returns exactly `RunningWithBase`: the listed jobs that are RUNNING and whose name starts with the base, in listing order |
| UpdateOperation.RunningWithBaseKeepsExactlyMatches | cmd/cli/operations/update_job.go:29-36 | a job is kept if and only if it was listed, its status is "RUNNING" and its name starts with the base |
| UpdateOperation.RunningWithBaseDistributes | cmd/cli/operations/update_job.go:29-36 | the filter is stable: filtering a concatenation concatenates the filtered parts |
| UpdateOperation.FirstCompletedFromIsFirst | cmd/cli/operations/update_job.go:38-59 | the poll chosen is the first one in range that reports "COMPLETED"; when none is chosen, no poll in range reports it |
| UpdateOperation.MonitorSavepointCreation | cmd/cli/operations/update_job.go:38-76 | the poll loop stops at the first poll that reports "COMPLETED"; errors and every other status are retried; when the retry budget runs out it fails with "failed to create savepoint for job ... within N seconds" after `retries + 1` polls |
| UpdateOperation.MonitorSucceedsIffCompleted | cmd/cli/operations/update_job.go:38-76 | the monitor succeeds if and only if some allowed poll reports completion; on success the last poll is the first completed one; on failure it made every allowed poll and reports the timeout |
| UpdateOperation.DeployFor | cmd/cli/operations/update_job.go:96-104 | the deployment built from the update settings has neither a savepoint directory nor a savepoint path |
| UpdateOperation.ReplaceRunningJob | cmd/cli/operations/update_job.go:111-138 | the single-instance path requests a savepoint, polls it, cancels the job and locates the newest savepoint, in that order; the first failure stops it with its own wrapped message |
| UpdateOperation.PlanUpdate | cmd/cli/operations/update_job.go:79-141 | the part of `Update` before the deployment follows the decision table: the checks, the listing, then the branch on 0, 1 or several running instances |
| UpdateOperation.Update | cmd/cli/operations/update_job.go:79-149 | `Update` makes the calls of its plan and then those of `Deploy`; a deployment error is returned verbatim |
| UpdateOperation.UpdateValidatesFirst | cmd/cli/operations/update_job.go:80-85 | an empty job name base fails first and an empty savepoint directory second, both before any call; otherwise the first call lists the jobs |
| UpdateOperation.UpdateReportsRetrieveJobsFailure | cmd/cli/operations/update_job.go:89-92 | a failed listing gives "retrieving jobs failed: cause" and no other call is made |
| UpdateOperation.UpdateWithoutInstance | cmd/cli/operations/update_job.go:106-110 | with no running instance the update fails with "no instance running ..." after only the listing; with fallback it deploys once, with no savepoint directory and no path |
| UpdateOperation.UpdateRefusesSeveralInstances | cmd/cli/operations/update_job.go:139-140 | with two or more running instances the update fails, naming their exact number, after only the listing |
| UpdateOperation.UpdateReplacesTheInstance | cmd/cli/operations/update_job.go:111-148 | with one instance whose savepoint completes, the calls are: listing, savepoint request, polls, cancel, directory listing, deployment; the deployment resumes from the newest savepoint and decides the outcome |
| UpdateOperation.UpdateStopsAtFirstFailure | cmd/cli/operations/update_job.go:111-138 | with one instance, a refused savepoint request, a savepoint that never completes, a failed cancellation or a failed savepoint lookup each end the update with its own message |
| UpdateOperation.PreparationCancelsOnlyAfterCompletedSavepoint | cmd/cli/operations/update_job.go:116-129 | the single-instance path cancels only its own job, with mode "cancel", and only after some allowed poll reported the savepoint completed |
| UpdateOperation.UpdateCancelsOnlyAfterCompletedSavepoint | cmd/cli/operations/update_job.go:105-141 | any cancel an update makes targets the single running instance, and happens only after its savepoint was requested and reported completed |
| DeployOperation.ExtractJarIDFromFilename | cmd/cli/operations/deploy.go:24-27 | the id is a suffix of the name without a slash; either it is the whole name or a slash precedes it |
| DeployOperation.ExtractJarIDIsUnique | cmd/cli/operations/deploy.go:24-27 | only one suffix fits that description, so the id is exactly the text after the last slash |
| DeployOperation.Deploy | cmd/cli/operations/deploy.go:30-91 | `Deploy` makes exactly the calls of `DeployRun`: the conflict check, the savepoint lookup, then the shipment of the jar |
| DeployOperation.Ship | cmd/cli/operations/deploy.go:58-91 | from the jar-file check on: the download, the upload and the run, each stopping at its own error |
| DeployOperation.DeployRefusesConflictingSavepoints | cmd/cli/operations/deploy.go:33-35 | a savepoint directory together with a savepoint path fails with the conflict message before any call |
| DeployOperation.DeployReportsSavepointLookupFailure | cmd/cli/operations/deploy.go:37-48 | a failed lookup in the savepoint directory gives "retrieving the latest savepoint failed: cause" and nothing is uploaded |
| DeployOperation.DeployNeedsAJarFile | cmd/cli/operations/deploy.go:58-60 | with no file name the deployment fails with the missing-file message and makes no download, upload or run |
| DeployOperation.ShipJarSuccess | cmd/cli/operations/deploy.go:62-88 | a successful shipment first downloaded a remote jar to "/tmp/job.jar", and ends with the upload followed by the run of the uploaded jar |
| DeployOperation.DeploySuccessRunsTheUploadedJar | cmd/cli/operations/deploy.go:37-88 | a successful deployment passed its checks and resumed from the newest savepoint of the directory when one was found, else from the given path |
| DeployOperation.DeployPassesCollaboratorErrorsThrough | cmd/cli/operations/deploy.go:62-91 | download, upload and run errors are returned as the collaborator reported them |
| DeployOperation.DeployCallsOnlyDeploySteps | cmd/cli/operations/deploy.go:30-91 | a deployment only lists the savepoint directory, downloads, uploads and runs |
| Savepoints.ScanNewestFindsStrictMaximum | cmd/cli/operations/retrieve_savepoint.go:24-37 | a successful scan read every entry; it yields no file exactly when no entry is newer than the epoch, otherwise an entry of maximal time that is strictly newer than every entry listed before it |
| Savepoints.ScanNewestFailsAtFirstUnreadable | cmd/cli/operations/retrieve_savepoint.go:28-31 | a failed scan fails with the `Stat` error of the first entry that cannot be read |
| Savepoints.ScanNewestKeepsError | cmd/cli/operations/retrieve_savepoint.go:24-37 | once a prefix of the listing fails, the whole scan fails the same way |
| Savepoints.NewestEntry | cmd/cli/operations/retrieve_savepoint.go:24-37 | the running-maximum loop computes the scan and stops at the first unreadable entry |
| Savepoints.RetrieveLatestSavepoint | cmd/cli/operations/retrieve_savepoint.go:10-40 | the locator trims one slash, lists the directory, refuses an empty one and scans the entries |
| Savepoints.LatestSavepointIsNewest | cmd/cli/operations/retrieve_savepoint.go:24-39 | a non-empty result is the directory, a slash and the name of an entry of maximal modification time, the first listed among equals |
| Savepoints.LatestSavepointEmptyOnlyBeforeEpoch | cmd/cli/operations/retrieve_savepoint.go:24-37 | "" is returned only when the directory is non-empty, every entry is readable and none is newer than the epoch |
| Savepoints.LatestSavepointErrors | cmd/cli/operations/retrieve_savepoint.go:15-31 | every error is the listing error, "No savepoints present in directory: " with the trimmed directory, or the first unreadable entry's error |
| Savepoints.LatestSavepointIgnoresTrailingSlash | cmd/cli/operations/retrieve_savepoint.go:11-13 | a directory with one trailing slash gives the same result as without it |
| TerminateOperation.Terminate | cmd/cli/operations/terminate_job.go:16-27 | an empty base fails before any call; otherwise one terminate request, with the base as job id and the mode unchanged; its failure is wrapped as "job \"X\" failed to terminate due to: cause" |
| TerminateOperation.TerminateDependsOnlyOnItsCall | cmd/cli/operations/terminate_job.go:21-26 | the result depends only on the API's answer to that one request |
| FlinkClient.ConstructURL | cmd/cli/flink/client.go:15-17 | the URL is the base URL, one slash and the path, with no normalisation; its length is the base's plus one plus the path's |
| FlinkClient.TerminatePathRoundTrip | cmd/cli/flink/terminate.go:16-21 | the job id, when it has no '?', and the mode can be read back from the path, so different requests get different paths |
| FlinkClient.TerminateURL | cmd/cli/flink/terminate.go:16-25 | the request goes to the base URL followed by "/jobs/" and the job id, and the path names the job and the mode |
| FlinkClient.TerminateAsWritten | cmd/cli/flink/terminate.go:24-31 | as written, the request dereferences a nil response exactly when the exchange failed |
| FlinkClient.TerminateAsWrittenCrashesOnTransportFailure | cmd/cli/flink/terminate.go:27-31 | every failed exchange, whatever its error, crashes the process as written, while the corrected request returns that error |
| FlinkClient.TerminateResponse | cmd/cli/flink/terminate.go:29-40 | only 202 is success; a transport error is returned unchanged; any other status gives "Unexpected response status N with body B" |
| FlinkClient.TerminateResponseAgreesWhereNoCrash | cmd/cli/flink/terminate.go:29-40 | whenever a response arrives, the corrected request and the one as written give the same outcome |
| FlinkClient.RetryPolicy | cmd/cli/flink/terminate.go:46-60 | a context error stops retrying and is returned; a transport error is retried; a missing status or a status above 500 is retried; every other status, 500 included, is final |
| FlinkClient.RetryPolicyStopsAt500 | cmd/cli/flink/terminate.go:55-59 | for every status from 1 on, it is retried if and only if it is above 500 |
| Cli.Reported | cmd/cli/main.go:94-97 | success stays success; an operator error becomes "an error occurred: cause" |
| Cli.Parallelism | cmd/cli/main.go:68-73 | a parallelism of 0 becomes 1; any other value is kept |
| Cli.DeployAction | cmd/cli/main.go:40-102 | the action rejects zero or two file flags, then both savepoint flags, each with its own message; otherwise it submits the settings: the API token only for a remote file, parallelism defaulted, the rest copied |
| Cli.UpdateAction | cmd/cli/main.go:105-171 | the action checks the job name base first, then the file flags, then the savepoint directory; otherwise it submits the settings with the same copying rules |
| Cli.TerminateAction | cmd/cli/main.go:174-197 | the action requires a job name base and accepts only an empty mode, "cancel" or "stop"; it submits the base and the mode unchanged |
| Cli.AcceptedDeploymentGetsPastItsChecks | cmd/cli/main.go:45-90 | settings the deploy action accepts never fail the deployment's own checks: the first call lists the savepoint directory or fetches the jar |
| Cli.AcceptedUpdateListsJobs | cmd/cli/main.go:108-156 | settings the update action accepts always get the update as far as listing the jobs |
| Cli.AcceptedTerminationCallsTheApi | cmd/cli/main.go:177-190 | settings the terminate action accepts always reach the one terminate request |
| Cli.GetAPITimeoutSeconds | cmd/cli/main.go:199-204 | an empty value gives 10; otherwise a 64-bit result, or the syntax or range error of the parse |
| Cli.GetAPITimeoutSecondsReadsDecimal | cmd/cli/main.go:199-204 | every 64-bit integer, written in decimal, is read back as itself |
| Cli.GetAPITimeoutSecondsAcceptsOnlyDecimal | cmd/cli/main.go:199-204 | a set value is accepted as v if and only if it is an optional sign and at least one digit, whose signed value v fits in 64 bits |
| Cli.GetAPITimeoutSecondsRefusesText | cmd/cli/main.go:199-204 | "bla" is refused with `strconv.ParseInt: parsing "bla": invalid syntax` |
| Decimal.ParseInt64Accepts | cmd/cli/main.go:199-204 | the parse gives Ok(v) if and only if the text is an optional sign and a non-empty digit run whose signed value v is in the 64-bit range |
| Decimal.ParseInt64RefusesNoDigits | cmd/cli/main.go:199-204 | the empty text, or a sign alone, is a syntax error |
| Decimal.ParseInt64RefusesNonDigit | cmd/cli/main.go:199-204 | a non-digit after the sign, reached before the digits overflow 64 bits, is a syntax error |
| Decimal.ParseInt64RefusesOutOfRange | cmd/cli/main.go:199-204 | digits whose signed value is outside the 64-bit range are a range error |
| LegacyFlink.JobLineIsRead | cmd/cli/flink.go:11-12 | a job line as `flink list` prints it, after indentation without time-stamp characters, is read back into exactly its id and its name |
| LegacyFlink.FindJobSkipsIndent | cmd/cli/flink.go:11-12 | characters that cannot start a time stamp are skipped in the search for the leftmost match |
| LegacyFlink.NoLinesNoMatches | cmd/cli/flink.go:11-25 | text without a newline holds no job line, so it gives an empty map |
| LegacyFlink.GroupCollectsIdsByName | cmd/cli/flink.go:14-23 | the map's keys are exactly the names of the matches, and each maps to the ids of its matches in output order |
| LegacyFlink.ExtractJobs | cmd/cli/flink.go:10-26 | the loop over the matches builds exactly that grouping |
| LegacyFlink.CollectPrefixedIds | cmd/cli/flink.go:41-47 | the loop over the map, in any order, collects the multiset of ids of the matches whose name starts with the base |
| LegacyFlink.IdsWherePrefixed | cmd/cli/flink.go:42-47 | selecting the names that carry the base selects exactly the prefixed ids |
| LegacyFlink.EveryLineCountsForTheEmptyBase | cmd/cli/flink.go:16-23 | every matching line contributes exactly one id, so the ids number as many as the matching lines |
| LegacyFlink.RetrieveRunningJobIds | cmd/cli/flink.go:28-52 | runs `flink list -r` once; the command error is passed on; "No running jobs" gives none, and takes precedence; under the header it gives the prefixed ids as a multiset; otherwise "flink list seemed to have failed" |
| LegacyFlink.CancelJob | cmd/cli/flink.go:54-60 | an empty id is refused before any command; otherwise one `flink cancel` and its output |
| LegacyFlink.Savepoint | cmd/cli/flink.go:66-75 | the id is checked first, then the target directory, before any command; a command runs if and only if both are given |
| LegacyUpdate.RetrieveLatestSavepoint | cmd/cli/updatejob.go:13-39 | the legacy locator trims one slash, lists the directory and scans it, with no empty-directory error |
| LegacyUpdate.LegacyLatestSavepointOfEmptyDirectory | cmd/cli/updatejob.go:18-38 | an existing empty directory gives "" and no error |
| LegacyUpdate.LegacyLatestSavepointAgreesElsewhere | cmd/cli/updatejob.go:13-39 | apart from the empty directory, the legacy locator agrees with the current one: strict maximum, first among equals, "" before the epoch |
| LegacyUpdate.FirstMarkerIsLeftmost | cmd/cli/updatejob.go:42-43 | the search finds the leftmost occurrence of the report's fixed text, and finds nothing only when it does not occur |
| LegacyUpdate.SavepointReportIsRead | cmd/cli/updatejob.go:42-49 | the report line `flink savepoint` prints yields its own path |
| LegacyUpdate.ExtractWithoutReport | cmd/cli/updatejob.go:45-47 | output with no report line gives "could not extract savepoint path from Flink's output" |
| LegacyUpdate.IndentedReportIsRead | cmd/cli/updatejob.go:42-49 | a report line after an indent with no 'S' still yields its own path |
| LegacyUpdate.ExtractReadsTheReport | cmd/cli/updatejob.go:48-49 | output whose one report line reports `path` gives exactly `path`, the rest of that line after "Path: file:" |
| LegacyUpdate.ExtractRefusesTwoReports | cmd/cli/updatejob.go:50-51 | two report lines give "multiple matches for savepoint found" |
| LegacyUpdate.ExtractNeedsTheNewline | cmd/cli/updatejob.go:42-47 | a report that does not end in a newline is not read |
| LegacyUpdate.CreateSavepointSuccess | cmd/cli/updatejob.go:55-71 | a created savepoint came from one `flink savepoint` whose output reported exactly that path; the path need not exist, but looking it up did not fail |
| LegacyUpdate.CreateSavepointErrors | cmd/cli/updatejob.go:55-71 | each failure is the command's, the extraction's or the lookup's, checked in that order |
| LegacyUpdate.Execute | cmd/cli/updatejob.go:84-142 | `execute` makes exactly the calls of `UpdateRun` and returns its outcome |
| LegacyUpdate.ResumeFromLatest | cmd/cli/updatejob.go:109-124 | with no running instance: locate the newest savepoint, then deploy from it |
| LegacyUpdate.ReplaceInstance | cmd/cli/updatejob.go:125-136 | with one running instance: take a savepoint, cancel the instance, deploy from the savepoint |
| LegacyUpdate.UpdateNeedsBaseAndDirectory | cmd/cli/updatejob.go:85-90 | the base is checked first and the directory second; a command runs if and only if both are given |
| LegacyUpdate.UpdateWithoutInstanceResumesFromLatest | cmd/cli/updatejob.go:109-124 | with no running instance the job is deployed from the newest savepoint of the directory |
| LegacyUpdate.UpdateFromEmptyDirectoryStartsAfresh | cmd/cli/updatejob.go:116-124 | an empty savepoint directory is no error: the job is deployed with no savepoint |
| LegacyUpdate.UpdateOfOneInstanceSavepointsCancelsAndRedeploys | cmd/cli/updatejob.go:125-136 | with one instance: `flink savepoint`, `flink cancel` whatever it reports, then the deployment from the savepoint, in that order |
| LegacyUpdate.UpdateStopsWhenTheSavepointFails | cmd/cli/updatejob.go:129-132 | a failed savepoint ends the update with its error; nothing is cancelled or deployed |
| LegacyUpdate.UpdateRefusesSeveralInstances | cmd/cli/updatejob.go:137-138 | several instances give "Jobname base \"X\" has N instances running" after only the listing |
| LegacyUpdate.UpdateCancelsOnlyAfterASavepoint | cmd/cli/updatejob.go:125-136 | a job is cancelled only when it is the one running instance and a savepoint of it was taken and read back |
| LegacyDeploy.JarIdForIsFirstMatch | cmd/cli/deploy.go:21-30 | the lookup yields the id of the first listed jar with the name; it fails with "Unable to find JAR with the filename: f" exactly when no jar has it |
| LegacyDeploy.FindJarIDForFilename | cmd/cli/deploy.go:21-30 | the loop with early return computes that lookup |
| LegacyDeploy.JarArgPiecesSpellTheArguments | cmd/cli/deploy.go:67-76 | the program arguments in the list are non-empty, contain no space, and spell the argument string with its spaces removed |
| LegacyDeploy.RunArgsLayout | cmd/cli/deploy.go:35-47 | the list starts with "run"; "-s" and the path follow if and only if a savepoint is set; "-n" follows if and only if non-restorable state is allowed; then the program arguments |
| LegacyDeploy.AssembleRunArgs | cmd/cli/deploy.go:35-76 | the step-by-step assembly builds exactly that list |
| LegacyDeploy.Execute | cmd/cli/deploy.go:32-101 | `execute` makes exactly the calls of `DeployRun` and returns its outcome |
| LegacyDeploy.DeployNeedsAJarFile | cmd/cli/deploy.go:49-51 | with no file name it fails before any download or upload |
| LegacyDeploy.DeployUploadsTheLocalFileFirst | cmd/cli/deploy.go:53-80 | a remote jar is downloaded to "/tmp/job.jar" first; the local file, when given, is the one uploaded |
| LegacyDeploy.DeploySuccessRunsTheListedJar | cmd/cli/deploy.go:80-98 | a successful deployment ran the first listed jar stored under the uploaded name, with the unsplit argument string |
| LegacyDeploy.DeployReportsUnlistedJar | cmd/cli/deploy.go:90-93 | an uploaded file that the server does not list is reported by name, and nothing is run |
| LegacyDeploy.DeployCallsOnlyDeploySteps | cmd/cli/deploy.go:32-101 | a deployment only downloads, uploads, lists and runs jars, and never runs a command |
| LegacyQuery.QueryCommandArguments | cmd/cli/query.go:25-33 | the java arguments are "-cp", the jar, the main class, the job id, the address and the port in decimal; the port parses back as itself |
| LegacyQuery.Execute | cmd/cli/query.go:16-44 | `execute` makes exactly the calls of `QueryRun` and returns its result |
| LegacyQuery.QueryRunsJavaOnlyForTheOneInstance | cmd/cli/query.go:22-40 | `java` runs if and only if exactly one instance is running, against that instance; its output or error is returned |
| LegacyQuery.QueryRefusals | cmd/cli/query.go:22-43 | no instance gives "X is not an active running job base name"; several give "X has N instances running" |
| LegacyQuery.QueryPassesListingFailureThrough | cmd/cli/query.go:17-20 | a failed listing is returned as it is, and nothing else runs |

## Left out

- HTTP, JSON and process execution are left out. This covers the REST wrappers under `cmd/cli/flink` other than terminate, `flink_rest_client.go`, `commander.go` and `networking.go`. Each is a function from request to answer in `Collaborators`.
- The terminate request's `CheckRetry` installation, the reading of the response body and its read errors are left out. The body is part of the modelled response.
- UpdateOperation.MonitorSavepointCreation: the exponential back-off is replaced by a retry budget `retries`. Jitter, the float multiplier and the wall clock are not modelled. The 60-second budget survives only in the error message.
- UpdateOperation.MonitorSavepointCreation: the n-th poll's answer is a function of the job, the request id and the poll number. The API's time-dependent state is not modelled.
- FileSystems.Stat and FileSystems.Exists calls are not entered in the call log. Directory listings and the commands are.
- LegacyFlink.RetrieveRunningJobIds: Go's map iteration order is unspecified, so only the multiset of ids is stated. The order across names is not stated. The update and query tables use only the count and, for one id, the id itself.
- `ListJobs` in `cmd/cli/flink.go` (`flink list`) is not modelled, because no modelled operation uses it.
- LegacyUpdate.Execute returns the outcome only. The byte output is always nil in the source. The source's final `return deploy.execute()` does not match the declared results.
- LegacyUpdate.Execute: the `runArgs` setting is dropped, because the legacy `Deploy` has no field to carry it. The entry class and the parallelism stay at their zero values, as in the struct literal.
- The case-0 re-check of the savepoint directory at `cmd/cli/updatejob.go:112-114` is unreachable after the guard at `cmd/cli/updatejob.go:88-90`, so it has no branch in the model.
- LegacyDeploy.Execute assembles the `flink run` argument list before the file-name check. The source interleaves the two. The list is never handed to a collaborator, so the order cannot be observed.
- LegacyQuery.QueryCommandArguments states the round trip of the port only for ports in the 64-bit range, taking Go's `int` as 64 bits.
- Decimal.SyntaxError and Decimal.RangeError put the input between plain double quotes. Go's `strconv.Quote` would also escape quotes, backslashes and control characters in it; that escaping is not modelled.
- UpdateOperation.SavepointTimedOut writes the budget as a decimal integer. Go prints `b.MaxElapsedTime.Seconds()`, a float64, with `%v`, which switches to exponent form ("1e+06") from 10^6 seconds on. The two agree for the 60 seconds the operation uses.
- Logging, `main()`, the flag definitions, environment reads, `ListAction` and the process exit codes are left out.

## Findings

| source | as written | input that shows it | evidently intended | confidence | as-written member | corrected member |
|---|---|---|---|---|---|---|
| cmd/cli/flink/terminate.go:24-31 | `defer res.Body.Close()` runs before the error check, so when the retrying client gives up, the nil response is dereferenced | a job manager that refuses every connection: `Do` returns an error and a nil response | check the error first and return it; touch the body only for a response | not executed | FlinkClient.TerminateAsWritten | FlinkClient.TerminateResponse |
