/**
 * The legacy `Deploy.execute`: fetch the jar (a remote jar is downloaded to a fixed staging
 * path, a local file takes precedence), upload it through the legacy REST client, look the
 * stored file up in the server's jar list, and run the jar found there. The `flink run`
 * argument list is assembled along the way but is not handed to any collaborator: the run
 * request carries the unsplit program-argument string.
 */
module LegacyDeploy {
  import opened Wrappers
  import opened Strings
  import opened Collaborators

  /** The settings of one legacy deployment. */
  datatype Deploy = Deploy(
    remoteFilename: string,
    apiToken: string,
    localFilename: string,
    entryClass: string,
    parallelism: int,
    jarArgs: string,
    savepointPath: string,
    allowNonRestorableState: bool)

  const StagingPath := "/tmp/job.jar"
  const MissingJarFile := "both properties 'remoteFilename' and 'localFilename' are unspecified"

  function JarNotFound(filename: string): string {
    "Unable to find JAR with the filename: " + filename
  }

  // ---------------------------------------------------------------------------
  // findJarIDForFilename

  /** The id of the first listed jar stored under `filename`. */
  function JarIdFor(filename: string, jars: seq<Jar>): Result<string>
    decreases |jars|
  {
    if jars == [] then Err(JarNotFound(filename))
    else if jars[0].name == filename then Ok(jars[0].id)
    else JarIdFor(filename, jars[1..])
  }

  /**
   * The lookup fails, naming the file, exactly when no listed jar has the name; otherwise it
   * yields the id of the first jar that has it.
   */
  lemma {:induction false} JarIdForIsFirstMatch(filename: string, jars: seq<Jar>)
    ensures JarIdFor(filename, jars).Err? <==> forall i :: 0 <= i < |jars| ==> jars[i].name != filename
    ensures JarIdFor(filename, jars).Err? ==> JarIdFor(filename, jars).error == JarNotFound(filename)
    ensures JarIdFor(filename, jars).Ok? ==>
              exists i :: 0 <= i < |jars| && jars[i].name == filename && JarIdFor(filename, jars).value == jars[i].id &&
                forall j :: 0 <= j < i ==> jars[j].name != filename
    decreases |jars|
  {
    if jars != [] && jars[0].name != filename {
      var rest := jars[1..];
      JarIdForIsFirstMatch(filename, rest);
      assert forall i :: 1 <= i < |jars| ==> jars[i] == rest[i - 1];
      if JarIdFor(filename, rest).Ok? {
        var i :| 0 <= i < |rest| && rest[i].name == filename && JarIdFor(filename, rest).value == rest[i].id &&
                 forall j :: 0 <= j < i ==> rest[j].name != filename;
        assert jars[i + 1] == rest[i];
      }
    }
  }

  /** `findJarIDForFilename` */
  method FindJarIDForFilename(filename: string, jars: seq<Jar>) returns (r: Result<string>)
    ensures r == JarIdFor(filename, jars)
  {
    for i := 0 to |jars|
      invariant JarIdFor(filename, jars[i..]) == JarIdFor(filename, jars)
    {
      assert jars[i..][1..] == jars[i + 1..];
      if jars[i].name == filename {
        return Ok(jars[i].id);
      }
    }
    assert jars[|jars|..] == [];
    return Err(JarNotFound(filename));
  }

  // ---------------------------------------------------------------------------
  // The `flink run` argument list

  /** The non-empty pieces, in order. */
  function NonEmpty(pieces: seq<string>): (r: seq<string>)
    ensures forall p :: p in r ==> p in pieces && p != ""
    decreases |pieces|
  {
    if pieces == [] then []
    else
      var rest := NonEmpty(pieces[1..]);
      if pieces[0] == "" then rest else [pieces[0]] + rest
  }

  /** The pieces written one after the other. */
  function Concat(pieces: seq<string>): string
    decreases |pieces|
  {
    if pieces == [] then "" else pieces[0] + Concat(pieces[1..])
  }

  /** `s` with every occurrence of `c` removed. */
  function Without(s: string, c: char): (r: string)
    ensures c !in r
    decreases |s|
  {
    if s == [] then "" else (if s[0] == c then "" else [s[0]]) + Without(s[1..], c)
  }

  /** The program arguments the list receives: the space-separated pieces, empty ones dropped. */
  function JarArgPieces(jarArgs: string): seq<string> {
    if |jarArgs| != 0 then NonEmpty(Split(jarArgs, ' ')) else []
  }

  /** The argument list `execute` assembles for `flink run`. */
  function RunArgs(d: Deploy): seq<string> {
    ["run"] +
    (if |d.savepointPath| > 0 then ["-s", d.savepointPath] else []) +
    (if d.allowNonRestorableState then ["-n"] else []) +
    JarArgPieces(d.jarArgs)
  }

  /** Dropping empty pieces does not change what they spell. */
  lemma {:induction false} ConcatNonEmpty(pieces: seq<string>)
    ensures Concat(NonEmpty(pieces)) == Concat(pieces)
    decreases |pieces|
  {
    if pieces != [] {
      ConcatNonEmpty(pieces[1..]);
      if pieces[0] != "" {
        assert ([pieces[0]] + NonEmpty(pieces[1..]))[1..] == NonEmpty(pieces[1..]);
      }
    }
  }

  /** Removing a character distributes over concatenation. */
  lemma {:induction false} WithoutAppend(a: string, b: string, c: char)
    ensures Without(a + b, c) == Without(a, c) + Without(b, c)
    decreases |a|
  {
    if a == [] {
      assert a + b == b;
    } else {
      WithoutAppend(a[1..], b, c);
      assert (a + b)[0] == a[0];
      assert (a + b)[1..] == a[1..] + b;
      var head := if a[0] == c then "" else [a[0]];
      assert Without(a + b, c) == head + Without(a[1..] + b, c);
      assert Without(a, c) == head + Without(a[1..], c);
    }
  }

  /** A string without `c` is left as it is. */
  lemma {:induction false} WithoutAbsent(s: string, c: char)
    requires c !in s
    ensures Without(s, c) == s
    decreases |s|
  {
    if s != [] {
      WithoutAbsent(s[1..], c);
      assert s == [s[0]] + s[1..];
    }
  }

  /** Pieces without the separator spell their join with the separators removed. */
  lemma {:induction false} ConcatIsJoinWithout(pieces: seq<string>, sep: char)
    requires forall p :: p in pieces ==> sep !in p
    ensures Concat(pieces) == Without(Join(pieces, sep), sep)
    decreases |pieces|
  {
    if |pieces| == 1 {
      WithoutAbsent(pieces[0], sep);
      assert Concat(pieces) == pieces[0] + Concat(pieces[1..]);
    } else if |pieces| > 1 {
      assert pieces[0] in pieces;
      assert forall p :: p in pieces[1..] ==> p in pieces;
      ConcatIsJoinWithout(pieces[1..], sep);
      WithoutAbsent(pieces[0], sep);
      WithoutAppend(pieces[0] + [sep], Join(pieces[1..], sep), sep);
      WithoutAppend(pieces[0], [sep], sep);
    }
  }

  /**
   * The program arguments in the list are non-empty, contain no space, and spell out the
   * argument string with its spaces removed.
   */
  lemma JarArgPiecesSpellTheArguments(jarArgs: string)
    ensures forall p :: p in JarArgPieces(jarArgs) ==> p != "" && ' ' !in p
    ensures Concat(JarArgPieces(jarArgs)) == Without(jarArgs, ' ')
  {
    if |jarArgs| != 0 {
      SplitPiecesHaveNoSeparator(jarArgs, ' ');
      SplitJoin(jarArgs, ' ');
      ConcatNonEmpty(Split(jarArgs, ' '));
      ConcatIsJoinWithout(Split(jarArgs, ' '), ' ');
    }
  }

  /**
   * The list starts with "run"; "-s" and the savepoint follow exactly when a savepoint is set,
   * then "-n" exactly when non-restorable state is allowed, then the program arguments.
   */
  lemma RunArgsLayout(d: Deploy)
    ensures var args := RunArgs(d);
            var k := if |d.savepointPath| > 0 then 3 else 1;
            var n := if d.allowNonRestorableState then k + 1 else k;
            |args| == n + |JarArgPieces(d.jarArgs)| && args[0] == "run" &&
            (|d.savepointPath| > 0 ==> args[1] == "-s" && args[2] == d.savepointPath) &&
            (d.allowNonRestorableState ==> args[k] == "-n") &&
            args[n..] == JarArgPieces(d.jarArgs)
  {
  }

  /** The argument assembly of `execute`. */
  method AssembleRunArgs(d: Deploy) returns (args: seq<string>)
    ensures args == RunArgs(d)
  {
    args := ["run"];
    if |d.savepointPath| > 0 {
      args := args + ["-s", d.savepointPath];
    }
    if d.allowNonRestorableState {
      args := args + ["-n"];
    }
    ghost var head := args;
    if |d.jarArgs| != 0 {
      var jarArgs := Split(d.jarArgs, ' ');
      for i := 0 to |jarArgs|
        invariant args == head + NonEmpty(jarArgs[..i])
      {
        NonEmptySnoc(jarArgs[..i], jarArgs[i]);
        assert jarArgs[..i + 1] == jarArgs[..i] + [jarArgs[i]];
        if |jarArgs[i]| == 0 {
          continue;
        }
        args := args + [jarArgs[i]];
      }
      assert jarArgs[..|jarArgs|] == jarArgs;
    }
  }

  /** Filtering one more piece. */
  lemma {:induction false} NonEmptySnoc(pieces: seq<string>, p: string)
    ensures NonEmpty(pieces + [p]) == NonEmpty(pieces) + (if p == "" then [] else [p])
    decreases |pieces|
  {
    if pieces == [] {
      assert [] + [p] == [p];
    } else {
      assert (pieces + [p])[1..] == pieces[1..] + [p];
      NonEmptySnoc(pieces[1..], p);
    }
  }

  // ---------------------------------------------------------------------------
  // execute

  /** The file uploaded: the local file when given, else the staged download. */
  function JarFile(d: Deploy): string {
    if |d.localFilename| > 0 then d.localFilename else StagingPath
  }

  /** What `execute` does: its outcome and the calls it makes, in order. */
  function DeployRun(client: LegacyRestClient, net: Network, d: Deploy): Traced<Outcome> {
    if |d.remoteFilename| == 0 && |d.localFilename| == 0 then Traced(Fail(MissingJarFile), [])
    else
      var download := if |d.remoteFilename| > 0 then [DownloadFile(d.remoteFilename, d.apiToken, StagingPath)] else [];
      var downloaded := if |d.remoteFilename| > 0 then net.downloadFile(d.remoteFilename, d.apiToken, StagingPath) else Pass;
      if downloaded.Fail? then Traced(downloaded, download)
      else
        var upload := download + [LegacyUploadJar(JarFile(d))];
        match client.uploadJar(JarFile(d))
        case Err(e) => Traced(Fail(e), upload)
        case Ok(storedName) =>
          var listed := upload + [LegacyRetrieveJars];
          match client.retrieveJars
          case Err(e) => Traced(Fail(e), listed)
          case Ok(jars) =>
            match JarIdFor(storedName, jars)
            case Err(e) => Traced(Fail(e), listed)
            case Ok(jarId) =>
              Traced(client.runJar(jarId, d.jarArgs, d.savepointPath, d.allowNonRestorableState),
                     listed + [LegacyRunJar(jarId, d.jarArgs, d.savepointPath, d.allowNonRestorableState)])
  }

  /** `Deploy.execute` */
  method Execute(client: LegacyRestClient, net: Network, d: Deploy) returns (outcome: Outcome, calls: seq<Call>)
    ensures Traced(outcome, calls) == DeployRun(client, net, d)
  {
    calls := [];
    var args := AssembleRunArgs(d);
    if |d.remoteFilename| == 0 && |d.localFilename| == 0 {
      return Fail(MissingJarFile), calls;
    }
    var filename := "";
    if |d.remoteFilename| > 0 {
      filename := StagingPath;
      calls := calls + [DownloadFile(d.remoteFilename, d.apiToken, filename)];
      var downloaded := net.downloadFile(d.remoteFilename, d.apiToken, filename);
      if downloaded.Fail? {
        return downloaded, calls;
      }
    }
    if |d.localFilename| > 0 {
      filename := d.localFilename;
    }
    calls := calls + [LegacyUploadJar(filename)];
    var uploadResponse := client.uploadJar(filename);
    if uploadResponse.Err? {
      return Fail(uploadResponse.error), calls;
    }
    calls := calls + [LegacyRetrieveJars];
    var jars := client.retrieveJars;
    if jars.Err? {
      return Fail(jars.error), calls;
    }
    var jarId := FindJarIDForFilename(uploadResponse.value, jars.value);
    if jarId.Err? {
      return Fail(jarId.error), calls;
    }
    calls := calls + [LegacyRunJar(jarId.value, d.jarArgs, d.savepointPath, d.allowNonRestorableState)];
    outcome := client.runJar(jarId.value, d.jarArgs, d.savepointPath, d.allowNonRestorableState);
  }

  /** Without a file name nothing is downloaded, uploaded or run. */
  lemma DeployNeedsAJarFile(client: LegacyRestClient, net: Network, d: Deploy)
    requires |d.remoteFilename| == 0 && |d.localFilename| == 0
    ensures DeployRun(client, net, d) == Traced(Fail(MissingJarFile), [])
  {
  }

  /**
   * A remote jar is downloaded to the staging path first; the local file, when given, is the
   * one uploaded all the same.
   */
  lemma DeployUploadsTheLocalFileFirst(client: LegacyRestClient, net: Network, d: Deploy)
    requires |d.remoteFilename| > 0 || |d.localFilename| > 0
    ensures var calls := DeployRun(client, net, d).calls;
            |calls| >= 1 &&
            (|d.remoteFilename| > 0 ==> calls[0] == DownloadFile(d.remoteFilename, d.apiToken, StagingPath)) &&
            (|d.remoteFilename| == 0 ==> calls[0] == LegacyUploadJar(d.localFilename))
    ensures (|d.remoteFilename| == 0 || net.downloadFile(d.remoteFilename, d.apiToken, StagingPath).Pass?) ==>
              LegacyUploadJar(JarFile(d)) in DeployRun(client, net, d).calls
  {
  }

  /**
   * A successful deployment ran the first listed jar stored under the uploaded name, with the
   * unsplit argument string, the savepoint path and the state flag as given.
   */
  lemma DeploySuccessRunsTheListedJar(client: LegacyRestClient, net: Network, d: Deploy)
    requires DeployRun(client, net, d).value == Pass
    ensures |d.remoteFilename| > 0 || |d.localFilename| > 0
    ensures client.uploadJar(JarFile(d)).Ok? && client.retrieveJars.Ok?
    ensures var storedName := client.uploadJar(JarFile(d)).value;
            var jars := client.retrieveJars.value;
            var calls := DeployRun(client, net, d).calls;
            exists i :: 0 <= i < |jars| && jars[i].name == storedName &&
              (forall j :: 0 <= j < i ==> jars[j].name != storedName) &&
              |calls| >= 3 &&
              calls[|calls| - 3..] ==
                [LegacyUploadJar(JarFile(d)), LegacyRetrieveJars,
                 LegacyRunJar(jars[i].id, d.jarArgs, d.savepointPath, d.allowNonRestorableState)] &&
              client.runJar(jars[i].id, d.jarArgs, d.savepointPath, d.allowNonRestorableState) == Pass
  {
    var storedName := client.uploadJar(JarFile(d)).value;
    JarIdForIsFirstMatch(storedName, client.retrieveJars.value);
  }

  /** An uploaded file the server does not list is reported by name, and nothing is run. */
  lemma DeployReportsUnlistedJar(client: LegacyRestClient, net: Network, d: Deploy)
    requires |d.remoteFilename| == 0 && |d.localFilename| > 0
    requires client.uploadJar(d.localFilename).Ok? && client.retrieveJars.Ok?
    requires forall j :: j in client.retrieveJars.value ==> j.name != client.uploadJar(d.localFilename).value
    ensures DeployRun(client, net, d) ==
            Traced(Fail(JarNotFound(client.uploadJar(d.localFilename).value)),
                   [LegacyUploadJar(d.localFilename), LegacyRetrieveJars])
  {
    var jars := client.retrieveJars.value;
    assert forall i :: 0 <= i < |jars| ==> jars[i] in jars;
    JarIdForIsFirstMatch(client.uploadJar(d.localFilename).value, jars);
  }

  /** A deployment only downloads, uploads, lists and runs jars: it never runs a command. */
  lemma DeployCallsOnlyDeploySteps(client: LegacyRestClient, net: Network, d: Deploy)
    ensures forall c :: c in DeployRun(client, net, d).calls ==>
              c.DownloadFile? || c.LegacyUploadJar? || c.LegacyRetrieveJars? || c.LegacyRunJar?
  {
  }
}
