/**
 * The legacy generation's use of the `flink` command line: reading the jobs out of the text
 * `flink list -r` prints, selecting the ids of the running jobs of a base name, and the guards
 * of `flink cancel` and `flink savepoint`.
 *
 * The job lines are recognised by the regular expression
 * `[[0-9:.]+ [[0-9:.]+ : ([0-9a-z]+) : (.*) \(([A-Z]+)\)\n`. None of its parts can match a
 * newline and every match ends with one, so each newline-terminated line holds at most one
 * match, the leftmost, and the text after the last newline holds none. Given where a match
 * starts, each part is determined: the time stamps and the id are whole runs of their
 * characters (each is followed by a character outside its class), and the name is everything
 * up to the status, which is the run of capitals between the last " (" and the closing
 * parenthesis that ends the line.
 */
module LegacyFlink {
  import opened Wrappers
  import opened Strings
  import opened Collaborators

  /** The character classes of the expression: `[[0-9:.]`, `[0-9a-z]` and `[A-Z]`. */
  datatype CharClass = TimeChars | IdChars | StatusChars

  predicate InClass(c: char, cls: CharClass) {
    match cls
    case TimeChars => c == '[' || ('0' <= c <= '9') || c == ':' || c == '.'
    case IdChars => ('0' <= c <= '9') || ('a' <= c <= 'z')
    case StatusChars => 'A' <= c <= 'Z'
  }

  /** The end of the run of characters in the class that starts at `i`. */
  function RunEnd(s: string, i: nat, cls: CharClass): (j: nat)
    requires i <= |s|
    ensures i <= j <= |s|
    ensures j < |s| ==> !InClass(s[j], cls)
    decreases |s| - i
  {
    if i == |s| || !InClass(s[i], cls) then i else RunEnd(s, i + 1, cls)
  }

  /** Every character of the run is in the class. */
  lemma {:induction false} RunEndInClass(s: string, i: nat, cls: CharClass)
    requires i <= |s|
    ensures forall k :: i <= k < RunEnd(s, i, cls) ==> InClass(s[k], cls)
    decreases |s| - i
  {
    if i < |s| && InClass(s[i], cls) {
      RunEndInClass(s, i + 1, cls);
    }
  }

  /** The start of the run of characters in the class that ends just before `j`. */
  function RunStart(s: string, j: nat, cls: CharClass): (i: nat)
    requires j <= |s|
    ensures i <= j
    ensures 0 < i ==> !InClass(s[i - 1], cls)
    decreases j
  {
    if j == 0 || !InClass(s[j - 1], cls) then j else RunStart(s, j - 1, cls)
  }

  /** Every character of the run is in the class. */
  lemma {:induction false} RunStartInClass(s: string, j: nat, cls: CharClass)
    requires j <= |s|
    ensures forall k :: RunStart(s, j, cls) <= k < j ==> InClass(s[k], cls)
    decreases j
  {
    if 0 < j && InClass(s[j - 1], cls) {
      RunStartInClass(s, j - 1, cls);
    }
  }

  /** A run is determined by where it starts: it ends at the first character outside the class. */
  lemma {:induction false} RunEndIs(s: string, i: nat, j: nat, cls: CharClass)
    requires i <= j <= |s|
    requires forall k :: i <= k < j ==> InClass(s[k], cls)
    requires j < |s| ==> !InClass(s[j], cls)
    ensures RunEnd(s, i, cls) == j
    decreases j - i
  {
    if i < j {
      RunEndIs(s, i + 1, j, cls);
    }
  }

  /** A run is determined by where it ends. */
  lemma {:induction false} RunStartIs(s: string, i: nat, j: nat, cls: CharClass)
    requires i <= j <= |s|
    requires forall k :: i <= k < j ==> InClass(s[k], cls)
    requires 0 < i ==> !InClass(s[i - 1], cls)
    ensures RunStart(s, j, cls) == i
    decreases j - i
  {
    if i < j {
      RunStartIs(s, i, j - 1, cls);
    }
  }

  /** One job line: the id and the name the regular expression captures. */
  datatype JobMatch = JobMatch(id: string, name: string)

  /** The separator " : " that follows the second time stamp and the id. */
  predicate SeparatorAt(line: string, i: nat) {
    i + 3 <= |line| && line[i] == ' ' && line[i + 1] == ':' && line[i + 2] == ' '
  }

  /**
   * Where the name that starts at `start` ends: the rest of the line must end with " (", at
   * least one capital, and ")".
   */
  function NameEnd(line: string, start: nat): (n: Option<nat>)
    requires start <= |line|
    ensures n.Some? ==>
              start <= n.value && n.value + 4 <= |line| && line[n.value] == ' ' && line[n.value + 1] == '(' &&
              line[|line| - 1] == ')' &&
              forall k :: n.value + 2 <= k < |line| - 1 ==> InClass(line[k], StatusChars)
  {
    if |line| - start < 4 || line[|line| - 1] != ')' then None
    else
      var u := RunStart(line, |line| - 1, StatusChars);
      RunStartInClass(line, |line| - 1, StatusChars);
      if u == |line| - 1 || u < start + 2 || line[u - 2] != ' ' || line[u - 1] != '(' then None
      else Some(u - 2)
  }

  /** A name followed by a non-empty status in parentheses is read back whole. */
  lemma NameEndOf(line: string, start: nat, name: string, status: string)
    requires start <= |line| && line[start..] == name + " (" + status + ")"
    requires |status| > 0 && forall k :: 0 <= k < |status| ==> InClass(status[k], StatusChars)
    ensures NameEnd(line, start) == Some(start + |name|)
  {
    var rest := name + " (" + status + ")";
    var u := start + |name| + 2;
    assert forall k :: start <= k < |line| ==> line[k] == rest[k - start];
    assert forall k :: u <= k < |line| - 1 ==> line[k] == status[k - u];
    assert line[u - 1] == '(' && line[u - 2] == ' ';
    RunStartIs(line, u, |line| - 1, StatusChars);
  }

  /** The match of the regular expression starting at `p`, if there is one: first the two time stamps. */
  function MatchAt(line: string, p: nat): Option<JobMatch>
    requires p <= |line|
  {
    var t1 := RunEnd(line, p, TimeChars);
    if t1 == p || t1 == |line| || line[t1] != ' ' then None else MatchAfterFirstStamp(line, t1 + 1)
  }

  function MatchAfterFirstStamp(line: string, q: nat): Option<JobMatch>
    requires q <= |line|
  {
    var t2 := RunEnd(line, q, TimeChars);
    if t2 == q || !SeparatorAt(line, t2) then None else MatchFromId(line, t2 + 3)
  }

  /** Then the id, its separator, and the name and status up to the end of the line. */
  function MatchFromId(line: string, q: nat): Option<JobMatch>
    requires q <= |line|
  {
    var idEnd := RunEnd(line, q, IdChars);
    if idEnd == q || !SeparatorAt(line, idEnd) then None
    else
      match NameEnd(line, idEnd + 3)
      case None => None
      case Some(n) => Some(JobMatch(line[q..idEnd], line[idEnd + 3..n]))
  }

  /** The leftmost match in `line` at or after `p`. */
  function FindJob(line: string, p: nat): Option<JobMatch>
    requires p <= |line|
    decreases |line| - p
  {
    if p == |line| then None
    else
      match MatchAt(line, p)
      case Some(m) => Some(m)
      case None => FindJob(line, p + 1)
  }

  /** The matches of the job-line expression in `output`, in order: one per matching line. */
  function MatchesIn(lines: seq<string>): seq<JobMatch>
    decreases |lines|
  {
    if lines == [] then []
    else
      var front := MatchesIn(lines[..|lines| - 1]);
      match FindJob(lines[|lines| - 1], 0)
      case Some(m) => front + [m]
      case None => front
  }

  function JobMatches(output: string): seq<JobMatch> {
    MatchesIn(TerminatedLines(output))
  }

  /** A line that starts with no time-stamp character before the first time stamp. */
  lemma {:induction false} FindJobSkipsIndent(line: string, p: nat, start: nat)
    requires p <= start <= |line|
    requires forall k :: p <= k < start ==> !InClass(line[k], TimeChars)
    ensures FindJob(line, p) == FindJob(line, start)
    decreases start - p
  {
    if p < start {
      assert RunEnd(line, p, TimeChars) == p;
      FindJobSkipsIndent(line, p + 1, start);
    }
  }

  /** The id and the name of a match, located by where the id ends. */
  lemma MatchFromIdFields(line: string, q: nat, e: nat, n: nat)
    requires q < e <= |line| && RunEnd(line, q, IdChars) == e && SeparatorAt(line, e)
    requires NameEnd(line, e + 3) == Some(n)
    ensures MatchFromId(line, q) == Some(JobMatch(line[q..e], line[e + 3..n]))
  {
  }

  /** The second time stamp of a match, located by where it ends. */
  lemma MatchAfterFirstStampFields(line: string, q: nat, e: nat)
    requires q < e <= |line| && RunEnd(line, q, TimeChars) == e && SeparatorAt(line, e)
    ensures MatchAfterFirstStamp(line, q) == MatchFromId(line, e + 3)
  {
  }

  /** The first time stamp of a match, located by where it ends. */
  lemma MatchAtFields(line: string, p: nat, e: nat)
    requires p < e < |line| && RunEnd(line, p, TimeChars) == e
    requires line[e] == ' '
    ensures MatchAt(line, p) == MatchAfterFirstStamp(line, e + 1)
  {
  }

  /** A match whose time stamps end at the given positions is the one read from the id on. */
  lemma MatchAtStamps(line: string, p: nat, e1: nat, e2: nat, m: JobMatch)
    requires p < e1 && e1 + 1 < e2 <= |line|
    requires RunEnd(line, p, TimeChars) == e1 && line[e1] == ' '
    requires RunEnd(line, e1 + 1, TimeChars) == e2 && SeparatorAt(line, e2)
    requires MatchFromId(line, e2 + 3) == Some(m)
    ensures MatchAt(line, p) == Some(m)
  {
    MatchAtFields(line, p, e1);
    MatchAfterFirstStampFields(line, e1 + 1, e2);
  }

  /** A match found at a position is the leftmost one from there. */
  lemma FindJobAt(line: string, p: nat, m: JobMatch)
    requires p < |line| && MatchAt(line, p) == Some(m)
    ensures FindJob(line, p) == Some(m)
  {
  }

  /** The id and the name are read back from the text that follows the time stamps. */
  lemma IdAndNameAreRead(line: string, q: nat, e: nat, id: string, name: string, status: string)
    requires q < e && e + 3 <= |line| && line[q..e] == id
    requires forall k :: 0 <= k < |id| ==> InClass(id[k], IdChars)
    requires line[e..e + 3] == " : "
    requires line[e + 3..] == name + " (" + status + ")"
    requires |status| > 0 && forall k :: 0 <= k < |status| ==> InClass(status[k], StatusChars)
    ensures MatchFromId(line, q) == Some(JobMatch(id, name))
  {
    NameEndOf(line, e + 3, name, status);
    assert line[e + 3..e + 3 + |name|] == (name + " (" + status + ")")[..|name|] == name;
    assert forall k :: q <= k < e ==> line[k] == id[k - q];
    RunEndIs(line, q, e, IdChars);
    assert line[e] == line[e..e + 3][0];
    assert line[e + 1] == line[e..e + 3][1];
    assert line[e + 2] == line[e..e + 3][2];
    MatchFromIdFields(line, q, e, e + 3 + |name|);
  }

  /** A job line as `flink list` prints it. */
  function JobLine(indent: string, t1: string, t2: string, id: string, name: string, status: string): string {
    indent + t1 + " " + t2 + " : " + id + " : " + name + " (" + status + ")"
  }

  /** Where the indentation and the time stamps of a printed job line sit. */
  lemma JobLineStampsLayout(indent: string, t1: string, t2: string, id: string, name: string, status: string)
    ensures var line := JobLine(indent, t1, t2, id, name, status);
            var b := |indent| + |t1|;
            var d := b + 1 + |t2|;
            d + 3 <= |line| &&
            (forall k :: 0 <= k < |indent| ==> line[k] == indent[k]) &&
            (forall k :: |indent| <= k < b ==> line[k] == t1[k - |indent|]) &&
            line[b] == ' ' &&
            (forall k :: b + 1 <= k < d ==> line[k] == t2[k - b - 1]) &&
            SeparatorAt(line, d)
  {
  }

  /** Where the id, its separator and the name of a printed job line sit. */
  lemma JobLineIdLayout(indent: string, t1: string, t2: string, id: string, name: string, status: string)
    ensures var line := JobLine(indent, t1, t2, id, name, status);
            var d := |indent| + |t1| + 1 + |t2|;
            var f := d + 3 + |id|;
            f + 3 <= |line| && line[d + 3..f] == id && line[f..f + 3] == " : " &&
            line[f + 3..] == name + " (" + status + ")"
  {
    var line := JobLine(indent, t1, t2, id, name, status);
    var e := indent + t1 + " " + t2 + " : ";
    var g := e + id + " : ";
    assert line == g + (name + " (" + status + ")");
    assert line[..|g|] == g;
    assert g[|e|..|e| + |id|] == id;
  }

  /** The time stamps of a line laid out as a job line end where their runs end. */
  lemma JobLineStamps(line: string, a: nat, b: nat, d: nat)
    requires a < b && b + 1 < d && d <= |line|
    requires forall k :: a <= k < b ==> InClass(line[k], TimeChars)
    requires line[b] == ' '
    requires forall k :: b + 1 <= k < d ==> InClass(line[k], TimeChars)
    requires d < |line| ==> line[d] == ' '
    ensures RunEnd(line, a, TimeChars) == b && RunEnd(line, b + 1, TimeChars) == d
  {
    RunEndIs(line, a, b, TimeChars);
    RunEndIs(line, b + 1, d, TimeChars);
  }

  /** A line whose parts sit at the given positions is read back into its id and its name. */
  lemma JobLineAt(line: string, a: nat, b: nat, d: nat, f: nat, id: string, name: string, status: string)
    requires a < b && b + 1 < d && d + 3 < f && f + 3 <= |line|
    requires forall k :: 0 <= k < a ==> !InClass(line[k], TimeChars)
    requires RunEnd(line, a, TimeChars) == b && line[b] == ' '
    requires RunEnd(line, b + 1, TimeChars) == d
    requires SeparatorAt(line, d) && line[d + 3..f] == id && line[f..f + 3] == " : "
    requires forall k :: 0 <= k < |id| ==> InClass(id[k], IdChars)
    requires line[f + 3..] == name + " (" + status + ")"
    requires |status| > 0 && forall k :: 0 <= k < |status| ==> InClass(status[k], StatusChars)
    ensures FindJob(line, 0) == Some(JobMatch(id, name))
  {
    IdAndNameAreRead(line, d + 3, f, id, name, status);
    MatchAtStamps(line, a, b, d, JobMatch(id, name));
    FindJobAt(line, a, JobMatch(id, name));
    FindJobSkipsIndent(line, 0, a);
  }

  /**
   * A line as `flink list` prints it, after any indentation that holds no time-stamp character,
   * is read back into exactly its id and its name.
   */
  lemma JobLineIsRead(indent: string, t1: string, t2: string, id: string, name: string, status: string)
    requires forall k :: 0 <= k < |indent| ==> !InClass(indent[k], TimeChars)
    requires |t1| > 0 && forall k :: 0 <= k < |t1| ==> InClass(t1[k], TimeChars)
    requires |t2| > 0 && forall k :: 0 <= k < |t2| ==> InClass(t2[k], TimeChars)
    requires |id| > 0 && forall k :: 0 <= k < |id| ==> InClass(id[k], IdChars)
    requires |status| > 0 && forall k :: 0 <= k < |status| ==> InClass(status[k], StatusChars)
    ensures FindJob(JobLine(indent, t1, t2, id, name, status), 0) == Some(JobMatch(id, name))
  {
    var line := JobLine(indent, t1, t2, id, name, status);
    JobLineStampsLayout(indent, t1, t2, id, name, status);
    JobLineIdLayout(indent, t1, t2, id, name, status);
    var b := |indent| + |t1|;
    var d := b + 1 + |t2|;
    JobLineStamps(line, |indent|, b, d);
    JobLineAt(line, |indent|, b, d, d + 3 + |id|, id, name, status);
  }

  /** Text without a newline holds no job line, like the output of a listing without jobs. */
  lemma NoLinesNoMatches(output: string)
    requires '\n' !in output
    ensures JobMatches(output) == []
  {
    SplitWithoutSeparator(output, '\n');
  }

  // ---------------------------------------------------------------------------
  // ExtractJobs

  /** The ids of the matches with the given name, in output order. */
  function IdsNamed(ms: seq<JobMatch>, name: string): seq<string>
    decreases |ms|
  {
    if ms == [] then []
    else
      var m := ms[|ms| - 1];
      IdsNamed(ms[..|ms| - 1], name) + (if m.name == name then [m.id] else [])
  }

  /** The map `ExtractJobs` builds: each name to the ids of its lines, in the order of the lines. */
  function Group(ms: seq<JobMatch>): map<string, seq<string>>
    decreases |ms|
  {
    if ms == [] then map[]
    else
      var jobs := Group(ms[..|ms| - 1]);
      var m := ms[|ms| - 1];
      jobs[m.name := (if m.name in jobs then jobs[m.name] else []) + [m.id]]
  }

  /** The names are exactly those of the matches, and each maps to the ids of its matches in order. */
  lemma {:induction false} GroupCollectsIdsByName(ms: seq<JobMatch>)
    ensures forall name :: name in Group(ms) <==> IdsNamed(ms, name) != []
    ensures forall name :: name in Group(ms) ==> Group(ms)[name] == IdsNamed(ms, name)
    decreases |ms|
  {
    if ms != [] {
      GroupCollectsIdsByName(ms[..|ms| - 1]);
    }
  }

  /** The ids grouped under one name are those of its matches, in order. */
  lemma GroupedIds(ms: seq<JobMatch>, name: string)
    requires name in Group(ms)
    ensures Group(ms)[name] == IdsNamed(ms, name)
  {
    GroupCollectsIdsByName(ms);
  }

  /** `ExtractJobs` */
  method ExtractJobs(output: string) returns (jobs: map<string, seq<string>>)
    ensures jobs == Group(JobMatches(output))
  {
    var jobNameMatches := JobMatches(output);
    jobs := map[];
    for i := 0 to |jobNameMatches|
      invariant jobs == Group(jobNameMatches[..i])
    {
      assert jobNameMatches[..i + 1][..i] == jobNameMatches[..i];
      var jobId := jobNameMatches[i].id;
      var jobName := jobNameMatches[i].name;
      if jobName in jobs {
        jobs := jobs[jobName := jobs[jobName] + [jobId]];
      } else {
        assert [] + [jobId] == [jobId];
        jobs := jobs[jobName := [jobId]];
      }
    }
    assert jobNameMatches[..|jobNameMatches|] == jobNameMatches;
  }

  // ---------------------------------------------------------------------------
  // RetrieveRunningJobIds

  const ListRunning := Command("flink", ["list", "-r"])
  const NoRunningJobs := "No running jobs"
  const RunningHeader := "Running/Restarting Jobs"
  const ListFailed := "flink list seemed to have failed"

  /** The ids of the matches whose name starts with the base, in output order. */
  function PrefixedIds(ms: seq<JobMatch>, jobNameBase: string): seq<string>
    decreases |ms|
  {
    if ms == [] then []
    else
      var m := ms[|ms| - 1];
      PrefixedIds(ms[..|ms| - 1], jobNameBase) + (if HasPrefix(m.name, jobNameBase) then [m.id] else [])
  }

  /** The ids of the matches whose name is in `names`, in output order. */
  function IdsWhere(ms: seq<JobMatch>, names: set<string>): seq<string>
    decreases |ms|
  {
    if ms == [] then []
    else
      var m := ms[|ms| - 1];
      IdsWhere(ms[..|ms| - 1], names) + (if m.name in names then [m.id] else [])
  }

  /** With no name taken in, nothing is selected. */
  lemma {:induction false} IdsWhereNoName(ms: seq<JobMatch>)
    ensures IdsWhere(ms, {}) == []
    decreases |ms|
  {
    if ms != [] {
      IdsWhereNoName(ms[..|ms| - 1]);
    }
  }

  /** Taking one more name in adds the ids of that name. */
  lemma {:induction false} IdsWhereAddName(ms: seq<JobMatch>, names: set<string>, name: string)
    requires name !in names
    ensures multiset(IdsWhere(ms, names + {name})) == multiset(IdsWhere(ms, names)) + multiset(IdsNamed(ms, name))
    decreases |ms|
  {
    if ms != [] {
      IdsWhereAddName(ms[..|ms| - 1], names, name);
    }
  }

  /** Selecting exactly the names that carry the base selects the prefixed ids. */
  lemma {:induction false} IdsWherePrefixed(ms: seq<JobMatch>, names: set<string>, jobNameBase: string)
    requires forall m :: m in ms ==> (m.name in names <==> HasPrefix(m.name, jobNameBase))
    ensures IdsWhere(ms, names) == PrefixedIds(ms, jobNameBase)
    decreases |ms|
  {
    if ms != [] {
      assert ms[|ms| - 1] in ms;
      assert forall m :: m in ms[..|ms| - 1] ==> m in ms;
      IdsWherePrefixed(ms[..|ms| - 1], names, jobNameBase);
    }
  }

  /** Every match's name is a key of the grouped map. */
  lemma {:induction false} GroupHasEveryName(ms: seq<JobMatch>)
    ensures forall m :: m in ms ==> m.name in Group(ms)
    decreases |ms|
  {
    if ms != [] {
      GroupHasEveryName(ms[..|ms| - 1]);
      assert forall m :: m in ms ==> m in ms[..|ms| - 1] || m == ms[|ms| - 1];
    }
  }

  /**
   * What `RetrieveRunningJobIds` finds, with the ids in output order: the command's error,
   * nothing when no job runs, the prefixed ids under the header, or a failure otherwise.
   */
  function RunningJobIds(shell: Shell, jobNameBase: string): Result<seq<string>> {
    match shell.combinedOutput(ListRunning)
    case Err(e) => Err(e)
    case Ok(output) =>
      if Contains(output, NoRunningJobs) then Ok([])
      else if Contains(output, RunningHeader) then Ok(PrefixedIds(JobMatches(output), jobNameBase))
      else Err(ListFailed)
  }

  /**
   * The loop of `RetrieveRunningJobIds` over the grouped map: the ids of every name that starts
   * with the base. The names are visited in an order Go leaves unspecified, so only the ids, not
   * their order across names, are determined.
   */
  method CollectPrefixedIds(jobs: map<string, seq<string>>, jobNameBase: string, ghost ms: seq<JobMatch>)
    returns (jobIds: seq<string>)
    requires jobs == Group(ms)
    ensures multiset(jobIds) == multiset(PrefixedIds(ms, jobNameBase))
  {
    IdsWhereNoName(ms);
    jobIds := [];
    var remaining := jobs.Keys;
    ghost var visited: set<string> := {};
    ghost var selected: set<string> := {};
    while remaining != {}
      invariant remaining + visited == jobs.Keys && remaining !! visited
      invariant forall name :: name in selected <==> name in visited && HasPrefix(name, jobNameBase)
      invariant multiset(jobIds) == multiset(IdsWhere(ms, selected))
      decreases |remaining|
    {
      var jobName :| jobName in remaining;
      if HasPrefix(jobName, jobNameBase) {
        GroupedIds(ms, jobName);
        IdsWhereAddName(ms, selected, jobName);
        jobIds := jobIds + jobs[jobName];
        selected := selected + {jobName};
      }
      remaining := remaining - {jobName};
      visited := visited + {jobName};
    }
    GroupHasEveryName(ms);
    IdsWherePrefixed(ms, selected, jobNameBase);
  }

  /** `RetrieveRunningJobIds` */
  method RetrieveRunningJobIds(shell: Shell, jobNameBase: string) returns (r: Result<seq<string>>, calls: seq<Call>)
    ensures calls == [RunCommand(ListRunning)]
    ensures r.Err? <==> RunningJobIds(shell, jobNameBase).Err?
    ensures r.Err? ==> r == RunningJobIds(shell, jobNameBase)
    ensures r.Ok? ==> multiset(r.value) == multiset(RunningJobIds(shell, jobNameBase).value)
  {
    calls := [RunCommand(ListRunning)];
    var out := shell.combinedOutput(ListRunning);
    if out.Err? {
      return Err(out.error), calls;
    }
    var output := out.value;
    if Contains(output, NoRunningJobs) {
      return Ok([]), calls;
    } else if Contains(output, RunningHeader) {
      var jobs := ExtractJobs(output);
      var jobIds := CollectPrefixedIds(jobs, jobNameBase, JobMatches(output));
      return Ok(jobIds), calls;
    } else {
      return Err(ListFailed), calls;
    }
  }

  /** Two collections of the same ids have the same size and, when single, the same id. */
  lemma SameIds(a: seq<string>, b: seq<string>)
    requires multiset(a) == multiset(b)
    ensures |a| == |b|
    ensures |a| == 1 ==> a[0] == b[0]
  {
    assert |a| == |multiset(a)| && |b| == |multiset(b)|;
    if |a| == 1 {
      assert a[0] in multiset(b);
    }
  }

  /** With an empty base every job line contributes its id: as many ids as matching lines. */
  lemma {:induction false} EveryLineCountsForTheEmptyBase(ms: seq<JobMatch>)
    ensures PrefixedIds(ms, "") == seq(|ms|, i requires 0 <= i < |ms| => ms[i].id)
    decreases |ms|
  {
    if ms != [] {
      EveryLineCountsForTheEmptyBase(ms[..|ms| - 1]);
    }
  }

  // ---------------------------------------------------------------------------
  // CancelJob and Savepoint

  const MissingJobId := "unspecified argument 'jobId'"
  const MissingSavepointTargetDir := "unspecified argument 'savepointTargetDir'"

  function CancelCommand(jobId: string): Command { Command("flink", ["cancel", jobId]) }

  function SavepointCommand(jobId: string, savepointTargetDir: string): Command {
    Command("flink", ["savepoint", jobId, savepointTargetDir])
  }

  /** `CancelJob`: an empty id is refused without running anything; otherwise `flink cancel`'s output. */
  function CancelJob(shell: Shell, jobId: string): (r: Traced<Result<string>>)
    ensures |jobId| == 0 ==> r == Traced(Err(MissingJobId), [])
    ensures |jobId| > 0 ==> r == Traced(shell.combinedOutput(CancelCommand(jobId)), [RunCommand(CancelCommand(jobId))])
  {
    if |jobId| == 0 then Traced(Err(MissingJobId), [])
    else Traced(shell.combinedOutput(CancelCommand(jobId)), [RunCommand(CancelCommand(jobId))])
  }

  /**
   * `Savepoint`: the id is checked, then the target directory, before anything runs; otherwise
   * `flink savepoint`'s output.
   */
  function Savepoint(shell: Shell, jobId: string, savepointTargetDir: string): (r: Traced<Result<string>>)
    ensures |jobId| == 0 ==> r == Traced(Err(MissingJobId), [])
    ensures |jobId| > 0 && |savepointTargetDir| == 0 ==> r == Traced(Err(MissingSavepointTargetDir), [])
    ensures r.calls != [] <==> |jobId| > 0 && |savepointTargetDir| > 0
    ensures r.calls != [] ==>
              r == Traced(shell.combinedOutput(SavepointCommand(jobId, savepointTargetDir)),
                          [RunCommand(SavepointCommand(jobId, savepointTargetDir))])
  {
    if |jobId| == 0 then Traced(Err(MissingJobId), [])
    else if |savepointTargetDir| == 0 then Traced(Err(MissingSavepointTargetDir), [])
    else
      var command := SavepointCommand(jobId, savepointTargetDir);
      Traced(shell.combinedOutput(command), [RunCommand(command)])
  }
}
