/**
 * `retrieveLatestSavepoint`: the newest file of a savepoint directory, by modification time.
 * The scan keeps a running maximum that starts at time 0 with no file and is replaced only by a
 * strictly newer entry, so the first listed of equally new entries wins and entries dated at or
 * before the Unix epoch are never chosen.
 */
module Savepoints {
  import opened Wrappers
  import opened Strings
  import opened FileSystems

  /** The newest entry seen so far: its modification time and its path. */
  datatype Newest = Newest(time: int, path: string)

  function EntryPath(dir: string, name: string): (path: string)
    ensures |path| > 0
  {
    dir + "/" + name
  }

  /** The running maximum after scanning `names` in listing order, or the first `Stat` error. */
  function ScanNewest(fs: FileSystem, dir: string, names: seq<string>): Result<Newest>
    decreases |names|
  {
    if names == [] then Ok(Newest(0, ""))
    else
      match ScanNewest(fs, dir, names[..|names| - 1])
      case Err(e) => Err(e)
      case Ok(acc) =>
        var path := EntryPath(dir, names[|names| - 1]);
        match Stat(fs, path)
        case Err(e) => Err(e)
        case Ok(t) => if t > acc.time then Ok(Newest(t, path)) else Ok(acc)
  }

  predicate StatsOk(fs: FileSystem, dir: string, names: seq<string>) {
    forall i :: 0 <= i < |names| ==> Stat(fs, EntryPath(dir, names[i])).Ok?
  }

  function MTime(fs: FileSystem, dir: string, name: string): int
    requires Stat(fs, EntryPath(dir, name)).Ok?
  {
    Stat(fs, EntryPath(dir, name)).value
  }

  /**
   * A successful scan has read every entry. It yields no file exactly when no entry is newer
   * than the epoch; otherwise it yields an entry whose time is the maximum, strictly greater
   * than that of every entry listed before it.
   */
  lemma {:induction false} ScanNewestFindsStrictMaximum(fs: FileSystem, dir: string, names: seq<string>)
    requires ScanNewest(fs, dir, names).Ok?
    ensures StatsOk(fs, dir, names)
    ensures var n := ScanNewest(fs, dir, names).value;
            (n.path == "" && n.time == 0 &&
              forall j :: 0 <= j < |names| ==> MTime(fs, dir, names[j]) <= 0) ||
            (exists i :: 0 <= i < |names| && n.path == EntryPath(dir, names[i]) &&
              n.time == MTime(fs, dir, names[i]) > 0 &&
              (forall j :: 0 <= j < |names| ==> MTime(fs, dir, names[j]) <= n.time) &&
              (forall j :: 0 <= j < i ==> MTime(fs, dir, names[j]) < n.time))
    decreases |names|
  {
    if names != [] {
      var front := names[..|names| - 1];
      var last := names[|names| - 1];
      ScanNewestFindsStrictMaximum(fs, dir, front);
      var acc := ScanNewest(fs, dir, front).value;
      assert forall j :: 0 <= j < |front| ==> names[j] == front[j];
      assert StatsOk(fs, dir, names);
      var t := MTime(fs, dir, last);
      var n := ScanNewest(fs, dir, names).value;
      if t > acc.time {
        assert n == Newest(t, EntryPath(dir, last));
        var k := |names| - 1;
        assert forall j :: 0 <= j < k ==> MTime(fs, dir, names[j]) <= acc.time;
      } else {
        assert n == acc;
        if acc.path != "" {
          var i :| 0 <= i < |front| && acc.path == EntryPath(dir, front[i]) &&
                   acc.time == MTime(fs, dir, front[i]) > 0 &&
                   (forall j :: 0 <= j < |front| ==> MTime(fs, dir, front[j]) <= acc.time) &&
                   (forall j :: 0 <= j < i ==> MTime(fs, dir, front[j]) < acc.time);
          assert n.path == EntryPath(dir, names[i]);
        }
      }
    }
  }

  /** A failed scan fails with the error of the first entry that cannot be read. */
  lemma {:induction false} ScanNewestFailsAtFirstUnreadable(fs: FileSystem, dir: string, names: seq<string>)
    requires ScanNewest(fs, dir, names).Err?
    ensures exists i :: 0 <= i < |names| &&
              Stat(fs, EntryPath(dir, names[i])) == Err(ScanNewest(fs, dir, names).error) &&
              StatsOk(fs, dir, names[..i])
    decreases |names|
  {
    var front := names[..|names| - 1];
    var k := |names| - 1;
    assert names[..k] == front;
    if ScanNewest(fs, dir, front).Err? {
      ScanNewestFailsAtFirstUnreadable(fs, dir, front);
      var i :| 0 <= i < |front| &&
               Stat(fs, EntryPath(dir, front[i])) == Err(ScanNewest(fs, dir, front).error) &&
               StatsOk(fs, dir, front[..i]);
      assert front[..i] == names[..i];
      assert front[i] == names[i];
    } else {
      ScanNewestFindsStrictMaximum(fs, dir, front);
    }
  }

  /** Once the scan of a prefix has failed, the scan of the whole listing fails the same way. */
  lemma {:induction false} ScanNewestKeepsError(fs: FileSystem, dir: string, names: seq<string>, k: nat)
    requires k <= |names| && ScanNewest(fs, dir, names[..k]).Err?
    ensures ScanNewest(fs, dir, names) == ScanNewest(fs, dir, names[..k])
    decreases |names| - k
  {
    if k < |names| {
      assert names[..k + 1][..k] == names[..k];
      ScanNewestKeepsError(fs, dir, names, k + 1);
    } else {
      assert names[..k] == names;
    }
  }

  /** The scan loop of `retrieveLatestSavepoint`: it stops at the first entry `Stat` cannot read. */
  method NewestEntry(fs: FileSystem, dir: string, names: seq<string>) returns (r: Result<Newest>)
    ensures r == ScanNewest(fs, dir, names)
  {
    var newestFile := "";
    var newestTime := 0;
    var i := 0;
    while i < |names|
      invariant 0 <= i <= |names|
      invariant ScanNewest(fs, dir, names[..i]) == Ok(Newest(newestTime, newestFile))
    {
      var filePath := dir + "/" + names[i];
      var fi := Stat(fs, filePath);
      assert names[..i + 1][..i] == names[..i];
      if fi.Err? {
        ScanNewestKeepsError(fs, dir, names, i + 1);
        return Err(fi.error);
      }
      var currTime := fi.value;
      if currTime > newestTime {
        newestTime := currTime;
        newestFile := filePath;
      }
      i := i + 1;
    }
    assert names[..i] == names;
    return Ok(Newest(newestTime, newestFile));
  }

  /**
   * The path of the newest savepoint in `dir` after one trailing slash is removed; "" when no
   * entry is newer than the epoch; an error for a missing directory, an empty directory or an
   * entry that cannot be read.
   */
  function LatestSavepoint(fs: FileSystem, dir: string): Result<string> {
    var d := TrimTrailingSlash(dir);
    match ReadDir(fs, d)
    case Err(e) => Err(e)
    case Ok(names) =>
      if |names| == 0 then Err("No savepoints present in directory: " + d)
      else
        match ScanNewest(fs, d, names)
        case Err(e) => Err(e)
        case Ok(n) => Ok(n.path)
  }

  /** `retrieveLatestSavepoint` */
  method RetrieveLatestSavepoint(fs: FileSystem, dir: string) returns (r: Result<string>)
    ensures r == LatestSavepoint(fs, dir)
  {
    var d := dir;
    if HasSuffix(d, "/") {
      d := TrimTrailingSlash(d);
    }
    var files := ReadDir(fs, d);
    if files.Err? {
      return Err(files.error);
    }
    if |files.value| == 0 {
      return Err("No savepoints present in directory: " + d);
    }
    var newest := NewestEntry(fs, d, files.value);
    if newest.Err? {
      return Err(newest.error);
    }
    return Ok(newest.value.path);
  }

  /** The located savepoint is the newest entry of the directory, the first listed among equals. */
  lemma LatestSavepointIsNewest(fs: FileSystem, dir: string)
    requires LatestSavepoint(fs, dir).Ok? && LatestSavepoint(fs, dir).value != ""
    ensures var d := TrimTrailingSlash(dir);
            var names := fs.dirs[d];
            var p := LatestSavepoint(fs, dir).value;
            d in fs.dirs && StatsOk(fs, d, names) &&
            exists i :: 0 <= i < |names| && p == EntryPath(d, names[i]) &&
              MTime(fs, d, names[i]) > 0 &&
              (forall j :: 0 <= j < |names| ==> MTime(fs, d, names[j]) <= MTime(fs, d, names[i])) &&
              (forall j :: 0 <= j < i ==> MTime(fs, d, names[j]) < MTime(fs, d, names[i]))
  {
    var d := TrimTrailingSlash(dir);
    ScanNewestFindsStrictMaximum(fs, d, fs.dirs[d]);
  }

  /** An empty path comes back only when every entry could be read and none is newer than the epoch. */
  lemma LatestSavepointEmptyOnlyBeforeEpoch(fs: FileSystem, dir: string)
    requires LatestSavepoint(fs, dir) == Ok("")
    ensures var d := TrimTrailingSlash(dir);
            d in fs.dirs && |fs.dirs[d]| > 0 && StatsOk(fs, d, fs.dirs[d]) &&
            forall j :: 0 <= j < |fs.dirs[d]| ==> MTime(fs, d, fs.dirs[d][j]) <= 0
  {
    var d := TrimTrailingSlash(dir);
    ScanNewestFindsStrictMaximum(fs, d, fs.dirs[d]);
  }

  /** Every failure is one of the three the locator reports, in the order it checks them. */
  lemma LatestSavepointErrors(fs: FileSystem, dir: string)
    requires LatestSavepoint(fs, dir).Err?
    ensures var d := TrimTrailingSlash(dir);
            var e := LatestSavepoint(fs, dir).error;
            (d !in fs.dirs && e == ReadDir(fs, d).error) ||
            (d in fs.dirs && |fs.dirs[d]| == 0 && e == "No savepoints present in directory: " + d) ||
            (d in fs.dirs &&
              exists i :: 0 <= i < |fs.dirs[d]| &&
                Stat(fs, EntryPath(d, fs.dirs[d][i])) == Err(e) && StatsOk(fs, d, fs.dirs[d][..i]))
  {
    var d := TrimTrailingSlash(dir);
    if d in fs.dirs && |fs.dirs[d]| > 0 {
      ScanNewestFailsAtFirstUnreadable(fs, d, fs.dirs[d]);
    }
  }

  /** A trailing slash on the directory makes no difference. */
  lemma LatestSavepointIgnoresTrailingSlash(fs: FileSystem, dir: string)
    requires !HasSuffix(dir, "/")
    ensures LatestSavepoint(fs, dir + "/") == LatestSavepoint(fs, dir)
  {
    TrimTrailingSlashIgnoresOneSlash(dir);
  }
}
