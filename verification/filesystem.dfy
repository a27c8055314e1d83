/**
 * The filesystem abstraction the savepoint locator reads: directory listings in the order
 * `ReadDir` returns them, and per path either a modification time in Unix seconds or the I/O
 * error `Stat` fails with.
 *
 * A path that is not a key of `stats` does not exist: `Stat` fails on it with a not-exist
 * error. An `Err` entry of `stats` is a failure of any other kind (permissions, I/O). A
 * directory that exists has an entry in `stats` as well as its listing in `dirs`.
 */
module FileSystems {
  import opened Wrappers

  datatype FileSystem = FileSystem(dirs: map<string, seq<string>>, stats: map<string, Result<int>>)

  /** The names in a directory; a directory that does not exist is an error. */
  function ReadDir(fs: FileSystem, dir: string): (r: Result<seq<string>>)
    ensures r.Ok? <==> dir in fs.dirs
    ensures r.Ok? ==> r.value == fs.dirs[dir]
  {
    if dir in fs.dirs then Ok(fs.dirs[dir]) else Err("open " + dir + ": file does not exist")
  }

  /** The modification time of a path, or why it cannot be read. */
  function Stat(fs: FileSystem, path: string): (r: Result<int>)
    ensures path !in fs.stats ==> r.Err?
    ensures path in fs.stats ==> r == fs.stats[path]
  {
    if path in fs.stats then fs.stats[path] else Err("stat " + path + ": file does not exist")
  }

  /**
   * `afero.Exists`: `true` when `Stat` succeeds, `false` when it fails because the path does
   * not exist, and the `Stat` error for any other failure.
   */
  function Exists(fs: FileSystem, path: string): (r: Result<bool>)
    ensures r.Err? <==> path in fs.stats && Stat(fs, path).Err?
    ensures r.Err? ==> r.error == Stat(fs, path).error
    ensures r.Ok? ==> (r.value <==> Stat(fs, path).Ok?)
  {
    if path !in fs.stats then Ok(false)
    else
      match Stat(fs, path)
      case Err(e) => Err(e)
      case Ok(_) => Ok(true)
  }
}
