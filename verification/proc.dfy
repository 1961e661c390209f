/** The outside world the commanders talk to, reduced to values.

    A child process is an `Invocation` (its argument vector and environment)
    answered by a `ProcResult`; the filesystem is a map from paths to
    contents plus the set of existing directories. Everything the source
    obtains from the operating system (process results, directory walks,
    temporary directories, JSON decoding of a CLI's output, the outcome of
    removing a directory) is read off a `World`. */
module Proc {
  import opened Errors

  /** File contents; each element stands for one byte. */
  type Bytes = seq<char>

  /** A child process as launched: `Popen(argv, env=env)`. */
  datatype Invocation = Invocation(argv: seq<string>, env: map<string, string>)

  /** What `communicate()` and `returncode` give back, with the local files
      the child wrote (pg_dump's archive, a downloaded object, gpg's output).
      `stdout` and `stderr` are the text `.decode('utf8')` gives, since the
      code only ever uses them decoded; the files written are bytes. */
  datatype ProcResult = ProcResult(exitCode: int, stdout: string, stderr: string, writes: map<string, Bytes>)

  /** The answer the operating system gives to each process launched. */
  type Runner = Invocation -> ProcResult

  datatype FileSystem = FileSystem(files: map<string, Bytes>, dirs: set<string>)

  /** One triple of `os.walk`: a directory and the names of the files in it. */
  datatype WalkEntry = WalkEntry(dirpath: string, filenames: seq<string>)

  /** What `shutil.rmtree` did. */
  datatype RemoveOutcome = Removed | RemoveFailed(errno: int)

  datatype World = World(
    fs: FileSystem,
    environ: map<string, string>,                // os.environ
    run: Runner,                                 // every child process
    walk: string -> seq<WalkEntry>,              // os.walk of a directory
    tmpdir: string,                              // what tempfile.mkdtemp returns
    rmtree: RemoveOutcome,                       // what shutil.rmtree does to it
    decodeKeys: string -> Option<seq<string>>    // json.loads of a key listing; None for null
  )

  datatype Option<+T> = None | Some(value: T)

  /** The result of an operation together with its effects: the filesystem
      it leaves and the processes it launched, in order. */
  datatype Effect<+T> = Effect(fs: FileSystem, calls: seq<Invocation>, result: Result<T>)

  /** `env.update(extra)` on a copy of `env`: the entries of `extra` win. */
  function Overlay(env: map<string, string>, extra: map<string, string>): (r: map<string, string>)
    ensures forall k :: k in extra ==> k in r && r[k] == extra[k]
    ensures forall k :: k in env && k !in extra ==> k in r && r[k] == env[k]
    ensures forall k :: k in r ==> k in env || k in extra
  {
    env + extra
  }

  /** The filesystem once the files a child wrote are in place. */
  function WithWrites(fs: FileSystem, writes: map<string, Bytes>): (r: FileSystem)
    ensures r.dirs == fs.dirs
    ensures forall p :: p in writes ==> p in r.files && r.files[p] == writes[p]
    ensures forall p :: p in fs.files && p !in writes ==> p in r.files && r.files[p] == fs.files[p]
    ensures forall p :: p in r.files ==> p in fs.files || p in writes
  {
    FileSystem(fs.files + writes, fs.dirs)
  }

  /** The process failed: Python tests `if proc.returncode:`. */
  predicate Failed(p: ProcResult) {
    p.exitCode != 0
  }
}
