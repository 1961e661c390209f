/** The storage subsystem: the options-to-commander factory, the local
    commander (a directory tree) and the S3 commander (the `aws` CLI), and
    the operations every commander shares: reading a dump in chunks and the
    download instructions. */
module Storage {
  import opened Errors
  import opened Seqs
  import opened Text
  import opened Proc
  import opened Files
  import opened Listing

  datatype S3Settings = S3Settings(bucket: string, accessKey: string, secretAccessKey: string)

  /** Options self-describe their commander; the base options carry none. */
  datatype StorageOptions =
    | BaseStorageOptions
    | LocalOptions(storageDir: string)
    | S3Options(settings: S3Settings)

  datatype StorageCommander =
    | LocalStorageCommander(storageDir: string)
    | S3StorageCommander(settings: S3Settings)

  /** The options a commander was built from. */
  function OptionsOf(c: StorageCommander): StorageOptions {
    match c
    case LocalStorageCommander(d) => LocalOptions(d)
    case S3StorageCommander(s) => S3Options(s)
  }

  /** `StorageCommander.new_commander`: build the commander the options
      name, or raise TypeError for options that name none. */
  function NewCommander(o: StorageOptions): (r: Result<StorageCommander>)
    ensures r.Err? <==> o.BaseStorageOptions?
    ensures r.Err? ==> r.error == TypeError(NO_COMMANDER)
    ensures r.Ok? ==> OptionsOf(r.value) == o
  {
    match o
    case BaseStorageOptions => Err(TypeError(NO_COMMANDER))
    case LocalOptions(d) => Ok(LocalStorageCommander(d))
    case S3Options(s) => Ok(S3StorageCommander(s))
  }

  // ---------------------------------------------------------------------
  // Local commander

  /** `storage_dir/dbname`. */
  function LocalDir(storageDir: string, dbname: string): string {
    PathJoin(storageDir, dbname)
  }

  /** `storage_dir/dbname/filename`, where a dump is stored and read. */
  function LocalPath(storageDir: string, dbname: string, filename: string): string {
    PathJoin(LocalDir(storageDir, dbname), filename)
  }

  /** `LocalStorageCommander.push_to_storage`: create `storage_dir/dbname`
      when nothing exists there, then copy `source_path/filename` into it. */
  function LocalPush(storageDir: string, fs: FileSystem, dbname: string, sourcePath: string, filename: string)
    : (r: Effect<()>)
    ensures r.calls == [] && fs.dirs <= r.fs.dirs
    ensures r.result.Ok? ==> PathJoin(sourcePath, filename) in fs.files
    ensures Consistent(fs) ==> Consistent(r.fs)
  {
    var source := PathJoin(sourcePath, filename);
    var targetDir := LocalDir(storageDir, dbname);
    var made := if !Exists(fs, targetDir) then MakeDirs(fs, targetDir) else Effect(fs, [], Ok(()));
    if made.result.Err? then made
    else
      match Copy2(made.fs, source, PathJoin(targetDir, filename))
      case Ok(copied) => Effect(copied, [], Ok(()))
      case Err(e) => Effect(made.fs, [], Err(e))
  }

  function NotExistMessage(filename: string): string {
    filename + " dump does not exist"
  }

  /** `LocalStorageCommander.read_from_storage`, the file read whole. */
  function LocalRead(storageDir: string, fs: FileSystem, dbname: string, filename: string): (r: Result<Bytes>)
    ensures var path := LocalPath(storageDir, dbname, filename);
            && (r.Ok? <==> path in fs.files && !IsDir(fs, path))
            && (r.Ok? ==> r.value == fs.files[path])
            && (!Exists(fs, path) <==> r == NotExist(NotExistMessage(filename)))
  {
    var path := LocalPath(storageDir, dbname, filename);
    if !Exists(fs, path) then NotExist(NotExistMessage(filename))
    else ReadFile(fs, path)
  }

  /** Preparing the database directory adds no file and does not turn the
      destination, a longer path, into a directory. */
  lemma PreparedTargetFree(fs: FileSystem, targetDir: string, filename: string)
    requires |filename| > 0 && filename[0] != '/'
    requires PathJoin(targetDir, filename) !in fs.dirs
    ensures var made := if !Exists(fs, targetDir) then MakeDirs(fs, targetDir) else Effect(fs, [], Ok(()));
            made.fs.files == fs.files && !IsDir(made.fs, PathJoin(targetDir, filename))
  {
    var target := PathJoin(targetDir, filename);
    assert |target| >= |targetDir| + |filename|;
    assert !IsRoot(target) by {
      assert target[|target| - |filename|] == filename[0];
    }
  }

  /** A copy onto a destination that is not a directory is read back from
      there. */
  lemma ReadBackCopied(storageDir: string, fs: FileSystem, dbname: string, source: string, filename: string)
    requires !IsDir(fs, LocalPath(storageDir, dbname, filename))
    ensures var copied := Copy2(fs, source, LocalPath(storageDir, dbname, filename));
            copied.Ok? ==> source in fs.files && LocalRead(storageDir, copied.value, dbname, filename) == Ok(fs.files[source])
  {
    var target := LocalPath(storageDir, dbname, filename);
    assert CopyDest(fs, source, target) == target;
  }

  /** A successful push whose destination was not a directory is read back
      byte for byte. */
  lemma LocalPushThenRead(storageDir: string, fs: FileSystem, dbname: string, sourcePath: string, filename: string)
    requires |filename| > 0 && filename[0] != '/'
    requires LocalPath(storageDir, dbname, filename) !in fs.dirs
    ensures var r := LocalPush(storageDir, fs, dbname, sourcePath, filename);
            var source := PathJoin(sourcePath, filename);
            r.result.Ok? ==> source in fs.files && LocalRead(storageDir, r.fs, dbname, filename) == Ok(fs.files[source])
  {
    var source := PathJoin(sourcePath, filename);
    var targetDir := LocalDir(storageDir, dbname);
    PreparedTargetFree(fs, targetDir, filename);
    var made := if !Exists(fs, targetDir) then MakeDirs(fs, targetDir) else Effect(fs, [], Ok(()));
    ReadBackCopied(storageDir, made.fs, dbname, source, filename);
  }

  /** The push of an existing file into an existing database directory
      succeeds, and the dump can then be read back unchanged. */
  lemma LocalRoundTrip(storageDir: string, fs: FileSystem, dbname: string, sourcePath: string, filename: string)
    requires Consistent(fs)
    requires |storageDir| > 0 && storageDir[|storageDir| - 1] != '/' && IsDir(fs, storageDir)
    requires |dbname| > 0 && '/' !in dbname && LocalDir(storageDir, dbname) !in fs.files
    requires |filename| > 0 && '/' !in filename
    requires LocalPath(storageDir, dbname, filename) !in fs.dirs
    requires PathJoin(sourcePath, filename) in fs.files
    requires PathJoin(sourcePath, filename) != LocalPath(storageDir, dbname, filename)
    ensures var r := LocalPush(storageDir, fs, dbname, sourcePath, filename);
            && r.result.Ok?
            && LocalRead(storageDir, r.fs, dbname, filename) == Ok(fs.files[PathJoin(sourcePath, filename)])
  {
    var source := PathJoin(sourcePath, filename);
    var targetDir := LocalDir(storageDir, dbname);
    var target := LocalPath(storageDir, dbname, filename);
    assert targetDir == storageDir + "/" + dbname;
    assert target == targetDir + "/" + filename;
    assert !IsRoot(targetDir) by {
      assert targetDir[|targetDir| - 1] == dbname[|dbname| - 1];
    }
    var made := if !Exists(fs, targetDir) then MakeDirs(fs, targetDir) else Effect(fs, [], Ok(()));
    if !Exists(fs, targetDir) {
      MakeDirsUnderDir(fs, storageDir, dbname);
    }
    assert made == Effect(FileSystem(fs.files, fs.dirs + {targetDir}), [], Ok(()));
    CopyIntoDir(made.fs, source, targetDir, filename);
    LocalPushThenRead(storageDir, fs, dbname, sourcePath, filename);
  }

  /** `LocalStorageCommander.list_by_db`: the files of the walked storage
      directory grouped under their directory's basename. */
  function LocalListByDb(storageDir: string, w: World, dbname: string): (r: map<string, set<string>>)
    ensures var walk := w.walk(storageDir);
            && (forall k :: k in r <==> exists i :: 0 <= i < |walk| && Contributes(walk[i], k, dbname))
            && (forall k, f :: k in r ==> (f in r[k] <==> HoldsFile(walk, k, f)))
            && (dbname != "" ==> r.Keys <= {dbname})
  {
    LocalGroups(w.walk(storageDir), dbname)
  }

  // ---------------------------------------------------------------------
  // S3 commander

  const AWS_ACCESS_KEY_ID := "AWS_ACCESS_KEY_ID"
  const AWS_SECRET_ACCESS_KEY := "AWS_SECRET_ACCESS_KEY"

  /** An `aws` CLI call: os.environ with the credentials added. */
  function S3Invocation(s: S3Settings, environ: map<string, string>, argv: seq<string>): (inv: Invocation)
    ensures inv.argv == argv
    ensures AWS_ACCESS_KEY_ID in inv.env && inv.env[AWS_ACCESS_KEY_ID] == s.accessKey
    ensures AWS_SECRET_ACCESS_KEY in inv.env && inv.env[AWS_SECRET_ACCESS_KEY] == s.secretAccessKey
    ensures forall k :: k in environ && k != AWS_ACCESS_KEY_ID && k != AWS_SECRET_ACCESS_KEY
                        ==> k in inv.env && inv.env[k] == environ[k]
  {
    Invocation(argv, Overlay(environ, map[AWS_ACCESS_KEY_ID := s.accessKey,
                                          AWS_SECRET_ACCESS_KEY := s.secretAccessKey]))
  }

  /** `_exec_s3_cmd`: run the CLI once; a non-zero exit raises
      DumpStorageError with its standard error, otherwise its standard
      output is returned. */
  function ExecS3(s: S3Settings, w: World, argv: seq<string>): (r: Effect<string>)
    ensures r.fs == w.fs && r.calls == [S3Invocation(s, w.environ, argv)]
    ensures var p := w.run(r.calls[0]);
            && (r.result.Err? <==> p.exitCode != 0)
            && (r.result.Err? ==> r.result.error == BagError(DumpStorageError(p.stderr)))
            && (r.result.Ok? ==> r.result.value == p.stdout)
  {
    var inv := S3Invocation(s, w.environ, argv);
    var p := w.run(inv);
    Effect(w.fs, [inv], if Failed(p) then Storage(p.stderr) else Ok(p.stdout))
  }

  /** The URL of the object `dbname/filename` in the bucket. */
  function ObjectUrl(s: S3Settings, dbname: string, filename: string): string {
    "s3://" + s.bucket + "/" + ObjectKey(dbname, filename)
  }

  const EXPIRE_TAGGING := "TagSet=[{Key=Expire,Value=True}]"

  function CopyArgv(source: string, target: string): seq<string> {
    ["aws", "s3", "cp", source, target]
  }

  function TaggingArgv(s: S3Settings, key: string): seq<string> {
    ["aws", "s3api", "put-object-tagging", "--bucket", s.bucket, "--key", key, "--tagging", EXPIRE_TAGGING]
  }

  /** The upload of `source_path/filename` to the object of key
      `dbname/filename`. */
  function UploadInvocation(s: S3Settings, environ: map<string, string>, dbname: string, sourcePath: string, filename: string): Invocation {
    S3Invocation(s, environ, CopyArgv(PathJoin(sourcePath, filename), ObjectUrl(s, dbname, filename)))
  }

  /** The expiry tagging of the object of key `dbname/filename`. */
  function TagInvocation(s: S3Settings, environ: map<string, string>, dbname: string, filename: string): Invocation {
    S3Invocation(s, environ, TaggingArgv(s, ObjectKey(dbname, filename)))
  }

  /** `S3StorageCommander.push_to_storage`: upload `source_path/filename`
      to the key `dbname/filename`, then tag that key for expiry; the tag is
      only attempted after the upload succeeded. */
  function S3Push(s: S3Settings, w: World, dbname: string, sourcePath: string, filename: string): (r: Effect<()>)
    ensures r.fs == w.fs
    ensures var upload := UploadInvocation(s, w.environ, dbname, sourcePath, filename);
            Failed(w.run(upload)) ==>
              r.calls == [upload] && r.result == Err(BagError(DumpStorageError(w.run(upload).stderr)))
    ensures var upload := UploadInvocation(s, w.environ, dbname, sourcePath, filename);
            var tag := TagInvocation(s, w.environ, dbname, filename);
            !Failed(w.run(upload)) ==>
              && r.calls == [upload, tag]
              && (r.result.Ok? <==> !Failed(w.run(tag)))
              && (r.result.Err? ==> r.result.error == BagError(DumpStorageError(w.run(tag).stderr)))
  {
    var upload := ExecS3(s, w, CopyArgv(PathJoin(sourcePath, filename), ObjectUrl(s, dbname, filename)));
    if upload.result.Err? then Effect(w.fs, upload.calls, Err(upload.result.error))
    else
      var tag := ExecS3(s, w, TaggingArgv(s, ObjectKey(dbname, filename)));
      Effect(w.fs, upload.calls + tag.calls, if tag.result.Err? then Err(tag.result.error) else Ok(()))
  }

  /** What a read from storage produced: the processes it launched, the
      temporary directory it left behind, and the dump's content. */
  datatype ReadOutcome = ReadOutcome(calls: seq<Invocation>, leftover: Option<string>, result: Result<Bytes>)

  /** The `finally` clause: remove the temporary directory, ignoring only
      ENOENT; any other failure is raised and replaces the outcome. */
  function CleanUp(rm: RemoveOutcome, tmpdir: string, outcome: Result<Bytes>): (r: (Option<string>, Result<Bytes>))
    ensures r.0.None? <==> rm.Removed? || rm.errno == ENOENT
    ensures r.0.None? ==> r.1 == outcome
    ensures r.0.Some? ==> r.0.value == tmpdir && r.1 == Err(OSError(rm.errno))
  {
    match rm
    case Removed => (None, outcome)
    case RemoveFailed(e) => if e == ENOENT then (None, outcome) else (Some(tmpdir), Err(OSError(e)))
  }

  /** The download of `dbname/filename` into the fresh temporary directory. */
  function DownloadInvocation(s: S3Settings, w: World, dbname: string, filename: string): Invocation {
    S3Invocation(s, w.environ, CopyArgv(ObjectUrl(s, dbname, filename), PathJoin(w.tmpdir, filename)))
  }

  /** Opening the downloaded file: the filesystem holds the temporary
      directory and whatever the CLI wrote. */
  function OpenDownloaded(w: World, filename: string, p: ProcResult): Result<Bytes> {
    ReadFile(WithWrites(FileSystem(w.fs.files, w.fs.dirs + {w.tmpdir}), p.writes), PathJoin(w.tmpdir, filename))
  }

  /** `S3StorageCommander.read_from_storage` as written: the download runs
      before the `try`, so when it fails the temporary directory is never
      removed. */
  function S3ReadAsWritten(s: S3Settings, w: World, dbname: string, filename: string): (r: ReadOutcome)
    ensures r.calls == [DownloadInvocation(s, w, dbname, filename)]
    ensures Failed(w.run(r.calls[0])) ==>
              r.leftover == Some(w.tmpdir) && r.result == Err(BagError(DumpStorageError(w.run(r.calls[0]).stderr)))
    ensures !Failed(w.run(r.calls[0])) ==>
              && (r.leftover.None? <==> w.rmtree.Removed? || w.rmtree.errno == ENOENT)
              && (r.leftover.None? ==> r.result == OpenDownloaded(w, filename, w.run(r.calls[0])))
  {
    var download := ExecS3(s, w, CopyArgv(ObjectUrl(s, dbname, filename), PathJoin(w.tmpdir, filename)));
    if download.result.Err? then ReadOutcome(download.calls, Some(w.tmpdir), Err(download.result.error))
    else
      var done := CleanUp(w.rmtree, w.tmpdir, OpenDownloaded(w, filename, w.run(download.calls[0])));
      ReadOutcome(download.calls, done.0, done.1)
  }

  /** `read_from_storage` with the download inside the `try`: the temporary
      directory is removed whatever happens, and only a failing removal
      leaves it behind. */
  function S3Read(s: S3Settings, w: World, dbname: string, filename: string): (r: ReadOutcome)
    ensures r.calls == [DownloadInvocation(s, w, dbname, filename)]
    ensures r.leftover.None? <==> w.rmtree.Removed? || w.rmtree.errno == ENOENT
    ensures var p := w.run(r.calls[0]);
            r.leftover.None? ==>
              && (Failed(p) ==> r.result == Storage(p.stderr))
              && (!Failed(p) ==> r.result == OpenDownloaded(w, filename, p))
    ensures r.leftover.Some? ==> r.result == Err(OSError(w.rmtree.errno))
  {
    var download := ExecS3(s, w, CopyArgv(ObjectUrl(s, dbname, filename), PathJoin(w.tmpdir, filename)));
    var content :=
      if download.result.Err? then Err(download.result.error)
      else OpenDownloaded(w, filename, w.run(download.calls[0]));
    var done := CleanUp(w.rmtree, w.tmpdir, content);
    ReadOutcome(download.calls, done.0, done.1)
  }

  /** The leak: a failed download leaves the temporary directory behind as
      written, while the corrected read removes it. */
  lemma S3ReadLeaksOnFailedDownload(s: S3Settings, w: World, dbname: string, filename: string)
    requires Failed(w.run(DownloadInvocation(s, w, dbname, filename)))
    requires w.rmtree == Removed
    ensures S3ReadAsWritten(s, w, dbname, filename).leftover == Some(w.tmpdir)
    ensures S3Read(s, w, dbname, filename).leftover == None
    ensures S3Read(s, w, dbname, filename).result == S3ReadAsWritten(s, w, dbname, filename).result
  {
  }

  /** Both reads agree whenever the download succeeds. */
  lemma S3ReadAgreesAfterDownload(s: S3Settings, w: World, dbname: string, filename: string)
    requires !Failed(w.run(DownloadInvocation(s, w, dbname, filename)))
    ensures S3Read(s, w, dbname, filename) == S3ReadAsWritten(s, w, dbname, filename)
  {
  }

  /** The argument vector of the key listing, with `--prefix dbname/` when a
      database is asked for. */
  function ListArgv(s: S3Settings, dbname: string): (argv: seq<string>)
    ensures |argv| >= 7 && argv[..7] == ["aws", "s3api", "list-objects-v2", "--bucket", s.bucket, "--query", "Contents[].Key"]
    ensures dbname == "" ==> |argv| == 7
    ensures dbname != "" ==> argv[7..] == ["--prefix", dbname + "/"]
  {
    ["aws", "s3api", "list-objects-v2", "--bucket", s.bucket, "--query", "Contents[].Key"]
    + (if dbname != "" then ["--prefix", dbname + "/"] else [])
  }

  /** `S3StorageCommander.list_by_db`: list the keys, decode them (a JSON
      null standing for none) and group the two-part ones by database. The
      answer is not filtered again: the prefix alone selects. */
  function S3ListByDb(s: S3Settings, w: World, dbname: string): (r: Effect<seq<Group>>)
    ensures r.fs == w.fs && r.calls == [S3Invocation(s, w.environ, ListArgv(s, dbname))]
    ensures var p := w.run(r.calls[0]);
            && (r.result.Err? <==> Failed(p))
            && (r.result.Err? ==> r.result.error == BagError(DumpStorageError(p.stderr)))
            && (r.result.Ok? ==>
                  var keys := match w.decodeKeys(p.stdout) case None => [] case Some(ks) => ks;
                  && WellFormed(r.result.value)
                  && Dbs(r.result.value) == Dedup(DbsOfKeys(keys))
                  && forall k :: Lookup(r.result.value, k) == FilesUnder(keys, k))
    ensures r.result.Ok? && w.decodeKeys(w.run(r.calls[0]).stdout).None? ==> r.result.value == []
  {
    var listed := ExecS3(s, w, ListArgv(s, dbname));
    if listed.result.Err? then Effect(w.fs, listed.calls, Err(listed.result.error))
    else
      var keys := match w.decodeKeys(listed.result.value) case None => [] case Some(ks) => ks;
      Effect(w.fs, listed.calls, Ok(GroupedKeys(keys)))
  }

  const S3_DOWNLOAD_LINES := [
    "# Using S3 (recommended if you have the access, see in lastpass)",
    "$$ aws --profile=odoo-dumps s3 cp $s3_url ."
  ]

  // ---------------------------------------------------------------------
  // Every commander

  /** `push_to_storage`, dispatched on the commander. A local push
      launches nothing; an S3 push reads no file itself and uploads to the
      URL the download instructions give. */
  function PushToStorage(c: StorageCommander, w: World, dbname: string, sourcePath: string, filename: string): (r: Effect<()>)
    ensures c.LocalStorageCommander? ==> r == LocalPush(c.storageDir, w.fs, dbname, sourcePath, filename)
    ensures c.S3StorageCommander? ==> r == S3Push(c.settings, w, dbname, sourcePath, filename)
    ensures c.LocalStorageCommander? ==> r.calls == []
    ensures c.S3StorageCommander? ==>
              && r.fs == w.fs && |r.calls| > 0 && |r.calls[0].argv| == 5
              && r.calls[0].argv[4] == DownloadCommands(c, dbname, filename).1["s3_url"]
  {
    match c
    case LocalStorageCommander(d) => LocalPush(d, w.fs, dbname, sourcePath, filename)
    case S3StorageCommander(s) => S3Push(s, w, dbname, sourcePath, filename)
  }

  /** Whatever a successful local push stored, a read through the same
      commander answers: the bytes of the source file. */
  lemma PushedReadsBack(c: StorageCommander, w: World, dbname: string, sourcePath: string, filename: string)
    requires c.LocalStorageCommander?
    requires |filename| > 0 && filename[0] != '/'
    requires LocalPath(c.storageDir, dbname, filename) !in w.fs.dirs
    ensures var r := PushToStorage(c, w, dbname, sourcePath, filename);
            var source := PathJoin(sourcePath, filename);
            r.result.Ok? ==>
              && source in w.fs.files
              && ReadFromStorage(c, w.(fs := r.fs), dbname, filename).result == Ok(w.fs.files[source])
  {
    LocalPushThenRead(c.storageDir, w.fs, dbname, sourcePath, filename);
  }

  /** The local push of an existing file into a fresh place in an existing
      store succeeds, and a read through the commander answers its bytes. */
  lemma StorageRoundTrip(c: StorageCommander, w: World, dbname: string, sourcePath: string, filename: string)
    requires c.LocalStorageCommander?
    requires Consistent(w.fs)
    requires |c.storageDir| > 0 && c.storageDir[|c.storageDir| - 1] != '/' && IsDir(w.fs, c.storageDir)
    requires |dbname| > 0 && '/' !in dbname && LocalDir(c.storageDir, dbname) !in w.fs.files
    requires |filename| > 0 && '/' !in filename
    requires LocalPath(c.storageDir, dbname, filename) !in w.fs.dirs
    requires PathJoin(sourcePath, filename) in w.fs.files
    requires PathJoin(sourcePath, filename) != LocalPath(c.storageDir, dbname, filename)
    ensures var r := PushToStorage(c, w, dbname, sourcePath, filename);
            && r.result.Ok?
            && ReadFromStorage(c, w.(fs := r.fs), dbname, filename).result == Ok(w.fs.files[PathJoin(sourcePath, filename)])
  {
    LocalRoundTrip(c.storageDir, w.fs, dbname, sourcePath, filename);
  }

  /** `read_from_storage`, dispatched on the commander. The local read
      launches nothing, leaves nothing behind, and answers the stored bytes
      or DumpNotExistError; the S3 read downloads once into the temporary
      directory and removes it, and only a failing removal other than
      ENOENT leaves it behind and replaces the answer. */
  function ReadFromStorage(c: StorageCommander, w: World, dbname: string, filename: string): (r: ReadOutcome)
    ensures c.LocalStorageCommander? ==>
              r == ReadOutcome([], None, LocalRead(c.storageDir, w.fs, dbname, filename))
    ensures c.S3StorageCommander? ==> r == S3Read(c.settings, w, dbname, filename)
    ensures c.LocalStorageCommander? ==>
              var path := LocalPath(c.storageDir, dbname, filename);
              && r.calls == [] && r.leftover.None?
              && (r.result.Ok? <==> path in w.fs.files && !IsDir(w.fs, path))
              && (r.result.Ok? ==> r.result.value == w.fs.files[path])
              && (!Exists(w.fs, path) <==> r.result == NotExist(NotExistMessage(filename)))
    ensures c.S3StorageCommander? ==>
              var p := w.run(DownloadInvocation(c.settings, w, dbname, filename));
              && r.calls == [DownloadInvocation(c.settings, w, dbname, filename)]
              && (r.leftover.None? <==> w.rmtree.Removed? || w.rmtree.errno == ENOENT)
              && (r.leftover.Some? ==> r.leftover.value == w.tmpdir && r.result == Err(OSError(w.rmtree.errno)))
              && (r.leftover.None? && Failed(p) ==> r.result == Err(BagError(DumpStorageError(p.stderr))))
              && (r.leftover.None? && !Failed(p) ==> r.result == OpenDownloaded(w, filename, p))
  {
    match c
    case LocalStorageCommander(d) => ReadOutcome([], None, LocalRead(d, w.fs, dbname, filename))
    case S3StorageCommander(s) => S3Read(s, w, dbname, filename)
  }

  /** What `list_by_db` answers: sets per directory for the local
      commander, insertion-ordered lists per database for S3. */
  datatype DumpListing =
    | LocalListing(dirs: map<string, set<string>>)
    | S3Listing(groups: seq<Group>)

  /** `list_by_db`, dispatched on the commander. Locally, a key is the
      basename of each walked directory with files (only `dbname` when one
      is given), holding all the files of such directories; over S3, the
      listing call's failure is raised, and otherwise the decoded keys are
      grouped by database in first-key order with each database's files in
      key order. */
  function ListByDb(c: StorageCommander, w: World, dbname: string): (r: Effect<DumpListing>)
    ensures c.LocalStorageCommander? ==>
              r == Effect(w.fs, [], Ok(LocalListing(LocalListByDb(c.storageDir, w, dbname))))
    ensures c.S3StorageCommander? ==>
              var listed := S3ListByDb(c.settings, w, dbname);
              && r.fs == listed.fs && r.calls == listed.calls
              && (r.result.Ok? <==> listed.result.Ok?)
              && (r.result.Ok? ==> r.result.value == S3Listing(listed.result.value))
    ensures c.LocalStorageCommander? ==>
              var walk := w.walk(c.storageDir);
              && r.fs == w.fs && r.calls == [] && r.result.Ok? && r.result.value.LocalListing?
              && (forall k :: k in r.result.value.dirs <==> exists i :: 0 <= i < |walk| && Contributes(walk[i], k, dbname))
              && (forall k, f :: k in r.result.value.dirs ==> (f in r.result.value.dirs[k] <==> HoldsFile(walk, k, f)))
    ensures c.S3StorageCommander? ==>
              var inv := S3Invocation(c.settings, w.environ, ListArgv(c.settings, dbname));
              var p := w.run(inv);
              && r.fs == w.fs && r.calls == [inv]
              && (r.result.Err? <==> Failed(p))
              && (r.result.Err? ==> r.result.error == BagError(DumpStorageError(p.stderr)))
              && (r.result.Ok? ==>
                    var keys := match w.decodeKeys(p.stdout) case None => [] case Some(ks) => ks;
                    && r.result.value.S3Listing?
                    && WellFormed(r.result.value.groups)
                    && Dbs(r.result.value.groups) == Dedup(DbsOfKeys(keys))
                    && forall k :: Lookup(r.result.value.groups, k) == FilesUnder(keys, k))
  {
    match c
    case LocalStorageCommander(d) => Effect(w.fs, [], Ok(LocalListing(LocalListByDb(d, w, dbname))))
    case S3StorageCommander(s) =>
      var listed := S3ListByDb(s, w, dbname);
      Effect(listed.fs, listed.calls, if listed.result.Err? then Err(listed.result.error) else Ok(S3Listing(listed.result.value)))
  }

  const CHUNK_SIZE: nat := 1024

  /** The successive `f.read(1024)` results up to the first empty one. */
  function Chunks(content: Bytes): (cs: seq<Bytes>)
    ensures forall i :: 0 <= i < |cs| ==> 0 < |cs[i]| <= CHUNK_SIZE
    ensures forall i :: 0 <= i < |cs| - 1 ==> |cs[i]| == CHUNK_SIZE
    decreases |content|
  {
    if |content| == 0 then []
    else
      var n := if |content| < CHUNK_SIZE then |content| else CHUNK_SIZE;
      [content[..n]] + Chunks(content[n..])
  }

  /** The chunks put back together are the content. */
  lemma {:induction false} ChunksConcat(content: Bytes)
    ensures Flatten(Chunks(content)) == content
    decreases |content|
  {
    if |content| > 0 {
      var n := if |content| < CHUNK_SIZE then |content| else CHUNK_SIZE;
      ChunksConcat(content[n..]);
      assert Chunks(content)[1..] == Chunks(content[n..]);
      assert content[..n] + content[n..] == content;
    }
  }

  /** `read_dump`: the content of the dump as chunks, or the error the read
      raised. */
  function ReadDump(c: StorageCommander, w: World, dbname: string, filename: string): (r: Result<seq<Bytes>>)
    ensures var read := ReadFromStorage(c, w, dbname, filename).result;
            && (r.Ok? <==> read.Ok?)
            && (r.Ok? ==> Flatten(r.value) == read.value)
            && (r.Err? ==> r.error == read.error)
            && (r.Ok? ==> forall i :: 0 <= i < |r.value| ==> 0 < |r.value[i]| <= CHUNK_SIZE)
  {
    var read := ReadFromStorage(c, w, dbname, filename).result;
    if read.Err? then Err(read.error)
    else
      ChunksConcat(read.value);
      Ok(Chunks(read.value))
  }

  /** `download_commands`: nothing for the local commander; for S3 the two
      instruction lines and the object's URL as `s3_url`. */
  function DownloadCommands(c: StorageCommander, dbname: string, filename: string): (r: (seq<string>, map<string, string>))
    ensures c.LocalStorageCommander? ==> r == ([], map[])
    ensures c.S3StorageCommander? ==>
              && r.0 == S3_DOWNLOAD_LINES
              && r.1.Keys == {"s3_url"} && r.1["s3_url"] == ObjectUrl(c.settings, dbname, filename)
  {
    match c
    case LocalStorageCommander(_) => ([], map[])
    case S3StorageCommander(s) => (S3_DOWNLOAD_LINES, map["s3_url" := ObjectUrl(s, dbname, filename)])
  }

  /** The URL the instructions download from is the one the push uploaded
      to, and its key lists the dump under its database. */
  lemma DownloadUrlIsUploadTarget(s: S3Settings, w: World, dbname: string, sourcePath: string, filename: string)
    requires '/' !in dbname && '/' !in filename
    ensures DownloadCommands(S3StorageCommander(s), dbname, filename).1["s3_url"]
            == S3Push(s, w, dbname, sourcePath, filename).calls[0].argv[4]
    ensures KeyParts(ObjectKey(dbname, filename)) == Some((dbname, filename))
  {
    ObjectKeyParts(dbname, filename);
  }
}
