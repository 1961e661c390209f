/** The filesystem calls of the local storage backend, over `FileSystem`:
    `os.path.exists`, `os.path.isdir`, `os.mkdir`, `os.makedirs`, reading a
    file and `shutil.copy2`. Paths are compared as strings; no normalisation
    of `.`, `..` or repeated slashes takes place. */
module Files {
  import opened Errors
  import opened Text
  import opened Proc

  /** `/`, `//`, ...: the root, which always exists. */
  predicate IsRoot(p: string) {
    |p| > 0 && AllSlashes(p)
  }

  /** `os.path.isdir(p)`. */
  predicate IsDir(fs: FileSystem, p: string) {
    p in fs.dirs || IsRoot(p)
  }

  /** `os.path.exists(p)`. */
  predicate Exists(fs: FileSystem, p: string) {
    p in fs.files || IsDir(fs, p)
  }

  /** No path is both a file and a directory. */
  predicate Consistent(fs: FileSystem) {
    forall p :: p in fs.files ==> !IsDir(fs, p)
  }

  /** `open(p, 'w')` can create or truncate `p`: it names a file, not a
      directory, and its parent is the current directory or an existing
      directory. */
  predicate Writable(fs: FileSystem, p: string) {
    && p != "" && !IsDir(fs, p) && Basename(p) != ""
    && Dirname(p) !in fs.files && (Dirname(p) == "" || IsDir(fs, Dirname(p)))
  }

  /** `open(p, 'wb')` followed by writing `content`. */
  function WriteFile(fs: FileSystem, p: string, content: Bytes): (r: Result<FileSystem>)
    ensures r.Ok? <==> Writable(fs, p)
    ensures r.Err? ==> r.error.OSError?
    ensures r.Ok? ==> r.value == FileSystem(fs.files[p := content], fs.dirs)
    ensures r.Ok? && Consistent(fs) ==> Consistent(r.value)
  {
    var parent := Dirname(p);
    if p == "" then Err(OSError(ENOENT))
    else if IsDir(fs, p) || Basename(p) == "" then Err(OSError(EISDIR))
    else if parent in fs.files then Err(OSError(ENOTDIR))
    else if parent != "" && !IsDir(fs, parent) then Err(OSError(ENOENT))
    else Ok(FileSystem(fs.files[p := content], fs.dirs))
  }

  /** `open(p, 'rb').read()`. */
  function ReadFile(fs: FileSystem, p: string): (r: Result<Bytes>)
    ensures r.Ok? <==> p in fs.files && !IsDir(fs, p)
    ensures r.Ok? ==> r.value == fs.files[p]
    ensures r.Err? ==> r.error == OSError(if IsDir(fs, p) then EISDIR else ENOENT)
  {
    if IsDir(fs, p) then Err(OSError(EISDIR))
    else if p !in fs.files then Err(OSError(ENOENT))
    else Ok(fs.files[p])
  }

  /** `os.mkdir(d)`. */
  function Mkdir(fs: FileSystem, d: string): (r: Effect<()>)
    ensures r.calls == [] && r.fs.files == fs.files
    ensures r.result.Ok? ==> r.fs.dirs == fs.dirs + {d}
    ensures r.result.Err? ==> r.fs == fs
    ensures Exists(fs, d) ==> r.result == Err(OSError(EEXIST))
  {
    var parent := Dirname(d);
    if Exists(fs, d) then Effect(fs, [], Err(OSError(EEXIST)))
    else if d == "" then Effect(fs, [], Err(OSError(ENOENT)))
    else if parent in fs.files then Effect(fs, [], Err(OSError(ENOTDIR)))
    else if parent != "" && !IsDir(fs, parent) then Effect(fs, [], Err(OSError(ENOENT)))
    else Effect(FileSystem(fs.files, fs.dirs + {d}), [], Ok(()))
  }

  /** `os.makedirs(d)`: the missing ancestors first, from the top, then `d`
      itself. A failure part-way leaves the directories made so far. */
  function MakeDirs(fs: FileSystem, d: string): (r: Effect<()>)
    ensures r.calls == [] && r.fs.files == fs.files && fs.dirs <= r.fs.dirs
    ensures forall p :: p in r.fs.dirs && p !in fs.dirs ==> |p| <= |d| && !Exists(fs, p)
    ensures r.result.Ok? ==> d in r.fs.dirs
    ensures Consistent(fs) ==> Consistent(r.fs)
    decreases |d|
  {
    var head, tail :=
      if Basename(d) == "" then Dirname(Dirname(d)) else Dirname(d),
      if Basename(d) == "" then Basename(Dirname(d)) else Basename(d);
    var before :=
      if head != "" && tail != "" && !Exists(fs, head) then MakeDirs(fs, head)
      else Effect(fs, [], Ok(()));
    if before.result.Err? then before
    else
      var made := Mkdir(before.fs, d);
      assert made.result.Ok? ==> !Exists(before.fs, d);
      made
  }

  /** Where `shutil.copy2(src, dst)` writes: into a directory `dst` under the
      source's basename, otherwise at `dst`. */
  function CopyDest(fs: FileSystem, src: string, dst: string): string {
    if IsDir(fs, dst) then PathJoin(dst, Basename(src)) else dst
  }

  /** `shutil.copy2(src, dst)` without the metadata: a directory `dst`
      receives the file under the source's basename; copying a file onto
      itself is refused; the source is opened before the destination. */
  function Copy2(fs: FileSystem, src: string, dst: string): (r: Result<FileSystem>)
    ensures r.Ok? ==> src in fs.files && r.value.dirs == fs.dirs
    ensures r.Ok? ==> r.value.files == fs.files[CopyDest(fs, src, dst) := fs.files[src]]
    ensures r.Ok? && Consistent(fs) ==> Consistent(r.value)
    ensures src !in fs.files && !IsDir(fs, src) ==> r == Err(OSError(ENOENT))
  {
    var dest := CopyDest(fs, src, dst);
    if src == dest && Exists(fs, src) then Err(SameFileError(src))
    else if IsDir(fs, src) then Err(OSError(EISDIR))
    else if src !in fs.files then Err(OSError(ENOENT))
    else WriteFile(fs, dest, fs.files[src])
  }

  /** Creating `a/b` under an existing directory `a` adds just that one
      directory. */
  lemma MakeDirsUnderDir(fs: FileSystem, a: string, b: string)
    requires Consistent(fs)
    requires |a| > 0 && a[|a| - 1] != '/' && IsDir(fs, a)
    requires |b| > 0 && '/' !in b && !Exists(fs, a + "/" + b)
    ensures MakeDirs(fs, a + "/" + b) == Effect(FileSystem(fs.files, fs.dirs + {a + "/" + b}), [], Ok(()))
  {
    var d := a + "/" + b;
    BasenameAfterSlash(a, b);
    DirnameAfterSlash(a, b);
    assert a !in fs.files;
  }

  /** Copying a file to a fresh name `dir/f` inside an existing directory
      writes exactly that one file. */
  lemma CopyIntoDir(fs: FileSystem, src: string, dir: string, f: string)
    requires Consistent(fs)
    requires |dir| > 0 && dir[|dir| - 1] != '/' && IsDir(fs, dir)
    requires |f| > 0 && '/' !in f && dir + "/" + f !in fs.dirs
    requires src in fs.files && src != dir + "/" + f
    ensures Copy2(fs, src, dir + "/" + f) == Ok(FileSystem(fs.files[dir + "/" + f := fs.files[src]], fs.dirs))
  {
    var dst := dir + "/" + f;
    BasenameAfterSlash(dir, f);
    DirnameAfterSlash(dir, f);
    assert !IsRoot(dst) by {
      assert dst[|dst| - 1] == f[|f| - 1];
    }
    assert dir !in fs.files;
  }
}
