/** The orchestrator: a database wrapper and a storage commander built from
    one configuration, producing a dump of one database and pushing it. */
module Bagger {
  import opened Errors
  import opened Seqs
  import opened Proc
  import DB = Database
  import ST = Storage
  import EN = Encryption
  import opened Text
  import opened Files
  import opened Listing

  /** The configuration the orchestrator reads: the options of each
      subsystem and the databases never to list. */
  datatype Config = Config(
    databaseOptions: DB.DatabaseOptions,
    storageOptions: ST.StorageOptions,
    encryptionOptions: EN.EncryptionOptions,
    excludeDatabases: seq<string>
  )

  /** The orchestrator's state: its database commander with the configured
      exclusions, and its storage commander. */
  datatype Bagger = Bagger(dbCommander: DB.DatabaseCommander, exclude: seq<string>, storage: ST.StorageCommander) {
    /** `self.db`: the wrapper, with no allow-list. */
    function Db(): DB.Database {
      DB.Database(dbCommander, [], exclude)
    }
  }

  /** `Bagger(config)`: the database commander is built first, then the
      storage commander; either factory's TypeError escapes. The encryption
      options are not consulted. */
  function NewBagger(config: Config): (r: Result<Bagger>)
    ensures r.Ok? <==> DB.NewCommander(config.databaseOptions).Ok? && ST.NewCommander(config.storageOptions).Ok?
    ensures r.Err? ==> r.error == TypeError(NO_COMMANDER)
    ensures r.Ok? ==>
              && DB.OptionsOf(r.value.dbCommander) == config.databaseOptions
              && r.value.exclude == config.excludeDatabases
              && ST.OptionsOf(r.value.storage) == config.storageOptions
  {
    var dbCommander :- DB.NewCommander(config.databaseOptions);
    var storage :- ST.NewCommander(config.storageOptions);
    Ok(Bagger(dbCommander, config.excludeDatabases, storage))
  }

  /** `Bagger.list_databases`: the commander's databases in order, minus the
      configured exclusions. */
  function ListDatabases(b: Bagger, w: World): (r: Effect<seq<string>>)
    ensures var raw := DB.ListRaw(b.dbCommander, w).result.value;
            && r.result.Ok? && r.calls == DB.ListRaw(b.dbCommander, w).calls
            && IsSubsequence(r.result.value, raw)
            && (forall x :: x in r.result.value <==> x in raw && (b.exclude == [] || x !in b.exclude))
            && (b.exclude == [] ==> r.result.value == raw)
  {
    DB.ListDatabases(b.Db(), w)
  }

  /** What the temporary dump scope yields: the directory and the file name
      of the dump it made, or the error it raised. */
  datatype DumpScope = DumpScope(path: string, filename: string)

  /** The outcome of bagging one database, with the pushes made as
      `(dbname, path, filename)` triples. */
  datatype BagOutcome = BagOutcome(pushes: seq<(string, string, string)>, effect: Effect<string>)

  /** `Bagger.bag_one_database(dbname)` given what the dump scope yields:
      the dump is pushed once, under its own name, without any encryption
      step, and that name is returned. */
  function BagOneDatabase(b: Bagger, w: World, dbname: string, scope: Result<DumpScope>): (r: BagOutcome)
    ensures scope.Err? ==> r.pushes == [] && r.effect == Effect(w.fs, [], Err(scope.error))
    ensures scope.Ok? ==>
              var push := ST.PushToStorage(b.storage, w, dbname, scope.value.path, scope.value.filename);
              && r.pushes == [(dbname, scope.value.path, scope.value.filename)]
              && r.effect.fs == push.fs && r.effect.calls == push.calls
              && (r.effect.result.Ok? <==> push.result.Ok?)
              && (r.effect.result.Ok? ==> r.effect.result.value == scope.value.filename)
              && (r.effect.result.Err? ==> r.effect.result.error == push.result.error)
  {
    match scope
    case Err(e) => BagOutcome([], Effect(w.fs, [], Err(e)))
    case Ok(DumpScope(path, filename)) =>
      var push := ST.PushToStorage(b.storage, w, dbname, path, filename);
      BagOutcome([(dbname, path, filename)],
                 Effect(push.fs, push.calls, if push.result.Err? then Err(push.result.error) else Ok(filename)))
  }

  /** With a local store, a bagged dump can be read back under the name
      bagging returned, unchanged: no encryption happened in between. */
  lemma BaggedDumpReadsBack(b: Bagger, w: World, dbname: string, scope: DumpScope)
    requires b.storage.LocalStorageCommander?
    requires |scope.filename| > 0 && scope.filename[0] != '/'
    requires ST.LocalPath(b.storage.storageDir, dbname, scope.filename) !in w.fs.dirs
    ensures var r := BagOneDatabase(b, w, dbname, Ok(scope));
            var source := PathJoin(scope.path, scope.filename);
            r.effect.result.Ok? ==>
              && source in w.fs.files
              && ST.LocalRead(b.storage.storageDir, r.effect.fs, dbname, r.effect.result.value) == Ok(w.fs.files[source])
  {
    ST.LocalPushThenRead(b.storage.storageDir, w.fs, dbname, scope.path, scope.filename);
  }

  /** `Bagger.list_dumps()`: the storage listing of every database, with no
      filter. Locally, each walked directory with files is listed under its
      basename with all the files of such directories; over S3 the one
      listing call's failure is raised as DumpStorageError, and otherwise
      every decoded two-part key is listed under its database, in key
      order, databases in first-key order. */
  function ListDumps(b: Bagger, w: World): (r: Effect<ST.DumpListing>)
    ensures r.fs == w.fs
    ensures b.storage.LocalStorageCommander? ==>
              var walk := w.walk(b.storage.storageDir);
              && r.calls == [] && r.result.Ok? && r.result.value.LocalListing?
              && (forall k :: k in r.result.value.dirs <==>
                                exists i :: 0 <= i < |walk| && Contributes(walk[i], k, ""))
              && (forall k, f :: k in r.result.value.dirs ==> (f in r.result.value.dirs[k] <==> HoldsFile(walk, k, f)))
    ensures b.storage.S3StorageCommander? ==>
              && |r.calls| == 1 && r.calls[0].argv == ST.ListArgv(b.storage.settings, "")
              && |r.calls[0].argv| == 7
              && var p := w.run(r.calls[0]);
              && (r.result.Err? <==> Failed(p))
              && (r.result.Err? ==> r.result.error == BagError(DumpStorageError(p.stderr)))
              && (r.result.Ok? ==>
                    var keys := match w.decodeKeys(p.stdout) case None => [] case Some(ks) => ks;
                    && r.result.value.S3Listing?
                    && WellFormed(r.result.value.groups)
                    && Dbs(r.result.value.groups) == Dedup(DbsOfKeys(keys))
                    && forall k :: Lookup(r.result.value.groups, k) == FilesUnder(keys, k))
  {
    ST.ListByDb(b.storage, w, "")
  }

  /** The listing is the grouping of what the store holds: the local walk
      grouped by directory basename, or the decoded S3 keys grouped by
      database. */
  lemma ListDumpsGroups(b: Bagger, w: World)
    ensures b.storage.LocalStorageCommander? ==>
              ListDumps(b, w).result == Ok(ST.LocalListing(LocalGroups(w.walk(b.storage.storageDir), "")))
    ensures b.storage.S3StorageCommander? && ListDumps(b, w).result.Ok? ==>
              var p := w.run(ListDumps(b, w).calls[0]);
              var keys := match w.decodeKeys(p.stdout) case None => [] case Some(ks) => ks;
              ListDumps(b, w).result == Ok(ST.S3Listing(GroupedKeys(keys)))
  {
  }

  /** Over S3, a dump pushed as `db/filename` after the keys already
      listed is the last file listed under `db`. */
  lemma ListedLastAfterPush(b: Bagger, w: World, dbname: string, filename: string, before: seq<string>)
    requires b.storage.S3StorageCommander?
    requires '/' !in dbname && '/' !in filename
    requires ListDumps(b, w).result.Ok?
    requires w.decodeKeys(w.run(ListDumps(b, w).calls[0]).stdout) == Some(before + [ObjectKey(dbname, filename)])
    ensures var groups := ListDumps(b, w).result.value.groups;
            && Lookup(groups, dbname) != []
            && Lookup(groups, dbname)[|Lookup(groups, dbname)| - 1] == filename
  {
    ListDumpsGroups(b, w);
    ListedAfterPush(before, dbname, filename);
  }
}
