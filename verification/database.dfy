/** The database subsystem: the options-to-commander factory, the static and
    PostgreSQL commanders, and the `Database` wrapper that filters the
    visible databases and produces dump files. */
module Database {
  import opened Errors
  import opened Proc
  import opened Seqs
  import opened Text
  import opened Files

  /** Connection parameters of the PostgreSQL commander. */
  datatype PostgresSettings = PostgresSettings(host: string, user: string, password: string, port: string)

  /** Options self-describe their commander; the base options carry none. */
  datatype DatabaseOptions =
    | BaseDatabaseOptions
    | StaticOptions
    | PostgresOptions(settings: PostgresSettings)

  datatype DatabaseCommander =
    | StaticDatabaseCommander
    | PostgresDatabaseCommander(settings: PostgresSettings)

  /** The options a commander was built from. */
  function OptionsOf(c: DatabaseCommander): DatabaseOptions {
    match c
    case StaticDatabaseCommander => StaticOptions
    case PostgresDatabaseCommander(s) => PostgresOptions(s)
  }

  /** `DatabaseCommander.new_commander`: build the commander the options name,
      or raise TypeError for options that name none. */
  function NewCommander(o: DatabaseOptions): (r: Result<DatabaseCommander>)
    ensures r.Err? <==> o.BaseDatabaseOptions?
    ensures r.Err? ==> r.error == TypeError(NO_COMMANDER)
    ensures r.Ok? ==> OptionsOf(r.value) == o
  {
    match o
    case BaseDatabaseOptions => Err(TypeError(NO_COMMANDER))
    case StaticOptions => Ok(StaticDatabaseCommander)
    case PostgresOptions(s) => Ok(PostgresDatabaseCommander(s))
  }

  /** The fixed databases of the static commander. */
  const STATIC_DATABASES: seq<string> := ["db1", "db2", "db3", "postgres", "template0", "template1"]

  const PGPASSWORD := "PGPASSWORD"

  /** The child environment: os.environ with the password added. */
  function PgEnv(s: PostgresSettings, environ: map<string, string>): map<string, string> {
    Overlay(environ, map[PGPASSWORD := s.password])
  }

  /** The fixed words of the psql listing command. */
  const PSQL_WORDS: set<string> := {
    "psql", "--host", "--port", "--username", "--quiet", "--no-align",
    "--tuples-only", "--dbname", "postgres", "--command", "SELECT datname FROM pg_database"
  }

  /** The psql call that lists the databases. The password travels in the
      environment only: every argument is a fixed word or the host, port or
      user. */
  function ListInvocation(s: PostgresSettings, environ: map<string, string>): (r: Invocation)
    ensures |r.argv| > 0 && r.argv[0] == "psql"
    ensures PGPASSWORD in r.env && r.env[PGPASSWORD] == s.password
    ensures forall k :: k in environ && k != PGPASSWORD ==> k in r.env && r.env[k] == environ[k]
    ensures forall a :: a in r.argv ==> a in PSQL_WORDS || a == s.host || a == s.port || a == s.user
  {
    Invocation(
      ["psql",
       "--host", s.host,
       "--port", s.port,
       "--username", s.user,
       "--quiet", "--no-align", "--tuples-only",
       "--dbname", "postgres",
       "--command", "SELECT datname FROM pg_database"],
      PgEnv(s, environ))
  }

  /** The fixed words of the pg_dump command. */
  const PG_DUMP_WORDS: set<string> := {
    "pg_dump", "--format", "c", "--host", "--port", "--username", "--no-owner", "--file"
  }

  /** The pg_dump call that writes a custom-format dump of `dbname` to
      `target`. As for listing, the password is only in the environment. */
  function DumpInvocation(s: PostgresSettings, environ: map<string, string>, dbname: string, target: string): (r: Invocation)
    ensures |r.argv| >= 2 && r.argv[0] == "pg_dump" && r.argv[|r.argv| - 1] == dbname
    ensures PGPASSWORD in r.env && r.env[PGPASSWORD] == s.password
    ensures forall k :: k in environ && k != PGPASSWORD ==> k in r.env && r.env[k] == environ[k]
    ensures forall a :: a in r.argv ==>
              a in PG_DUMP_WORDS || a == s.host || a == s.port || a == s.user || a == target || a == dbname
  {
    Invocation(
      ["pg_dump",
       "--format", "c",
       "--host", s.host,
       "--port", s.port,
       "--username", s.user,
       "--no-owner",
       "--file", target,
       dbname],
      PgEnv(s, environ))
  }

  /** `commander.list_databases()`. The static commander answers its fixed
      list; the PostgreSQL one answers the whitespace-separated words psql
      printed, whatever its exit code (a failure is only logged). */
  function ListRaw(c: DatabaseCommander, w: World): (r: Effect<seq<string>>)
    ensures r.fs == w.fs && r.result.Ok?
    ensures c.StaticDatabaseCommander? ==> r.calls == [] && r.result.value == STATIC_DATABASES
    ensures c.PostgresDatabaseCommander? ==>
              && r.calls == [ListInvocation(c.settings, w.environ)]
              && r.result.value == Words(w.run(r.calls[0]).stdout)
    ensures forall i :: 0 <= i < |r.result.value| ==> IsWord(r.result.value[i])
  {
    match c
    case StaticDatabaseCommander => Effect(w.fs, [], Ok(STATIC_DATABASES))
    case PostgresDatabaseCommander(s) =>
      var inv := ListInvocation(s, w.environ);
      Effect(w.fs, [inv], Ok(Words(w.run(inv).stdout)))
  }

  /** psql printing one database per line (its --tuples-only --no-align
      output) is parsed back into exactly those databases. */
  lemma PostgresListsPrintedNames(s: PostgresSettings, w: World, names: seq<string>)
    requires forall i :: 0 <= i < |names| ==> IsWord(names[i])
    requires w.run(ListInvocation(s, w.environ)).stdout == Lines(names)
    ensures ListRaw(PostgresDatabaseCommander(s), w).result == Ok(names)
  {
    var inv := ListInvocation(s, w.environ);
    WordsOfLines(names);
    assert Words(w.run(inv).stdout) == names;
  }

  /** The text the static commander writes as a dump. */
  function StaticDumpContent(dbname: string): Bytes {
    "test " + dbname
  }

  /** `commander.exec_dump(dbname, target)`. The static commander opens
      `target` for writing, which fails as `open` does, and writes its
      placeholder text there, touching nothing else; the PostgreSQL one runs
      pg_dump once, leaves whatever files pg_dump wrote, and raises
      DumpingError with pg_dump's standard error when it exits non-zero. */
  function ExecDump(c: DatabaseCommander, w: World, dbname: string, target: string): (r: Effect<()>)
    ensures c.StaticDatabaseCommander? ==>
              && r.calls == []
              && r.fs.dirs == w.fs.dirs
              && (r.result.Ok? <==> Writable(w.fs, target))
              && (r.result.Err? ==> r.fs == w.fs && r.result.error.OSError?)
              && (r.result.Ok? ==> target in r.fs.files && r.fs.files[target] == "test " + dbname)
              && (forall p :: p in w.fs.files && p != target ==> p in r.fs.files && r.fs.files[p] == w.fs.files[p])
              && (Consistent(w.fs) ==> Consistent(r.fs))
    ensures c.PostgresDatabaseCommander? ==>
              && r.calls == [DumpInvocation(c.settings, w.environ, dbname, target)]
              && r.fs == WithWrites(w.fs, w.run(r.calls[0]).writes)
              && (r.result.Err? <==> w.run(r.calls[0]).exitCode != 0)
              && (r.result.Err? ==> r.result.error == BagError(DumpingError(w.run(r.calls[0]).stderr)))
  {
    match c
    case StaticDatabaseCommander =>
      (match WriteFile(w.fs, target, StaticDumpContent(dbname))
       case Ok(written) => Effect(written, [], Ok(()))
       case Err(e) => Effect(w.fs, [], Err(e)))
    case PostgresDatabaseCommander(s) =>
      var inv := DumpInvocation(s, w.environ, dbname, target);
      var p := w.run(inv);
      Effect(WithWrites(w.fs, p.writes), [inv], if Failed(p) then Dumping(p.stderr) else Ok(()))
  }

  /** The static dump, once written, reads back as `test <dbname>`. */
  lemma StaticDumpReadsBack(w: World, dbname: string, target: string)
    requires Writable(w.fs, target)
    ensures var r := ExecDump(StaticDatabaseCommander, w, dbname, target);
            r.result.Ok? && ReadFile(r.fs, target) == Ok("test " + dbname)
  {
  }

  /** The wrapper: a commander with an optional allow-list and deny-list.
      An empty list stands for both `None` and `[]`, which the source does
      not tell apart. */
  datatype Database = Database(commander: DatabaseCommander, only: seq<string>, exclude: seq<string>)

  /** A database passes both filters. */
  predicate Visible(x: string, only: seq<string>, exclude: seq<string>) {
    (|only| == 0 || x in only) && (|exclude| == 0 || x !in exclude)
  }

  /** Reference definition: one pass keeping the visible databases. */
  function SelectVisible(raw: seq<string>, only: seq<string>, exclude: seq<string>): (r: seq<string>)
    ensures IsSubsequence(r, raw)
    ensures forall x :: x in r <==> x in raw && Visible(x, only, exclude)
  {
    if raw == [] then []
    else
      var rest := SelectVisible(raw[1..], only, exclude);
      assert raw == [raw[0]] + raw[1..];
      if Visible(raw[0], only, exclude) then [raw[0]] + rest else rest
  }

  function KeepListed(xs: seq<string>, allow: seq<string>): seq<string> {
    if xs == [] then [] else (if xs[0] in allow then [xs[0]] else []) + KeepListed(xs[1..], allow)
  }

  function DropListed(xs: seq<string>, deny: seq<string>): seq<string> {
    if xs == [] then [] else (if xs[0] in deny then [] else [xs[0]]) + DropListed(xs[1..], deny)
  }

  /** The two-pass filter of the source: allow-list first (when non-empty),
      then deny-list (when non-empty). */
  function AllowThenDeny(raw: seq<string>, only: seq<string>, exclude: seq<string>): seq<string> {
    var allowed := if |only| > 0 then KeepListed(raw, only) else raw;
    if |exclude| > 0 then DropListed(allowed, exclude) else allowed
  }

  /** The two passes keep exactly what one pass with both conditions keeps. */
  lemma {:induction false} AllowThenDenyIsOnePass(raw: seq<string>, only: seq<string>, exclude: seq<string>)
    ensures AllowThenDeny(raw, only, exclude) == SelectVisible(raw, only, exclude)
    decreases |raw|
  {
    if raw != [] {
      AllowThenDenyIsOnePass(raw[1..], only, exclude);
      var allowed := if |only| > 0 then KeepListed(raw, only) else raw;
      var allowedRest := if |only| > 0 then KeepListed(raw[1..], only) else raw[1..];
      var head := if |only| > 0 && raw[0] !in only then [] else [raw[0]];
      assert allowed == head + allowedRest;
      if |exclude| > 0 {
        DropAppend(head, allowedRest, exclude);
      }
    }
  }

  lemma {:induction false} DropAppend(a: seq<string>, b: seq<string>, deny: seq<string>)
    ensures DropListed(a + b, deny) == DropListed(a, deny) + DropListed(b, deny)
    decreases |a|
  {
    if a == [] {
      assert a + b == b;
    } else {
      assert (a + b)[0] == a[0];
      assert (a + b)[1..] == a[1..] + b;
      DropAppend(a[1..], b, deny);
    }
  }

  /** `Database.list_databases` over the commander's answer: a subsequence of
      it in the original order, holding exactly the visible databases; with
      no lists it is the commander's answer unchanged. */
  function ListVisible(raw: seq<string>, only: seq<string>, exclude: seq<string>): (r: seq<string>)
    ensures IsSubsequence(r, raw)
    ensures forall x :: x in r <==> x in raw && Visible(x, only, exclude)
    ensures |only| > 0 ==> forall x :: x in r ==> x in only
    ensures |exclude| > 0 ==> forall x :: x in r ==> x !in exclude
    ensures |only| == 0 && |exclude| == 0 ==> r == raw
  {
    AllowThenDenyIsOnePass(raw, only, exclude);
    AllowThenDeny(raw, only, exclude)
  }

  /** `Database.list_databases()`: ask the commander, then filter. */
  function ListDatabases(d: Database, w: World): (r: Effect<seq<string>>)
    ensures r.fs == w.fs && r.calls == ListRaw(d.commander, w).calls && r.result.Ok?
    ensures IsSubsequence(r.result.value, ListRaw(d.commander, w).result.value)
    ensures forall x :: x in r.result.value <==>
              x in ListRaw(d.commander, w).result.value && Visible(x, d.only, d.exclude)
  {
    var raw := ListRaw(d.commander, w);
    Effect(raw.fs, raw.calls, Ok(ListVisible(raw.result.value, d.only, d.exclude)))
  }

  /** The excluded system databases leave the three test databases of the
      static commander. */
  lemma StaticWithoutSystemDatabases(w: World)
    ensures ListDatabases(Database(StaticDatabaseCommander, [], ["postgres", "template0", "template1"]), w).result
            == Ok(["db1", "db2", "db3"])
  {
    var ex := ["postgres", "template0", "template1"];
    var raw := STATIC_DATABASES;
    assert DropListed(raw[5..], ex) == [] by {
      assert raw[5..][1..] == [];
    }
    assert DropListed(raw[4..], ex) == [] by {
      assert raw[4..][1..] == raw[5..];
    }
    assert DropListed(raw[3..], ex) == [] by {
      assert raw[3..][1..] == raw[4..];
    }
    assert DropListed(raw[2..], ex) == ["db3"] by {
      assert raw[2..][1..] == raw[3..];
    }
    assert DropListed(raw[1..], ex) == ["db2", "db3"] by {
      assert raw[1..][1..] == raw[2..];
    }
    assert DropListed(raw, ex) == ["db1", "db2", "db3"];
    assert AllowThenDeny(raw, [], ex) == ["db1", "db2", "db3"];
  }

  /** `_generate_dump_name`: the database, a dash, the timestamp and `.pg`. */
  function DumpName(dbname: string, stamp: string): string {
    dbname + "-" + stamp + ".pg"
  }

  function NotVisibleMessage(dbname: string): string {
    "Database " + dbname + " does not exist or is excluded"
  }

  /** The outcome of `create_dump_file`, with the targets `exec_dump` was
      called with. */
  datatype DumpOutcome = DumpOutcome(dumpTargets: seq<string>, effect: Effect<string>)

  /** `Database.create_dump_file(tmpdir, dbname)`, the clock reading being
      `stamp`. A name that is not visible raises DumpingError before any dump
      is attempted; otherwise exec_dump runs once on `tmpdir/<name>` and the
      generated name is returned. */
  function CreateDumpFile(d: Database, w: World, tmpdir: string, dbname: string, stamp: string): (r: DumpOutcome)
    ensures var visible := ListDatabases(d, w).result.value;
            dbname !in visible ==>
              && r.dumpTargets == []
              && r.effect.fs == w.fs
              && r.effect.calls == ListRaw(d.commander, w).calls
              && r.effect.result == Err(BagError(DumpingError(NotVisibleMessage(dbname))))
    ensures var visible := ListDatabases(d, w).result.value;
            var target := PathJoin(tmpdir, dbname + "-" + stamp + ".pg");
            var dump := ExecDump(d.commander, w, dbname, target);
            dbname in visible ==>
              && r.dumpTargets == [target]
              && r.effect.fs == dump.fs
              && r.effect.calls == ListRaw(d.commander, w).calls + dump.calls
              && (r.effect.result.Ok? <==> dump.result.Ok?)
              && (r.effect.result.Ok? ==> r.effect.result.value == dbname + "-" + stamp + ".pg")
              && (r.effect.result.Err? ==> r.effect.result.error == dump.result.error)
  {
    var listing := ListDatabases(d, w);
    if dbname !in listing.result.value then
      DumpOutcome([], Effect(listing.fs, listing.calls, Dumping(NotVisibleMessage(dbname))))
    else
      var name := DumpName(dbname, stamp);
      var target := PathJoin(tmpdir, name);
      var dump := ExecDump(d.commander, w, dbname, target);
      DumpOutcome([target], Effect(dump.fs, listing.calls + dump.calls,
                                   if dump.result.Err? then Err(dump.result.error) else Ok(name)))
  }

  /** With the static commander, the file of the name `create_dump_file`
      returns, inside `tmpdir`, holds the placeholder dump of the database,
      provided `tmpdir` can receive it. */
  lemma StaticDumpFileHoldsDump(w: World, exclude: seq<string>, tmpdir: string, dbname: string, stamp: string)
    requires dbname in STATIC_DATABASES && dbname !in exclude
    requires Writable(w.fs, PathJoin(tmpdir, DumpName(dbname, stamp)))
    ensures var r := CreateDumpFile(Database(StaticDatabaseCommander, [], exclude), w, tmpdir, dbname, stamp);
            && r.effect.result == Ok(DumpName(dbname, stamp))
            && ReadFile(r.effect.fs, PathJoin(tmpdir, r.effect.result.value)) == Ok(StaticDumpContent(dbname))
  {
    var d := Database(StaticDatabaseCommander, [], exclude);
    assert dbname in ListDatabases(d, w).result.value;
    StaticDumpReadsBack(w, dbname, PathJoin(tmpdir, DumpName(dbname, stamp)));
  }
}
