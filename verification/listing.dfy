/** Grouping stored dump files by database.

    The object-storage backend answers a flat list of keys `db/filename`;
    the listing groups them into an insertion-ordered dictionary
    `{db: [filename, ...]}` (Python dictionaries keep insertion order). The
    local backend groups the files of a directory walk under the basename of
    each directory, as sets. */
module Listing {
  import opened Seqs
  import opened Text
  import opened Proc

  /** One entry of an insertion-ordered dictionary from database to files. */
  datatype Group = Group(db: string, files: seq<string>)

  /** The dictionary's keys, in order. */
  function Dbs(gs: seq<Group>): (r: seq<string>)
    ensures |r| == |gs|
    ensures forall i :: 0 <= i < |gs| ==> r[i] == gs[i].db
  {
    if gs == [] then [] else [gs[0].db] + Dbs(gs[1..])
  }

  /** `d.get(k, [])`. */
  function Lookup(gs: seq<Group>, k: string): seq<string> {
    if gs == [] then []
    else if gs[0].db == k then gs[0].files
    else Lookup(gs[1..], k)
  }

  /** A dictionary as the listing builds it: no key twice, no empty list. */
  predicate WellFormed(gs: seq<Group>) {
    Distinct(Dbs(gs)) && forall i :: 0 <= i < |gs| ==> |gs[i].files| > 0
  }

  /** `d.setdefault(db, []).append(f)`: append to the key's list, creating the
      key at the end when it is new. */
  function AddFile(gs: seq<Group>, db: string, f: string): seq<Group> {
    if gs == [] then [Group(db, [f])]
    else if gs[0].db == db then [Group(db, gs[0].files + [f])] + gs[1..]
    else [gs[0]] + AddFile(gs[1..], db, f)
  }

  lemma {:induction false} AddFileLookup(gs: seq<Group>, db: string, f: string, k: string)
    ensures Lookup(AddFile(gs, db, f), k) == if k == db then Lookup(gs, k) + [f] else Lookup(gs, k)
    decreases |gs|
  {
    if gs != [] && gs[0].db != db {
      AddFileLookup(gs[1..], db, f, k);
      assert AddFile(gs, db, f)[1..] == AddFile(gs[1..], db, f);
    } else if gs != [] {
      assert AddFile(gs, db, f)[1..] == gs[1..];
    }
  }

  lemma {:induction false} AddFileDbs(gs: seq<Group>, db: string, f: string)
    ensures Dbs(AddFile(gs, db, f)) == if db in Dbs(gs) then Dbs(gs) else Dbs(gs) + [db]
    decreases |gs|
  {
    if gs == [] {
    } else if gs[0].db == db {
      assert Dbs(gs)[0] == db;
      assert AddFile(gs, db, f)[1..] == gs[1..];
    } else {
      AddFileDbs(gs[1..], db, f);
      assert AddFile(gs, db, f)[1..] == AddFile(gs[1..], db, f);
      assert Dbs(gs) == [gs[0].db] + Dbs(gs[1..]);
    }
  }

  lemma {:induction false} AddFileNonEmpty(gs: seq<Group>, db: string, f: string)
    requires forall i :: 0 <= i < |gs| ==> |gs[i].files| > 0
    ensures var r := AddFile(gs, db, f); forall i :: 0 <= i < |r| ==> |r[i].files| > 0
    decreases |gs|
  {
    if gs != [] && gs[0].db != db {
      AddFileNonEmpty(gs[1..], db, f);
      var r := AddFile(gs, db, f);
      assert r[1..] == AddFile(gs[1..], db, f);
      forall i | 0 <= i < |r|
        ensures |r[i].files| > 0
      {
        if i > 0 {
          assert r[i] == r[1..][i - 1];
        }
      }
    }
  }

  /** The two halves of a key that splits on `/` into exactly two parts. */
  function KeyParts(key: string): Option<(string, string)> {
    var p := Split(key, '/');
    if |p| == 2 then Some((p[0], p[1])) else None
  }

  /** The S3 listing loop: each key splitting into `db/filename` is appended
      under `db`; other keys are skipped. */
  function GroupKeys(keys: seq<string>): seq<Group>
    decreases |keys|
  {
    if keys == [] then []
    else
      var gs := GroupKeys(keys[..|keys| - 1]);
      match KeyParts(keys[|keys| - 1])
      case None => gs
      case Some((db, f)) => AddFile(gs, db, f)
  }

  /** Reference definition: the filenames of the two-part keys under `k`,
      in key order. */
  function FilesUnder(keys: seq<string>, k: string): seq<string> {
    if keys == [] then []
    else
      (match KeyParts(keys[0])
       case Some((db, f)) => if db == k then [f] else []
       case None => [])
      + FilesUnder(keys[1..], k)
  }

  /** Reference definition: the database halves of the two-part keys, in key
      order, with repetitions. */
  function DbsOfKeys(keys: seq<string>): seq<string> {
    if keys == [] then []
    else
      (match KeyParts(keys[0])
       case Some((db, f)) => [db]
       case None => [])
      + DbsOfKeys(keys[1..])
  }

  lemma {:induction false} FilesUnderSnoc(keys: seq<string>, key: string, k: string)
    ensures FilesUnder(keys + [key], k) ==
            FilesUnder(keys, k) + FilesUnder([key], k)
    decreases |keys|
  {
    if keys == [] {
      assert keys + [key] == [key];
    } else {
      assert (keys + [key])[1..] == keys[1..] + [key];
      assert (keys + [key])[0] == keys[0];
      FilesUnderSnoc(keys[1..], key, k);
    }
  }

  lemma {:induction false} DbsOfKeysSnoc(keys: seq<string>, key: string)
    ensures DbsOfKeys(keys + [key]) == DbsOfKeys(keys) + DbsOfKeys([key])
    decreases |keys|
  {
    if keys == [] {
      assert keys + [key] == [key];
    } else {
      assert (keys + [key])[1..] == keys[1..] + [key];
      assert (keys + [key])[0] == keys[0];
      DbsOfKeysSnoc(keys[1..], key);
    }
  }

  /** Under each database the listing holds exactly that database's files,
      in the order the keys came. */
  lemma {:induction false} GroupKeysLookup(keys: seq<string>, k: string)
    ensures Lookup(GroupKeys(keys), k) == FilesUnder(keys, k)
    decreases |keys|
  {
    if keys != [] {
      var init, last := keys[..|keys| - 1], keys[|keys| - 1];
      assert keys == init + [last];
      GroupKeysLookup(init, k);
      FilesUnderSnoc(init, last, k);
      match KeyParts(last)
      case None =>
      case Some((db, f)) =>
        AddFileLookup(GroupKeys(init), db, f, k);
    }
  }

  /** The databases appear once each, in the order of their first key, and
      no database has an empty list. */
  lemma {:induction false} GroupKeysShape(keys: seq<string>)
    ensures Dbs(GroupKeys(keys)) == Dedup(DbsOfKeys(keys))
    ensures WellFormed(GroupKeys(keys))
    decreases |keys|
  {
    if keys != [] {
      var init, last := keys[..|keys| - 1], keys[|keys| - 1];
      assert keys == init + [last];
      GroupKeysShape(init);
      DbsOfKeysSnoc(init, last);
      var gs := GroupKeys(init);
      match KeyParts(last)
      case None =>
        assert DbsOfKeys(keys) == DbsOfKeys(init);
      case Some((db, f)) =>
        var xs := DbsOfKeys(init) + [db];
        assert DbsOfKeys(keys) == xs;
        assert xs[..|xs| - 1] == DbsOfKeys(init);
        AddFileDbs(gs, db, f);
        AddFileNonEmpty(gs, db, f);
    }
  }

  /** `S3StorageCommander.list_by_db`'s grouping of the key list. */
  function GroupedKeys(keys: seq<string>): (gs: seq<Group>)
    ensures WellFormed(gs)
    ensures Dbs(gs) == Dedup(DbsOfKeys(keys))
    ensures forall k :: Lookup(gs, k) == FilesUnder(keys, k)
  {
    GroupKeysShape(keys);
    forall k
      ensures Lookup(GroupKeys(keys), k) == FilesUnder(keys, k)
    {
      GroupKeysLookup(keys, k);
    }
    GroupKeys(keys)
  }

  /** The key a dump is stored under. */
  function ObjectKey(dbname: string, filename: string): string {
    dbname + "/" + filename
  }

  /** A key built from a database and a filename without slashes splits
      back into exactly those two. */
  lemma ObjectKeyParts(dbname: string, filename: string)
    requires '/' !in dbname && '/' !in filename
    ensures KeyParts(ObjectKey(dbname, filename)) == Some((dbname, filename))
  {
    SplitOfJoin([dbname, filename], '/');
    assert JoinWith([dbname, filename], '/') == ObjectKey(dbname, filename) by {
      assert JoinWith([dbname, filename][1..], '/') == filename;
    }
  }

  /** A key splitting into two parts is those parts joined by a slash. */
  lemma KeyPartsJoin(key: string)
    requires KeyParts(key).Some?
    ensures ObjectKey(KeyParts(key).value.0, KeyParts(key).value.1) == key
  {
    var p := Split(key, '/');
    JoinOfSplit(key, '/');
    assert JoinWith(p[1..], '/') == p[1];
  }

  /** A dump pushed under `db/filename` is listed last under `db`. */
  lemma ListedAfterPush(keys: seq<string>, dbname: string, filename: string)
    requires '/' !in dbname && '/' !in filename
    ensures Lookup(GroupedKeys(keys + [ObjectKey(dbname, filename)]), dbname)
            == Lookup(GroupedKeys(keys), dbname) + [filename]
  {
    var key := ObjectKey(dbname, filename);
    ObjectKeyParts(dbname, filename);
    FilesUnderSnoc(keys, key, dbname);
    assert FilesUnder([key], dbname) == [filename] by {
      assert [key][1..] == [];
    }
  }

  /** A key with files is held by an entry whose list is the key's. */
  lemma {:induction false} LookupEntry(gs: seq<Group>, k: string) returns (i: nat)
    requires Lookup(gs, k) != []
    ensures i < |gs| && gs[i].db == k && gs[i].files == Lookup(gs, k)
    decreases |gs|
  {
    if gs[0].db == k {
      i := 0;
    } else {
      var j := LookupEntry(gs[1..], k);
      i := j + 1;
    }
  }

  /** A key without a slash is dropped; the others are grouped under their
      database in order, the databases in order of first appearance. */
  lemma SampleListing(junk: string, d1: string, d2: string, fa: string, fb: string, fc: string)
    requires '/' !in junk && '/' !in d1 && '/' !in d2
    requires '/' !in fa && '/' !in fb && '/' !in fc
    requires d1 != d2
    ensures GroupKeys([junk, ObjectKey(d1, fa), ObjectKey(d2, fb), ObjectKey(d2, fc)])
            == [Group(d1, [fa]), Group(d2, [fb, fc])]
  {
    var k1 := [junk];
    var k2 := k1 + [ObjectKey(d1, fa)];
    var k3 := k2 + [ObjectKey(d2, fb)];
    var k4 := k3 + [ObjectKey(d2, fc)];
    SplitFree(junk, '/');
    GroupKeysSnoc([], junk);
    assert k1 == [] + [junk];
    SampleStep(k1, [], d1, fa, [Group(d1, [fa])]);
    SampleStep(k2, [Group(d1, [fa])], d2, fb, [Group(d1, [fa]), Group(d2, [fb])]);
    assert AddFile([Group(d2, [fb])], d2, fc) == [Group(d2, [fb, fc])] by {
      assert [fb] + [fc] == [fb, fc];
      assert [Group(d2, [fb])][1..] == [];
    }
    SampleStep(k3, [Group(d1, [fa]), Group(d2, [fb])], d2, fc, [Group(d1, [fa]), Group(d2, [fb, fc])]);
    assert k4 == [junk, ObjectKey(d1, fa), ObjectKey(d2, fb), ObjectKey(d2, fc)];
  }

  lemma GroupKeysSnoc(keys: seq<string>, key: string)
    ensures GroupKeys(keys + [key]) == match KeyParts(key)
                                       case None => GroupKeys(keys)
                                       case Some((db, f)) => AddFile(GroupKeys(keys), db, f)
  {
    assert (keys + [key])[..|keys|] == keys;
  }

  lemma SampleStep(keys: seq<string>, gs: seq<Group>, db: string, f: string, expected: seq<Group>)
    requires '/' !in db && '/' !in f
    requires GroupKeys(keys) == gs
    requires AddFile(gs, db, f) == expected
    ensures GroupKeys(keys + [ObjectKey(db, f)]) == expected
  {
    ObjectKeyParts(db, f);
    GroupKeysSnoc(keys, ObjectKey(db, f));
  }

  /** A directory of the walk contributes to key `k`: its basename is `k`, it
      holds files, and the filter admits `k`. */
  predicate Contributes(e: WalkEntry, k: string, dbname: string) {
    Basename(e.dirpath) == k && |e.filenames| > 0 && (dbname == "" || dbname == k)
  }

  /** The set of the elements of a sequence. */
  function SetOf(xs: seq<string>): (r: set<string>)
    ensures forall x :: x in r <==> x in xs
  {
    set x | x in xs
  }

  /** One step of the local listing loop: the files of directory `e` are
      added under its basename, unless the filter rejects that basename or
      the directory holds no file. */
  function Merge(m: map<string, set<string>>, e: WalkEntry, dbname: string): map<string, set<string>> {
    var d := Basename(e.dirpath);
    if (dbname != "" && dbname != d) || |e.filenames| == 0 then m
    else m[d := (if d in m then m[d] else {}) + SetOf(e.filenames)]
  }

  /** `LocalStorageCommander.list_by_db`'s loop over the directories
      `os.walk` reports. */
  function GroupWalk(walk: seq<WalkEntry>, dbname: string): map<string, set<string>>
    decreases |walk|
  {
    if walk == [] then map[]
    else Merge(GroupWalk(walk[..|walk| - 1], dbname), walk[|walk| - 1], dbname)
  }

  /** Some directory of the walk with basename `k` holds file `f`. */
  ghost predicate HoldsFile(walk: seq<WalkEntry>, k: string, f: string) {
    exists i :: 0 <= i < |walk| && Basename(walk[i].dirpath) == k && f in walk[i].filenames
  }

  lemma MergeSpec(m: map<string, set<string>>, e: WalkEntry, dbname: string, k: string)
    ensures k in Merge(m, e, dbname) <==> k in m || Contributes(e, k, dbname)
    ensures k in Merge(m, e, dbname) ==>
              forall f :: f in Merge(m, e, dbname)[k] <==>
                (k in m && f in m[k]) || (Contributes(e, k, dbname) && f in e.filenames)
  {
  }

  lemma ContributesSnoc(init: seq<WalkEntry>, e: WalkEntry, k: string, dbname: string)
    ensures var walk := init + [e];
            (exists i :: 0 <= i < |walk| && Contributes(walk[i], k, dbname))
            <==> (exists i :: 0 <= i < |init| && Contributes(init[i], k, dbname)) || Contributes(e, k, dbname)
  {
    var walk := init + [e];
    forall i | 0 <= i < |init|
      ensures walk[i] == init[i]
    {
    }
    assert walk[|init|] == e;
  }

  lemma HoldsFileSnoc(init: seq<WalkEntry>, e: WalkEntry, k: string, f: string)
    ensures HoldsFile(init + [e], k, f) <==> HoldsFile(init, k, f) || (Basename(e.dirpath) == k && f in e.filenames)
  {
    var walk := init + [e];
    forall i | 0 <= i < |init|
      ensures walk[i] == init[i]
    {
    }
    assert walk[|init|] == e;
  }

  lemma {:induction false} GroupWalkSpec(walk: seq<WalkEntry>, dbname: string, k: string)
    ensures k in GroupWalk(walk, dbname) <==> exists i :: 0 <= i < |walk| && Contributes(walk[i], k, dbname)
    ensures k in GroupWalk(walk, dbname) ==>
              forall f :: f in GroupWalk(walk, dbname)[k] <==> HoldsFile(walk, k, f)
    ensures k !in GroupWalk(walk, dbname) && (dbname == "" || dbname == k) ==>
              forall f :: !HoldsFile(walk, k, f)
    decreases |walk|
  {
    if walk != [] {
      var init := walk[..|walk| - 1];
      var e := walk[|walk| - 1];
      assert walk == init + [e];
      var m := GroupWalk(init, dbname);
      assert GroupWalk(walk, dbname) == Merge(m, e, dbname);
      GroupWalkSpec(init, dbname, k);
      ContributesSnoc(init, e, k, dbname);
      MergeSpec(m, e, dbname, k);
      forall f
        ensures HoldsFile(walk, k, f) <==> HoldsFile(init, k, f) || (Basename(e.dirpath) == k && f in e.filenames)
      {
        HoldsFileSnoc(init, e, k, f);
      }
    }
  }

  /** The local listing: the files of each directory, as a set, under the
      directory's basename (merged when two directories share a basename);
      a directory without files adds no key; with a database name, only that
      basename is kept. */
  function LocalGroups(walk: seq<WalkEntry>, dbname: string): (r: map<string, set<string>>)
    ensures forall k :: k in r <==> exists i :: 0 <= i < |walk| && Contributes(walk[i], k, dbname)
    ensures forall k, f :: k in r ==> (f in r[k] <==> HoldsFile(walk, k, f))
    ensures dbname != "" ==> r.Keys <= {dbname}
  {
    var r := GroupWalk(walk, dbname);
    forall k
      ensures k in r <==> exists i :: 0 <= i < |walk| && Contributes(walk[i], k, dbname)
      ensures k in r ==> forall f :: f in r[k] <==> HoldsFile(walk, k, f)
    {
      GroupWalkSpec(walk, dbname, k);
    }
    r
  }

  /** The sample tree: a root holding no files and a database directory of
      three dumps, listed for that database. */
  lemma SampleWalk(root: string)
    ensures var dumps := ["dump0.pg", "dump1.pg", "dump2.pg"];
            GroupWalk([WalkEntry(root, []), WalkEntry(root + "/db1", dumps)], "db1")
            == map["db1" := {"dump0.pg", "dump1.pg", "dump2.pg"}]
  {
    var dumps := ["dump0.pg", "dump1.pg", "dump2.pg"];
    var e0, e1 := WalkEntry(root, []), WalkEntry(root + "/db1", dumps);
    var walk := [e0, e1];
    BasenameAfterSlash(root, "db1");
    assert root + "/db1" == root + "/" + "db1";
    assert Basename(e1.dirpath) == "db1";
    assert walk[..1] == [e0] && walk[1] == e1;
    assert GroupWalk([e0], "db1") == map[] by {
      assert [e0][..0] == [];
    }
    assert SetOf(dumps) == {"dump0.pg", "dump1.pg", "dump2.pg"};
    assert Merge(map[], e1, "db1") == map["db1" := {} + SetOf(dumps)];
    assert GroupWalk(walk, "db1") == Merge(GroupWalk([e0], "db1"), e1, "db1");
    assert {} + SetOf(dumps) == {"dump0.pg", "dump1.pg", "dump2.pg"};
    assert GroupWalk(walk, "db1") == map["db1" := {"dump0.pg", "dump1.pg", "dump2.pg"}];
  }
}
