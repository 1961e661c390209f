/** The helpers of the web views: the URL converter for database names, the
    date shown for a dump file, the dumps of one database and the nightly
    dump URLs. */
module Views {
  import opened Errors
  import opened Seqs
  import opened Text
  import opened Proc
  import opened Listing
  import ST = Storage
  import DB = Database
  import BG = Bagger

  // ---------------------------------------------------------------------
  // Database names in URLs

  /** The class `[A-Za-z0-9_-]`. */
  predicate IsNameChar(c: char) {
    ('A' <= c <= 'Z') || ('a' <= c <= 'z') || ('0' <= c <= '9') || c == '_' || c == '-'
  }

  /** `DBNameConverter.to_python`: the value unchanged when it matches
      `^[A-Za-z0-9_-]+$`, otherwise ValidationError. */
  function ToPython(value: string): (r: Result<string>)
    ensures r.Ok? <==> WholeRun(value, IsNameChar)
    ensures r.Ok? ==> r.value == value
    ensures r.Err? ==> r.error == ValidationError("")
  {
    if MatchesRun(value, IsNameChar) then Ok(value) else Err(ValidationError(""))
  }

  /** A name the converter accepts has no slash, so the storage key of any
      of its dumps splits back into the name and the file. */
  lemma AcceptedNameKeysSplitBack(dbname: string, filename: string)
    requires ToPython(dbname).Ok? && '/' !in filename
    ensures KeyParts(ObjectKey(dbname, filename)) == Some((dbname, filename))
  {
    forall i | 0 <= i < |dbname|
      ensures dbname[i] != '/'
    {
      if dbname[i] != '\n' {
        assert IsNameChar(dbname[i]);
      }
    }
    ObjectKeyParts(dbname, filename);
  }

  // ---------------------------------------------------------------------
  // Dates in dump names

  /** The timestamp fields `%Y%m%d-%H%M%S` describe. */
  datatype Stamp = Stamp(year: nat, month: nat, day: nat, hour: nat, minute: nat, second: nat)

  predicate LeapYear(y: nat) {
    y % 4 == 0 && (y % 100 != 0 || y % 400 == 0)
  }

  function DaysInMonth(y: nat, m: nat): nat
    requires 1 <= m <= 12
  {
    if m == 2 then (if LeapYear(y) then 29 else 28)
    else if m == 4 || m == 6 || m == 9 || m == 11 then 30
    else 31
  }

  /** A date and time `datetime` accepts. */
  predicate ValidStamp(t: Stamp) {
    && 1 <= t.year <= 9999
    && 1 <= t.month <= 12
    && 1 <= t.day <= DaysInMonth(t.year, t.month)
    && t.hour < 24 && t.minute < 60 && t.second < 60
  }

  /** `time.strftime('%Y%m%d-%H%M%S')`: the stamp in a dump's name. */
  function StampText(t: Stamp): (s: string)
    requires ValidStamp(t)
    ensures |s| == 15
  {
    Pad(t.year, 4) + Pad(t.month, 2) + Pad(t.day, 2) + "-" + Pad(t.hour, 2) + Pad(t.minute, 2) + Pad(t.second, 2)
  }

  /** Eight digits, a dash and six digits start at `i`. */
  predicate IsDateAt(s: string, i: int) {
    && 0 <= i && i + 15 <= |s|
    && AllDigits(s[i..i + 8]) && s[i + 8] == '-' && AllDigits(s[i + 9..i + 15])
  }

  predicate NotNewline(c: char) {
    c != '\n'
  }

  /** Reference definition of where `.*(\d{8}-\d{6}).*` can take its group
      under `re.match`: a date whose prefix `.*` covers without crossing a
      newline. */
  ghost predicate Candidate(s: string, i: int) {
    IsDateAt(s, i) && forall j :: 0 <= j < i ==> s[j] != '\n'
  }

  /** The date the group takes: a candidate with none after it. */
  ghost predicate LastCandidate(s: string, i: int) {
    Candidate(s, i) && forall k :: i < k ==> !Candidate(s, k)
  }

  /** The last date starting before `j`. */
  function LastDateBefore(s: string, j: nat): (r: Option<nat>)
    ensures r.Some? ==> r.value < j && IsDateAt(s, r.value) && forall k :: r.value < k < j ==> !IsDateAt(s, k)
    ensures r.None? ==> forall k :: 0 <= k < j ==> !IsDateAt(s, k)
  {
    if j == 0 then None
    else if IsDateAt(s, j - 1) then Some(j - 1)
    else LastDateBefore(s, j - 1)
  }

  /** The characters of a date are not newlines. */
  lemma DateHasNoNewline(s: string, i: int, k: int)
    requires IsDateAt(s, i) && i <= k < i + 15
    ensures s[k] != '\n'
  {
    if k < i + 8 {
      assert s[k] == s[i..i + 8][k - i];
    } else if k > i + 8 {
      assert s[k] == s[i + 9..i + 15][k - i - 9];
    }
  }

  /** The position of the group `RE_DUMP_DATE` captures: the greedy leading
      `.*` makes it the last date on the first line. */
  function DateGroup(s: string): (r: Option<nat>)
    ensures r.Some? ==> LastCandidate(s, r.value)
    ensures r.None? ==> forall k :: !Candidate(s, k)
  {
    var n := Span(s, NotNewline);
    var r := if n < 15 then None else LastDateBefore(s, n - 14);
    forall k | Candidate(s, k) && (r.None? || r.value < k)
      ensures false
    {
      if k + 15 > n {
        assert s[n] == '\n';
        DateHasNoNewline(s, k, n);
      }
    }
    forall j | r.Some? && 0 <= j < r.value
      ensures s[j] != '\n'
    {
      assert NotNewline(s[j]);
    }
    r
  }

  const DATE_VALUE_ERROR := "time data does not match format '%Y%m%d-%H%M%S'"

  /** The six fields of a date text, each read as a decimal number. */
  function Fields(g: string): Stamp
    requires |g| == 15 && IsDateAt(g, 0)
  {
    FieldDigits(g);
    Stamp(DigitsValue(g[..4]), DigitsValue(g[4..6]), DigitsValue(g[6..8]),
          DigitsValue(g[9..11]), DigitsValue(g[11..13]), DigitsValue(g[13..]))
  }

  lemma FieldDigits(g: string)
    requires |g| == 15 && IsDateAt(g, 0)
    ensures AllDigits(g[..4]) && AllDigits(g[4..6]) && AllDigits(g[6..8])
    ensures AllDigits(g[9..11]) && AllDigits(g[11..13]) && AllDigits(g[13..])
  {
    DigitsSlice(g[0..8], 0, 4);
    DigitsSlice(g[0..8], 4, 6);
    DigitsSlice(g[0..8], 6, 8);
    DigitsSlice(g[9..15], 0, 2);
    DigitsSlice(g[9..15], 2, 4);
    DigitsSlice(g[9..15], 4, 6);
    assert g[0..8][0..4] == g[..4] && g[0..8][4..6] == g[4..6] && g[0..8][6..8] == g[6..8];
    assert g[9..15][0..2] == g[9..11] && g[9..15][2..4] == g[11..13] && g[9..15][4..6] == g[13..];
  }

  /** Writing the fields of a valid date text back gives the text. */
  lemma FieldsText(g: string)
    requires |g| == 15 && IsDateAt(g, 0) && ValidStamp(Fields(g))
    ensures StampText(Fields(g)) == g
  {
    FieldDigits(g);
    var y, mo, d, h, mi, se := g[..4], g[4..6], g[6..8], g[9..11], g[11..13], g[13..];
    PadOfDigits(y);
    PadOfDigits(mo);
    PadOfDigits(d);
    PadOfDigits(h);
    PadOfDigits(mi);
    PadOfDigits(se);
    var t := Fields(g);
    assert StampText(t) == y + mo + d + "-" + h + mi + se;
    assert g[..8] == y + mo + d;
    assert g[9..] == h + mi + se;
    assert g == g[..8] + "-" + g[9..];
  }

  /** `datetime.strptime(g, '%Y%m%d-%H%M%S')`: each field takes exactly its
      width of digits, and text of another shape, or values that are not a
      date and time, raise ValueError. */
  function ParseStamp(g: string): (r: Result<Stamp>)
    ensures r.Ok? ==> ValidStamp(r.value) && StampText(r.value) == g
    ensures r.Err? ==> r.error == ValueError(DATE_VALUE_ERROR)
  {
    if |g| != 15 || !IsDateAt(g, 0) || !ValidStamp(Fields(g)) then Err(ValueError(DATE_VALUE_ERROR))
    else
      FieldsText(g);
      Ok(Fields(g))
  }

  lemma DigitsSlice(s: string, i: int, j: int)
    requires AllDigits(s) && 0 <= i <= j <= |s|
    ensures AllDigits(s[i..j])
  {
    assert forall k :: 0 <= k < j - i ==> s[i..j][k] == s[i + k];
  }

  /** A string of digits is the padding of its own value. */
  lemma {:induction false} PadOfDigits(s: string)
    requires AllDigits(s)
    ensures DigitsValue(s) < Pow10(|s|)
    ensures Pad(DigitsValue(s), |s|) == s
    decreases |s|
  {
    if |s| > 0 {
      var init := s[..|s| - 1];
      assert AllDigits(init) by {
        assert forall i :: 0 <= i < |init| ==> init[i] == s[i];
      }
      PadOfDigits(init);
      var v := DigitsValue(s);
      var d := s[|s| - 1] as int - '0' as int;
      assert v == DigitsValue(init) * 10 + d;
      assert v / 10 == DigitsValue(init) && v % 10 == d;
      assert DigitChar(d) == s[|s| - 1];
      assert init + [s[|s| - 1]] == s;
    }
  }

  /** Reading a stamp back from its text gives the stamp. */
  lemma ParseOfStampText(t: Stamp)
    requires ValidStamp(t)
    ensures ParseStamp(StampText(t)) == Ok(t)
  {
    var g := StampText(t);
    var y, mo, d, h, mi, se := Pad(t.year, 4), Pad(t.month, 2), Pad(t.day, 2), Pad(t.hour, 2), Pad(t.minute, 2), Pad(t.second, 2);
    assert g[..4] == y && g[4..6] == mo && g[6..8] == d;
    assert g[9..11] == h && g[11..13] == mi && g[13..] == se;
    assert g[8] == '-';
    assert AllDigits(g[0..8]) by {
      assert g[0..8] == y + mo + d;
    }
    assert AllDigits(g[9..15]) by {
      assert g[9..15] == h + mi + se;
    }
  }

  /** `strftime('%Y-%m-%d %H:%M:%S')`, the year written without padding as
      the C library does. */
  function FormatDate(t: Stamp): string
    requires ValidStamp(t)
  {
    Decimal(t.year) + "-" + Pad(t.month, 2) + "-" + Pad(t.day, 2) + " "
    + Pad(t.hour, 2) + ":" + Pad(t.minute, 2) + ":" + Pad(t.second, 2)
  }

  /** `date_from_dumpname(s)`: the empty string when no date appears, the
      date reformatted when it is a valid one, ValueError otherwise. */
  function DateFromDumpname(s: string): (r: Result<string>)
    ensures (forall k :: !Candidate(s, k)) <==> r == Ok("")
    ensures r.Err? ==> r.error == ValueError(DATE_VALUE_ERROR)
    ensures r.Ok? && r.value != "" ==>
              exists i :: LastCandidate(s, i)
                          && ParseStamp(s[i..i + 15]).Ok? && r.value == FormatDate(ParseStamp(s[i..i + 15]).value)
    ensures forall i :: LastCandidate(s, i) ==>
              && (r.Ok? <==> ParseStamp(s[i..i + 15]).Ok?)
              && (r.Ok? ==> r.value == FormatDate(ParseStamp(s[i..i + 15]).value))
  {
    match DateGroup(s)
    case None => Ok("")
    case Some(i) =>
      LastCandidateUnique(s, i);
      DateAt(s, i)
  }

  /** The date starting at `i` reformatted, or ValueError when it is not a
      valid date; a date always reformats to a non-empty text. */
  function DateAt(s: string, i: nat): (r: Result<string>)
    requires IsDateAt(s, i)
    ensures r.Ok? <==> ParseStamp(s[i..i + 15]).Ok?
    ensures r.Ok? ==> r.value == FormatDate(ParseStamp(s[i..i + 15]).value) && r.value != ""
    ensures r.Err? ==> r.error == ValueError(DATE_VALUE_ERROR)
  {
    var g := s[i..i + 15];
    assert IsDateAt(g, 0) by {
      assert g[0..8] == s[i..i + 8] && g[9..15] == s[i + 9..i + 15];
    }
    match ParseStamp(g)
    case Err(e) => Err(e)
    case Ok(t) =>
      assert |Decimal(t.year)| > 0;
      Ok(FormatDate(t))
  }

  /** There is at most one last candidate. */
  lemma LastCandidateUnique(s: string, j: nat)
    requires LastCandidate(s, j)
    ensures forall i :: LastCandidate(s, i) ==> i == j
  {
    forall i | LastCandidate(s, i)
      ensures i == j
    {
    }
  }

  /** The date shown for a dump is the stamp its name was made with. */
  lemma DumpNameDate(dbname: string, t: Stamp)
    requires '\n' !in dbname
    requires ValidStamp(t)
    ensures DateFromDumpname(DB.DumpName(dbname, StampText(t))) == Ok(FormatDate(t))
  {
    var stamp := StampText(t);
    var s := DB.DumpName(dbname, stamp);
    var i := |dbname| + 1;
    assert s[i..i + 15] == stamp;
    ParseOfStampText(t);
    assert s[i..i + 8] == stamp[0..8] && s[i + 9..i + 15] == stamp[9..15];
    assert IsDateAt(s, i);
    assert Candidate(s, i) by {
      forall j | 0 <= j < i
        ensures s[j] != '\n'
      {
        if j < |dbname| {
          assert s[j] == dbname[j];
        }
      }
    }
    forall k | i < k
      ensures !IsDateAt(s, k)
    {
    }
    var g := DateGroup(s);
    assert g == Some(i);
  }

  // ---------------------------------------------------------------------
  // Dumps of one database

  /** `dumps_for(db)` over the listing: `db/dump` for each dump listed under
      `db`, in listing order, and nothing for an unknown database. */
  function DumpsFor(groups: seq<Group>, db: string): (r: seq<string>)
    ensures |r| == |Lookup(groups, db)|
    ensures forall i :: 0 <= i < |r| ==> r[i] == ObjectKey(db, Lookup(groups, db)[i])
  {
    var files := Lookup(groups, db);
    seq(|files|, i requires 0 <= i < |files| => ObjectKey(db, files[i]))
  }

  /** Reference definition: the keys of a key list that belong to `db`, in
      order. */
  function KeysUnder(keys: seq<string>, db: string): seq<string> {
    if keys == [] then []
    else
      (match KeyParts(keys[0])
       case Some((d, f)) => if d == db then [keys[0]] else []
       case None => [])
      + KeysUnder(keys[1..], db)
  }

  /** Over the S3 listing, a database's dumps are exactly its keys, in the
      order the bucket listed them. */
  lemma {:induction false} DumpsForListsKeys(keys: seq<string>, db: string)
    ensures DumpsFor(GroupedKeys(keys), db) == KeysUnder(keys, db)
    decreases |keys|
  {
    FilesToKeys(keys, db);
  }

  lemma {:induction false} FilesToKeys(keys: seq<string>, db: string)
    ensures |FilesUnder(keys, db)| == |KeysUnder(keys, db)|
    ensures forall i :: 0 <= i < |KeysUnder(keys, db)| ==> KeysUnder(keys, db)[i] == ObjectKey(db, FilesUnder(keys, db)[i])
    decreases |keys|
  {
    if keys != [] {
      FilesToKeys(keys[1..], db);
      match KeyParts(keys[0])
      case None =>
      case Some((d, f)) =>
        if d == db {
          KeyPartsJoin(keys[0]);
          var fs, ks := FilesUnder(keys, db), KeysUnder(keys, db);
          assert fs == [f] + FilesUnder(keys[1..], db);
          assert ks == [keys[0]] + KeysUnder(keys[1..], db);
          forall i | 0 <= i < |ks|
            ensures ks[i] == ObjectKey(db, fs[i])
          {
            if i > 0 {
              assert ks[i] == KeysUnder(keys[1..], db)[i - 1];
              assert fs[i] == FilesUnder(keys[1..], db)[i - 1];
            }
          }
        }
    }
  }

  /** The TypeError Python raises for a keyword the method does not take. */
  const LIST_DUMPS_KEYWORD_ERROR := "list_dumps() got an unexpected keyword argument 'dbname'"

  /** The body of `/api/dumps/<db>`: ordered keys when the listing keeps an
      order, a set when it does not. */
  datatype DumpKeys = OrderedKeys(keys: seq<string>) | UnorderedKeys(keySet: set<string>)

  /** `dumps_for(db)` as written: `list_dumps` is called with a `dbname`
      keyword the orchestrator's method does not accept, so the call raises
      before any listing happens. */
  function ApiDumpsAsWritten(w: World, db: string): (r: Effect<DumpKeys>)
    ensures r.fs == w.fs && r.calls == []
    ensures r.result == Err(TypeError(LIST_DUMPS_KEYWORD_ERROR))
  {
    Effect(w.fs, [], Err(TypeError(LIST_DUMPS_KEYWORD_ERROR)))
  }

  /** `dumps_for(db)` as intended: the storage listing restricted to `db`,
      then `db/dump` for each dump under `db`. Over S3 these are exactly the
      bucket's keys under `db`, in listing order; over a local directory,
      the files of the directories named `db`. */
  function ApiDumps(b: BG.Bagger, w: World, db: string): (r: Effect<DumpKeys>)
    ensures b.storage.S3StorageCommander? ==>
              var s := b.storage.settings;
              && r.calls == [ST.S3Invocation(s, w.environ, ST.ListArgv(s, db))]
              && var p := w.run(r.calls[0]);
              && (r.result.Err? <==> Failed(p))
              && (r.result.Err? ==> r.result.error == BagError(DumpStorageError(p.stderr)))
              && (r.result.Ok? ==>
                    var keys := match w.decodeKeys(p.stdout) case None => [] case Some(ks) => ks;
                    r.result.value == OrderedKeys(KeysUnder(keys, db)))
    ensures b.storage.LocalStorageCommander? ==>
              var walk := w.walk(b.storage.storageDir);
              && r.calls == [] && r.result.Ok? && r.result.value.UnorderedKeys?
              && forall x :: x in r.result.value.keySet <==>
                               exists f :: HoldsFile(walk, db, f) && x == ObjectKey(db, f)
  {
    var listing := ST.ListByDb(b.storage, w, db);
    if listing.result.Err? then Effect(listing.fs, listing.calls, Err(listing.result.error))
    else
      match listing.result.value
      case S3Listing(groups) =>
        var p := w.run(listing.calls[0]);
        var keys := match w.decodeKeys(p.stdout) case None => [] case Some(ks) => ks;
        assert DumpsFor(groups, db) == KeysUnder(keys, db) by {
          assert groups == GroupedKeys(keys);
          DumpsForListsKeys(keys, db);
        }
        Effect(listing.fs, listing.calls, Ok(OrderedKeys(DumpsFor(groups, db))))
      case LocalListing(dirs) =>
        var walk := w.walk(b.storage.storageDir);
        assert forall f :: HoldsFile(walk, db, f) ==> db in dirs && f in dirs[db] by {
          forall f | HoldsFile(walk, db, f)
            ensures db in dirs && f in dirs[db]
          {
            var i :| 0 <= i < |walk| && Basename(walk[i].dirpath) == db && f in walk[i].filenames;
            assert Contributes(walk[i], db, db);
          }
        }
        var under := if db in dirs then dirs[db] else {};
        Effect(listing.fs, listing.calls, Ok(UnorderedKeys(set f | f in under :: ObjectKey(db, f))))
  }

  /** Every request to the dumps API fails as written, while the intended
      handler answers the local listing without launching anything. */
  lemma ApiDumpsNeverAnswers(b: BG.Bagger, w: World, db: string)
    requires b.storage.LocalStorageCommander?
    ensures ApiDumpsAsWritten(w, db).result.Err?
    ensures ApiDumps(b, w, db).result.Ok?
  {
  }

  // ---------------------------------------------------------------------
  // Nightly dumps

  function Last(xs: seq<string>): string
    requires |xs| > 0
  {
    xs[|xs| - 1]
  }

  /** `get_nightlies` over the S3 listing: for each database in listing
      order, the URL of its last dump when that dump's name contains today's
      `YYYYMMDD`. */
  function Nightlies(s: ST.S3Settings, today: string, groups: seq<Group>): (r: seq<string>)
    requires forall i :: 0 <= i < |groups| ==> |groups[i].files| > 0
    ensures |r| <= |groups|
    ensures forall x :: x in r <==>
              exists i :: 0 <= i < |groups| && Contains(Last(groups[i].files), today)
                          && x == ST.ObjectUrl(s, groups[i].db, Last(groups[i].files))
  {
    if groups == [] then []
    else
      var g := groups[0];
      var url := ST.DownloadCommands(ST.S3StorageCommander(s), g.db, Last(g.files)).1["s3_url"];
      var rest := Nightlies(s, today, groups[1..]);
      assert forall x :: x in rest <==>
               exists i :: 1 <= i < |groups| && Contains(Last(groups[i].files), today)
                           && x == ST.ObjectUrl(s, groups[i].db, Last(groups[i].files)) by {
        forall x | x in rest
          ensures exists i :: 1 <= i < |groups| && Contains(Last(groups[i].files), today)
                              && x == ST.ObjectUrl(s, groups[i].db, Last(groups[i].files))
        {
          var j :| 0 <= j < |groups[1..]| && Contains(Last(groups[1..][j].files), today)
                   && x == ST.ObjectUrl(s, groups[1..][j].db, Last(groups[1..][j].files));
          assert groups[1..][j] == groups[j + 1];
        }
        forall x, i | 1 <= i < |groups| && Contains(Last(groups[i].files), today)
                      && x == ST.ObjectUrl(s, groups[i].db, Last(groups[i].files))
          ensures x in rest
        {
          assert groups[1..][i - 1] == groups[i];
        }
      }
      (if Contains(Last(g.files), today) then [url] else []) + rest
  }

  /** A database whose last dump carries today's date. */
  predicate IsNightly(today: string, g: Group) {
    |g.files| > 0 && Contains(Last(g.files), today)
  }

  /** The nightly databases, in listing order, each as often as it is
      listed. */
  function NightlyGroups(today: string, groups: seq<Group>): (r: seq<Group>)
    ensures |r| <= |groups|
    ensures forall i :: 0 <= i < |r| ==> IsNightly(today, r[i])
    ensures forall g :: g in r <==> g in groups && IsNightly(today, g)
  {
    if groups == [] then []
    else
      assert forall g :: g in groups <==> g == groups[0] || g in groups[1..] by {
        assert groups == [groups[0]] + groups[1..];
      }
      (if IsNightly(today, groups[0]) then [groups[0]] else []) + NightlyGroups(today, groups[1..])
  }

  /** One step of `get_nightlies`: the first database's URL when it is
      nightly, then the rest. */
  lemma NightliesCons(s: ST.S3Settings, today: string, groups: seq<Group>)
    requires groups != [] && forall i :: 0 <= i < |groups| ==> |groups[i].files| > 0
    ensures Nightlies(s, today, groups)
            == (if IsNightly(today, groups[0]) then [ST.ObjectUrl(s, groups[0].db, Last(groups[0].files))] else [])
               + Nightlies(s, today, groups[1..])
  {
  }

  /** `get_nightlies` is the nightly databases mapped, in order and with
      repetitions, to the URLs of their last dumps. */
  lemma {:induction false} NightliesInOrder(s: ST.S3Settings, today: string, groups: seq<Group>)
    requires forall i :: 0 <= i < |groups| ==> |groups[i].files| > 0
    ensures var f := NightlyGroups(today, groups);
            && |Nightlies(s, today, groups)| == |f|
            && forall j :: 0 <= j < |f| ==> Nightlies(s, today, groups)[j] == ST.ObjectUrl(s, f[j].db, Last(f[j].files))
  {
    if groups != [] {
      var g := groups[0];
      var f := NightlyGroups(today, groups);
      var tail := NightlyGroups(today, groups[1..]);
      NightliesInOrder(s, today, groups[1..]);
      NightliesCons(s, today, groups);
      var rest := Nightlies(s, today, groups[1..]);
      if IsNightly(today, g) {
        assert f == [g] + tail;
        forall j | 0 <= j < |f|
          ensures Nightlies(s, today, groups)[j] == ST.ObjectUrl(s, f[j].db, Last(f[j].files))
        {
          if j > 0 {
            assert f[j] == tail[j - 1];
          }
        }
      } else {
        assert f == tail;
      }
    }
  }

  /** A dump pushed last, whose name carries today's date, is among the
      nightly URLs, at the URL the download instructions give. */
  lemma NightlyIncludesLatestPush(s: ST.S3Settings, today: string, keys: seq<string>, dbname: string, filename: string)
    requires '/' !in dbname && '/' !in filename
    requires Contains(filename, today)
    ensures var groups := GroupedKeys(keys + [ObjectKey(dbname, filename)]);
            ST.ObjectUrl(s, dbname, filename) in Nightlies(s, today, groups)
  {
    var groups := GroupedKeys(keys + [ObjectKey(dbname, filename)]);
    ListedAfterPush(keys, dbname, filename);
    var i := LookupEntry(groups, dbname);
    assert Last(groups[i].files) == filename;
  }
}
