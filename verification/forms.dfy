/** The search form of the dumps page: one text field, checked by a chain of
    validators. A failing "required" check stops the chain; the other
    checks each add their message. */
module Forms {
  import opened Errors
  import opened Text
  import opened Listing
  import opened Proc
  import ST = Storage
  import BG = Bagger

  const REQUIRED_MESSAGE := "This field is required."
  const WORD_MESSAGE := "Only letters numbers or _."
  const LENGTH_MESSAGE := "Field must be between 2 and 64 characters long."
  const MIN_LENGTH := 2
  const MAX_LENGTH := 64

  function NotFoundMessage(search: string): string {
    search + " not in any of the db names."
  }

  /** The class `\w` over ASCII: letters, digits and the underscore. */
  predicate IsWordChar(c: char) {
    ('A' <= c <= 'Z') || ('a' <= c <= 'z') || ('0' <= c <= '9') || c == '_'
  }

  /** The database names of a dump listing: the keys of the dictionary
      `list_dumps()` answers. */
  function DbNames(listing: ST.DumpListing): (r: set<string>)
    ensures listing.LocalListing? ==> r == listing.dirs.Keys
    ensures listing.S3Listing? ==> forall k :: k in r <==> k in Dbs(listing.groups)
  {
    match listing
    case LocalListing(dirs) => dirs.Keys
    case S3Listing(groups) => set i | 0 <= i < |groups| :: groups[i].db
  }

  /** `validate_search`: the search text must occur, as a contiguous piece,
      in at least one database name. */
  function ValidateSearch(search: string, names: set<string>): (r: Result<()>)
    ensures r.Ok? <==> exists k, i :: k in names && OccursAt(k, search, i)
    ensures r.Err? ==> r.error == ValidationError(NotFoundMessage(search))
  {
    forall k | k in names
      ensures Contains(k, search) <==> exists i :: OccursAt(k, search, i)
    {
      ContainsIffOccurs(k, search);
    }
    if exists k :: k in names && Contains(k, search) then Ok(()) else Err(ValidationError(NotFoundMessage(search)))
  }

  /** The errors `SearchForm.validate()` collects for the field, in the
      order of the validators: DataRequired, Regexp, Length, then
      validate_search. */
  function SearchErrors(search: string, names: set<string>): (errors: seq<string>)
    ensures (forall i :: 0 <= i < |search| ==> IsSpace(search[i])) ==> errors == [REQUIRED_MESSAGE]
    ensures (exists i :: 0 <= i < |search| && !IsSpace(search[i])) ==>
              && REQUIRED_MESSAGE !in errors
              && (WORD_MESSAGE in errors <==> !WholeRun(search, IsWordChar))
              && (LENGTH_MESSAGE in errors <==> !(MIN_LENGTH <= |search| <= MAX_LENGTH))
              && (NotFoundMessage(search) in errors <==> forall k, i :: k in names ==> !OccursAt(k, search, i))
  {
    if |Strip(search)| == 0 then [REQUIRED_MESSAGE]
    else
      var regexp := if MatchesRun(search, IsWordChar) then [] else [WORD_MESSAGE];
      var length := if MIN_LENGTH <= |search| <= MAX_LENGTH then [] else [LENGTH_MESSAGE];
      var found := if ValidateSearch(search, names).Ok? then [] else [NotFoundMessage(search)];
      NotFoundDiffers(search);
      regexp + length + found
  }

  /** The not-found message is neither of the fixed messages. */
  lemma NotFoundDiffers(search: string)
    ensures NotFoundMessage(search) != WORD_MESSAGE
    ensures NotFoundMessage(search) != LENGTH_MESSAGE
    ensures NotFoundMessage(search) != REQUIRED_MESSAGE
  {
    var m := NotFoundMessage(search);
    var tail := " not in any of the db names.";
    assert m[|m| - |tail|..] == tail;
    assert m[|m| - 2] == 's';
    assert WORD_MESSAGE[|WORD_MESSAGE| - 2] == '_';
    assert LENGTH_MESSAGE[|LENGTH_MESSAGE| - 2] == 'g';
    assert REQUIRED_MESSAGE[|REQUIRED_MESSAGE| - 2] == 'd';
  }

  /** The form accepts the search. */
  predicate Accepted(search: string, names: set<string>) {
    SearchErrors(search, names) == []
  }

  /** The form accepts exactly a non-blank word of 2 to 64 characters that
      occurs in some database name. */
  lemma AcceptedIff(search: string, names: set<string>)
    ensures Accepted(search, names) <==>
              && WholeRun(search, IsWordChar)
              && MIN_LENGTH <= |search| <= MAX_LENGTH
              && exists k, i :: k in names && OccursAt(k, search, i)
  {
    if WholeRun(search, IsWordChar) {
      assert !IsSpace(search[0]);
    }
  }

  /** Searching for a database's full name passes the search check. */
  lemma SearchForDbNamePasses(search: string, names: set<string>)
    requires search in names
    ensures ValidateSearch(search, names).Ok?
  {
    assert OccursAt(search, search, 0);
  }

  /** A listing without databases refuses every search. */
  lemma EmptyListingRefusesAll(search: string)
    ensures !Accepted(search, {})
    ensures ValidateSearch(search, {}) == Err(ValidationError(NotFoundMessage(search)))
  {
  }

  /** `SearchForm.validate()` with `validate_search` consulting the
      orchestrator built from `config`: a blank search stops at the
      required check before any listing; otherwise a TypeError from the
      orchestrator's construction or a storage error from its listing
      escapes the form, and when both succeed the field's errors are
      collected against the listed database names. */
  function Validate(config: BG.Config, w: World, search: string): (r: Effect<seq<string>>)
    ensures r.fs == w.fs
    ensures (forall i :: 0 <= i < |search| ==> IsSpace(search[i])) ==>
              r.calls == [] && r.result == Ok([REQUIRED_MESSAGE])
    ensures (exists i :: 0 <= i < |search| && !IsSpace(search[i])) ==>
              && (BG.NewBagger(config).Err? ==> r.calls == [] && r.result == Err(TypeError(NO_COMMANDER)))
              && (BG.NewBagger(config).Ok? ==>
                    var listing := BG.ListDumps(BG.NewBagger(config).value, w);
                    && r.calls == listing.calls
                    && (r.result.Err? <==> listing.result.Err?)
                    && (r.result.Err? ==> r.result.error == listing.result.error)
                    && (r.result.Ok? ==> r.result.value == SearchErrors(search, DbNames(listing.result.value))))
  {
    if |Strip(search)| == 0 then Effect(w.fs, [], Ok([REQUIRED_MESSAGE]))
    else
      match BG.NewBagger(config)
      case Err(e) => Effect(w.fs, [], Err(e))
      case Ok(b) =>
        var listing := BG.ListDumps(b, w);
        if listing.result.Err? then Effect(w.fs, listing.calls, Err(listing.result.error))
        else Effect(w.fs, listing.calls, Ok(SearchErrors(search, DbNames(listing.result.value))))
  }

  /** The form validates without errors exactly when the orchestrator can
      be built, its listing succeeds, and the search is a word of 2 to 64
      characters occurring in one of the listed database names. */
  lemma ValidateAcceptsIff(config: BG.Config, w: World, search: string)
    ensures Validate(config, w, search).result == Ok([]) <==>
              && BG.NewBagger(config).Ok?
              && BG.ListDumps(BG.NewBagger(config).value, w).result.Ok?
              && WholeRun(search, IsWordChar)
              && MIN_LENGTH <= |search| <= MAX_LENGTH
              && exists k, i :: k in DbNames(BG.ListDumps(BG.NewBagger(config).value, w).result.value)
                                && OccursAt(k, search, i)
  {
    if BG.NewBagger(config).Ok? && BG.ListDumps(BG.NewBagger(config).value, w).result.Ok? {
      AcceptedIff(search, DbNames(BG.ListDumps(BG.NewBagger(config).value, w).result.value));
    }
    if WholeRun(search, IsWordChar) {
      assert !IsSpace(search[0]);
    }
  }
}
