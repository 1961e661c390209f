# dump-bag, modelled in Dafny

The dump bag server lists the databases of a PostgreSQL server, dumps one of them with `pg_dump`, and pushes the dump to a store. The store is either a local directory or an S3 bucket driven through the `aws` command-line tool. The server can list and read back the stored dumps, prints download instructions, and offers a search form over the database names. Each subsystem (database, storage, encryption) has its own options type. A factory builds the commander that the options name, and raises `TypeError` when the options name none.

This project models that core as pure functions over values:

- Every child process (`psql`, `pg_dump`, `aws`, `gpg`) is an `Invocation`: an argument vector plus an environment. It is answered by a `ProcResult` read off a `World`. The result holds the exit code, stdout, stderr and the files the child wrote.
- The filesystem is a map from paths to contents plus a set of directories.
- The other inputs are also taken from the `World`:
  - `os.walk`;
  - `tempfile.mkdtemp`;
  - the outcome of `shutil.rmtree`;
  - the JSON decoding of a key listing.
- Each operation returns an `Effect`: the filesystem it leaves, the processes it launched in order, and a `Result` that is either the value or the exception raised.

Modules:

- `Errors`: the exception taxonomy (`DumpBagError` with its five kinds, plus the built-in errors the code raises).
- `Seqs`, `Text`, `Proc`, `Files`: Python's string, path and file primitives as the code uses them. This includes `str.split`, `in`, `os.path.join`/`basename`/`dirname`, `os.makedirs` and `shutil.copy2`.
- `Listing`: the two `list_by_db` groupings, and the key a dump is stored under.
- `Database`: the factory, the static and PostgreSQL commanders, the allow/deny filter, and dump creation.
- `Storage`: the factory, the local and S3 commanders, `read_dump` chunking, and the download instructions.
- `Encryption`: the factory, the no-op commander, and the gpg command line.
- `Bagger`: the orchestrator built from a configuration.
- `Views`: the database-name URL converter, the date shown for a dump name, the dumps of one database, and the nightly URLs.
- `Forms`: the search form's validators.

## Model

| member | source | states |
|---|---|---|
| Text.Words | server/dumpbagserver/database.py:101 | the whitespace-split tokens of psql's output are non-empty and free of whitespace |
| Text.WordsOfLines | server/dumpbagserver/database.py:101 | splitting one-name-per-line output on whitespace gives back exactly the printed names, in order |
| Text.JoinOfSplit | server/dumpbagserver/storage.py:204 | `split('/')` loses nothing: joining the parts with `/` restores the key |
| Text.SplitOfJoin | server/dumpbagserver/storage.py:204 | splitting slash-free parts joined by `/` gives back those parts |
| Text.ContainsIffOccurs | server/dumpbagserver/forms.py:24 | the substring test `parse in bds` holds iff the needle occurs contiguously at some offset |
| Text.PathJoin | server/dumpbagserver/storage.py:80 | `os.path.join` ends with its second argument and, for a relative second argument, extends the first |
| Text.Basename | server/dumpbagserver/storage.py:100 | `os.path.basename` is the slash-free tail after the last slash |
| Text.BasenameAfterSlash | server/dumpbagserver/storage.py:100 | the basename of `a/b` with slash-free `b` is `b` |
| Text.DirnameAfterSlash | server/dumpbagserver/storage.py:82-83 | the parent of `a/b` (slash-free `b`, `a` not ending in `/`) is `a`, which `os.makedirs` creates first |
| Text.MatchesRun | server/dumpbagserver/views.py:17 | `re.match("^[...]+$")` accepts iff the text is a non-empty run of the class, optionally followed by one newline |
| Text.Strip | server/dumpbagserver/forms.py:12 | `str.strip()` is empty iff every character is whitespace |
| Text.Decimal | server/dumpbagserver/views.py:130 | `%Y` prints the year as its decimal digits without leading zeros |
| Text.Pad | server/dumpbagserver/views.py:129 | a zero-padded field has exactly its width and reads back as the number |
| Proc.Overlay | server/dumpbagserver/storage.py:131-132 | a copy of the environment updated with extra variables: the extras win, the rest of the environment is kept, nothing else appears |
| Proc.WithWrites | server/dumpbagserver/database.py:116-119 | the files a child wrote replace or join the existing ones; directories and other files stay |
| Files.WriteFile | server/dumpbagserver/database.py:59-60 | `open(target, 'w')` succeeds iff the path is not a directory, has a file name, and its parent exists as a directory; it then maps the path to the content and keeps the tree consistent |
| Files.ReadFile | server/dumpbagserver/storage.py:93 | `open(path, 'rb')` gives the file's content iff the path is a file; ENOENT or EISDIR otherwise |
| Files.Mkdir | server/dumpbagserver/storage.py:83 | `os.mkdir` fails with EEXIST on an existing path and otherwise only adds that directory |
| Files.MakeDirs | server/dumpbagserver/storage.py:83 | `os.makedirs` leaves files alone, only adds directories that did not exist, ends with the target a directory on success, and keeps the tree consistent |
| Files.Copy2 | server/dumpbagserver/storage.py:85 | `shutil.copy2` writes the source's bytes to the destination (or into it when it is a directory); a missing source gives ENOENT; the tree stays consistent |
| Files.MakeDirsUnderDir | server/dumpbagserver/storage.py:82-83 | making a missing child of an existing directory adds exactly that directory |
| Files.CopyIntoDir | server/dumpbagserver/storage.py:84-85 | copying a file to a new name inside an existing directory adds exactly that file with the source's bytes |
| Listing.AddFileLookup | server/dumpbagserver/storage.py:208-209 | `setdefault(db, []).append(f)` appends `f` to `db`'s list and changes no other list |
| Listing.AddFileDbs | server/dumpbagserver/storage.py:208 | a new database becomes the last key; a known one keeps the key order |
| Listing.GroupKeysLookup | server/dumpbagserver/storage.py:203-209 | under each database the S3 listing holds exactly the file halves of that database's two-part keys, in key order |
| Listing.GroupKeysShape | server/dumpbagserver/storage.py:203-209 | the databases appear once each in first-key order, and none has an empty list |
| Listing.GroupedKeys | server/dumpbagserver/storage.py:202-210 | the grouping of a key list is well formed, ordered by first key, and holds each database's files |
| Listing.ObjectKeyParts | server/dumpbagserver/storage.py:143 | a key `db/filename` built from slash-free halves splits back into those halves |
| Listing.KeyPartsJoin | server/dumpbagserver/storage.py:204-207 | a key that splits into two parts is those parts joined by a slash |
| Listing.ListedAfterPush | server/dumpbagserver/storage.py:203-209 | a key appended to the bucket's list puts its file last under its database |
| Listing.SampleListing | server/dumpbagserver/storage.py:203-209 | a key without a slash is dropped; the rest are grouped per database in order |
| Listing.MergeSpec | server/dumpbagserver/storage.py:103-105 | one walked directory adds its files to the set under its basename, and only when it contributes |
| Listing.GroupWalkSpec | server/dumpbagserver/storage.py:99-105 | a key is present iff some walked directory with that basename has files and passes the filter; its set is exactly the files of such directories |
| Listing.LocalGroups | server/dumpbagserver/storage.py:96-106 | the local listing has a key per contributing basename holding all its files, and only the filtered name when one is given |
| Listing.SampleWalk | server/dumpbagserver/storage.py:96-106 | a root without files and one database directory with three dumps gives that directory's basename mapped to the three dumps |
| Database.NewCommander | server/dumpbagserver/database.py:33-38 | the factory fails with TypeError exactly for the base options; otherwise it builds the commander of the given options |
| Database.ListInvocation | server/dumpbagserver/database.py:76-92 | the psql call carries the password only as PGPASSWORD in the environment, keeps the rest of the environment, and its argv holds only fixed words, host, port and user |
| Database.DumpInvocation | server/dumpbagserver/database.py:103-118 | the pg_dump call ends with the database name, carries the password only in the environment, and its argv holds only fixed words and the connection fields, target and name |
| Database.ListRaw | server/dumpbagserver/database.py:81-101 | the static commander answers its six names without a call; psql's stdout is split into words and a failing exit is not raised |
| Database.PostgresListsPrintedNames | server/dumpbagserver/database.py:97-101 | when psql prints one name per line, the listing is exactly those names |
| Database.ExecDump | server/dumpbagserver/database.py:103-124 | the static dump launches nothing and succeeds exactly when `open(target, 'w')` can create the target, then holds `test <db>` there and keeps the other files; otherwise the OSError escapes and nothing changes; pg_dump raises DumpingError with its stderr on a non-zero exit |
| Database.StaticDumpReadsBack | server/dumpbagserver/database.py:58-60 | a writable target read back after the static dump gives `test <db>` |
| Database.StaticDumpFileHoldsDump | server/dumpbagserver/database.py:157-165 | for a listed, non-excluded static database, creating the dump file answers its generated name, and the file at `tmpdir/<name>` holds `test <db>` |
| Database.SelectVisible | server/dumpbagserver/database.py:145-151 | reference filter: an order-preserving subsequence holding exactly the names passing both lists |
| Database.AllowThenDenyIsOnePass | server/dumpbagserver/database.py:145-151 | the allow-list pass followed by the deny-list pass equals the one-pass reference filter |
| Database.ListVisible | server/dumpbagserver/database.py:145-151 | the filtered list is a subsequence, within a non-empty allow-list, outside a non-empty deny-list, and unchanged when both are empty |
| Database.ListDatabases | server/dumpbagserver/database.py:145-151 | the wrapper's listing is the commander's answer filtered, with the commander's calls |
| Database.StaticWithoutSystemDatabases | server/dumpbagserver/database.py:55-56 | excluding postgres, template0 and template1 from the static list leaves db1, db2, db3 |
| Database.CreateDumpFile | server/dumpbagserver/database.py:153-165 | a name not listed raises DumpingError with no dump attempted; otherwise one exec_dump on `tmpdir/<db>-<stamp>.pg` and that name returned, or exec_dump's error |
| Storage.NewCommander | server/dumpbagserver/storage.py:36-41 | the factory fails with TypeError exactly for the base options; otherwise it builds the commander of the given options |
| Storage.LocalPush | server/dumpbagserver/storage.py:79-85 | the local push launches nothing, only adds directories, succeeds only for an existing source, and keeps the tree consistent |
| Storage.LocalRead | server/dumpbagserver/storage.py:87-94 | the local read gives the stored bytes iff the path is a file, and DumpNotExistError exactly when nothing exists there |
| Storage.LocalPushThenRead | server/dumpbagserver/storage.py:79-94 | after a successful local push, reading the same database and name gives the source's bytes |
| Storage.LocalRoundTrip | server/dumpbagserver/storage.py:79-94 | pushing an existing file into a store directory succeeds, creating the database directory if needed, and reads back unchanged |
| Storage.LocalListByDb | server/dumpbagserver/storage.py:96-106 | the local listing over the walk of the store directory, grouped by basename, filtered by the name given |
| Storage.S3Invocation | server/dumpbagserver/storage.py:125-133 | every aws call carries both credentials in its environment and keeps the rest of the server's environment |
| Storage.ExecS3 | server/dumpbagserver/storage.py:130-140 | one call; a non-zero exit raises DumpStorageError with stderr, otherwise stdout is returned |
| Storage.S3Push | server/dumpbagserver/storage.py:142-166 | the upload to `s3://bucket/db/filename` comes first; the expiry tagging of the same key runs iff the upload succeeded; the push succeeds iff both do, else the failing call's stderr is raised |
| Storage.CleanUp | server/dumpbagserver/storage.py:183-188 | removal errors other than ENOENT are raised and replace the outcome, leaving the temporary directory behind |
| Storage.S3ReadAsWritten | server/dumpbagserver/storage.py:174-188 | as written, a failing download raises DumpStorageError with its stderr and leaves the temporary directory behind; after a successful download the directory is removed unless removal fails with other than ENOENT, and the answer is the downloaded content |
| Storage.S3Read | server/dumpbagserver/storage.py:174-188 | one download into a fresh temporary directory; the directory is left behind only when its removal fails with something other than ENOENT; the content is what the download wrote |
| Storage.S3ReadLeaksOnFailedDownload | server/dumpbagserver/storage.py:176-180 | with a failing download and a working removal, the code as written leaves the directory while the corrected read does not, with the same error |
| Storage.S3ReadAgreesAfterDownload | server/dumpbagserver/storage.py:180-188 | once the download succeeded, the code as written and the corrected read behave identically |
| Storage.ListArgv | server/dumpbagserver/storage.py:196-200 | the listing argv is the seven fixed words with the bucket, plus `--prefix db/` exactly when a name is given |
| Storage.S3ListByDb | server/dumpbagserver/storage.py:190-210 | one aws call; its failure is raised; otherwise the decoded keys (none for null) are grouped by database in order |
| Storage.PushToStorage | server/dumpbagserver/storage.py:43-44 | the local push launches nothing; the S3 push leaves local files alone and uploads to the URL the download instructions give |
| Storage.PushedReadsBack | server/dumpbagserver/storage.py:79-94 | after a successful local push, reading through the same commander gives the source file's bytes |
| Storage.StorageRoundTrip | server/dumpbagserver/storage.py:79-94 | pushing an existing file into a fresh place of an existing store through the commander succeeds, and reading it through the commander gives its bytes |
| Storage.ReadFromStorage | server/dumpbagserver/storage.py:47-52 | locally: no call, nothing left behind, the stored bytes iff the path is a file, DumpNotExistError iff nothing is there; over S3: one download, the temporary directory left behind only when its removal fails with other than ENOENT, the download's stderr raised on failure, otherwise the downloaded content |
| Storage.ListByDb | server/dumpbagserver/storage.py:54-60 | locally: no call, a key per contributing directory basename holding exactly the files of such directories; over S3: one listing call whose failure is raised as DumpStorageError, otherwise databases in first-key order, each holding exactly its keys' file halves in key order |
| Storage.Chunks | server/dumpbagserver/storage.py:64 | chunks are non-empty, at most 1024 bytes, and all but the last exactly 1024 |
| Storage.ChunksConcat | server/dumpbagserver/storage.py:62-65 | the chunks concatenate back to the content |
| Storage.ReadDump | server/dumpbagserver/storage.py:62-65 | `read_dump` yields chunks whose concatenation is the stored content, or raises the read's error |
| Storage.DownloadCommands | server/dumpbagserver/storage.py:212-221 | the local commander gives no instructions; S3 gives the two lines and `s3_url` set to the object's URL |
| Storage.DownloadUrlIsUploadTarget | server/dumpbagserver/storage.py:150 | the download URL is the upload target of the push, whose key lists under its database |
| Encryption.NewCommander | server/dumpbagserver/encryption.py:32-37 | the factory fails with TypeError exactly for the base options; otherwise it builds the commander of the given options |
| Encryption.RecipientArgs | server/dumpbagserver/encryption.py:63-66 | one `--recipient r` pair per recipient, in order |
| Encryption.RecipientsRoundTrip | server/dumpbagserver/encryption.py:63-66 | the recipients can be read back from the argument pairs |
| Encryption.GpgArgv | server/dumpbagserver/encryption.py:59-67 | the gpg argv is the fixed prefix, the recipient pairs, then the joined target last |
| Encryption.Encrypt | server/dumpbagserver/encryption.py:58-75 | the no-op commander returns the name and does nothing; gpg runs once, raises DumpEncryptionError with stderr on a non-zero exit, else returns `<name>.gpg` |
| Encryption.EncryptedNameIsGpgOutput | server/dumpbagserver/encryption.py:59-75 | the name the gpg commander returns, joined to the directory, is gpg's default output path, the target with `.gpg` appended, and the state afterwards holds what gpg wrote there |
| Bagger.NewBagger | server/dumpbagserver/bagger.py:7-15 | construction succeeds iff both factories do, otherwise raises their TypeError; the commanders are those of the configured options, with the configured exclusions |
| Bagger.ListDatabases | server/dumpbagserver/bagger.py:17-18 | the orchestrator's listing is the commander's list minus the exclusions, in order, with no allow-list |
| Bagger.BagOneDatabase | server/dumpbagserver/bagger.py:20-24 | exactly one push of the scope's path and name, then that same name returned; a scope error means no push |
| Bagger.BaggedDumpReadsBack | server/dumpbagserver/bagger.py:20-24 | with a local store, the dump reads back unchanged under the returned name: nothing was encrypted |
| Bagger.ListDumps | server/dumpbagserver/bagger.py:26-27 | locally: no call, every contributing directory basename with exactly the files of such directories; over S3: one unfiltered listing call, its failure raised as DumpStorageError, otherwise every database of a two-part key in first-key order with exactly its file halves in key order |
| Bagger.ListDumpsGroups | server/dumpbagserver/bagger.py:26-27 | the listing is the local walk grouped by basename, or on success the decoded S3 keys grouped by database |
| Bagger.ListedLastAfterPush | server/dumpbagserver/bagger.py:26-27 | over S3, a dump whose key was the last listed is the last file under its database |
| Views.ToPython | server/dumpbagserver/views.py:16-19 | a database name is accepted, unchanged, iff it is a non-empty run of `[A-Za-z0-9_-]` (one trailing newline allowed); otherwise ValidationError |
| Views.AcceptedNameKeysSplitBack | server/dumpbagserver/views.py:14-19 | an accepted database name and a slash-free file name form a key that splits back into them |
| Views.StampText | server/dumpbagserver/views.py:129 | the text of a valid stamp in `%Y%m%d-%H%M%S` has 15 characters |
| Views.LastDateBefore | server/dumpbagserver/views.py:25 | the last date-shaped position before a bound, or none |
| Views.DateGroup | server/dumpbagserver/views.py:25 | the greedy pattern captures the last date-shaped piece of the first line, and fails iff there is none |
| Views.ParseStamp | server/dumpbagserver/views.py:129 | `strptime` succeeds only on a valid calendar stamp whose text is the input; otherwise ValueError |
| Views.ParseOfStampText | server/dumpbagserver/views.py:129 | parsing the text of a valid stamp gives the stamp back |
| Views.PadOfDigits | server/dumpbagserver/views.py:129 | a field of digits is the padding of its value |
| Views.DateFromDumpname | server/dumpbagserver/views.py:123-130 | the empty string iff no date-shaped piece on the first line; for the last such piece, success iff it parses as a valid stamp, with that stamp formatted, and ValueError otherwise |
| Views.DateAt | server/dumpbagserver/views.py:129-130 | a date-shaped piece reformats iff it parses as a valid stamp, to non-empty text; otherwise ValueError |
| Views.DumpNameDate | server/dumpbagserver/views.py:123-130 | the date shown for a generated dump name is the formatted stamp it was made with |
| Views.DumpsForListsKeys | server/dumpbagserver/views.py:91-94 | over the S3 listing these are exactly the bucket's keys under the database, in order |
| Views.FilesToKeys | server/dumpbagserver/views.py:93 | the files under a database, prefixed with it, are its keys |
| Views.ApiDumpsAsWritten | server/dumpbagserver/views.py:91 | as written, the call with a `dbname` keyword raises TypeError before listing anything |
| Views.ApiDumps | server/dumpbagserver/views.py:88-94 | the dumps API lists exactly the stored keys under the database: in bucket order over S3, as the directory's files locally |
| Views.ApiDumpsNeverAnswers | server/dumpbagserver/views.py:91 | as written every request fails, while the corrected handler answers |
| Views.Nightlies | server/dumpbagserver/views.py:78-85 | at most one URL per database: the last dump's URL, exactly when its name contains today's date |
| Views.NightlyGroups | server/dumpbagserver/views.py:83-84 | reference filter: the databases whose last dump carries today's date, exactly those |
| Views.NightliesInOrder | server/dumpbagserver/views.py:78-85 | the nightly URLs are, in order and with repetitions, the nightly databases each mapped to its last dump's URL |
| Views.NightlyIncludesLatestPush | server/dumpbagserver/views.py:78-85 | a dump pushed last whose name carries today's date is among the nightly URLs |
| Forms.DbNames | server/dumpbagserver/forms.py:20-23 | the names searched are the listing's database keys |
| Forms.ValidateSearch | server/dumpbagserver/forms.py:18-27 | passes iff the search occurs contiguously in some database name; otherwise ValidationError naming the search |
| Forms.SearchErrors | server/dumpbagserver/forms.py:8-16 | a blank field gives only the required message; otherwise the word, length and search messages appear exactly when their checks fail |
| Forms.NotFoundDiffers | server/dumpbagserver/forms.py:27 | the search message is distinct from the fixed messages |
| Forms.AcceptedIff | server/dumpbagserver/forms.py:8-27 | the form accepts exactly a word of 2 to 64 characters that occurs in some database name |
| Forms.SearchForDbNamePasses | server/dumpbagserver/forms.py:23-25 | a search equal to a database name passes the search check |
| Forms.EmptyListingRefusesAll | server/dumpbagserver/forms.py:22-27 | with no databases every search is refused |
| Forms.Validate | server/dumpbagserver/forms.py:8-27 | a blank search stops at the required message without listing; otherwise the orchestrator's TypeError or the listing's storage error escapes the form, and with both succeeding the errors are those of the field against the listed database names |
| Forms.ValidateAcceptsIff | server/dumpbagserver/forms.py:8-27 | the form validates cleanly iff the orchestrator is built, its listing succeeds, and the search is a word of 2 to 64 characters occurring in a listed database name |

## Left out

- Logging, and the Flask application: routes, templates, `jsonify`, flashing and response streaming. The views are modelled as the functions that compute their answers.
- `os.environ`, child processes, `os.walk`, `tempfile.mkdtemp`, `shutil.rmtree` and `json.loads` are inputs read off the `World`. Only the argv and environment built for each child, and the mapping of exit codes to errors, are modelled.
- psql and the aws list and tagging calls are assumed not to write local files. Only pg_dump, the S3 download and gpg have their written files applied.
- The clock: the dump stamp and "today" are parameters.
- Paths are not normalised, and there are no symbolic links. `copy2`'s metadata copy and the `tail == curdir` branch of `os.makedirs` are not modelled.
- A child's stdout and stderr are the text `.decode('utf8')` gives, as a sequence of characters, since the code only uses them decoded; whitespace in `str.split()` therefore includes Unicode spaces such as U+0085 and U+00A0. File contents are sequences of bytes. The decoding itself, and its failure on invalid UTF-8, are not modelled.
- `\d` and `\w` are the ASCII classes; Python's Unicode digits and letters are not modelled.
- Views.ParseStamp: every `strptime` failure carries one fixed ValueError message, not Python's exact wording.
- Views.ApiDumpsAsWritten: the TypeError message follows one Python version's wording.
- `Database.create_temporary_dump_file` is not part of this model. `Bagger.BagOneDatabase` takes what that scope yields as an input.
- `bag_all_databases`, `has_dump_for_today`, `download_commands`, `read_dump`, `public_keys` and `recipients` on the orchestrator do not exist in the code, although the views call them. They are not modelled; the storage commander's `download_commands` and `read_dump` are.
- `get_nightlies` over a local store raises `TypeError` as soon as one database is listed, because the local listing holds sets and `v[-1]` subscripts a set; an empty local store gives `[]`. Views.Nightlies covers the S3 listing only.
- The iteration order of the local listing's dictionary and sets is not modelled. It is a map of sets.
- `DumpConfigurationError` appears in the taxonomy but no modelled code raises it. Configuration loading is not part of this model.
- Storage.LocalPush: does not state that files other than the destination are unchanged. Storage.LocalPushThenRead and Storage.LocalRoundTrip state the destination's content.
- Storage.ReadFromStorage: the S3 branch dispatches to the corrected read Storage.S3Read, so on a failing download it removes the temporary directory, which the code as written does not (see Findings); Storage.ReadDump inherits this. Storage.S3ReadAsWritten models the code as written.
- Views.StampText: zero-pads the year to four digits, while glibc's `%Y` prints years below 1000 unpadded; a clock reading never gives such a year.
- Views.FormatDate: `%Y` is printed without zero padding, as glibc does, so years below 1000 give fewer than four digits.

## Findings

| source | as written | input that shows it | evidently intended | confidence | as-written member | corrected member |
|---|---|---|---|---|---|---|
| server/dumpbagserver/storage.py:176-188 | `aws s3 cp` runs before the `try`, so a failing download raises without reaching the `finally` that removes the temporary directory | any S3 read whose download exits non-zero | the temporary directory is removed whether or not the download succeeds | not executed; high | Storage.S3ReadAsWritten | Storage.S3Read |
| server/dumpbagserver/views.py:91 | `list_dumps(dbname=db)` is called, but `Bagger.list_dumps` takes no arguments, so Python raises TypeError | any request to `/api/dumps/<db>` | list the dumps of `db` through the storage listing filtered by `db` | not executed; high | Views.ApiDumpsAsWritten | Views.ApiDumps |
