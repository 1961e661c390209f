/** The encryption subsystem: the options-to-commander factory, the no-op
    commander and the commander encrypting with gpg for a list of public-key
    recipients. */
module Encryption {
  import opened Errors
  import opened Text
  import opened Proc

  datatype EncryptionOptions =
    | BaseEncryptionOptions
    | NoOpEncryptionOptions
    | GPGKeysOptions(recipients: seq<string>)

  datatype EncryptionCommander =
    | NoOpEncryptionCommander
    | GPGKeysCommander(recipients: seq<string>)

  /** The options a commander was built from. */
  function OptionsOf(c: EncryptionCommander): EncryptionOptions {
    match c
    case NoOpEncryptionCommander => NoOpEncryptionOptions
    case GPGKeysCommander(rs) => GPGKeysOptions(rs)
  }

  /** `EncryptionCommander.new_commander`: build the commander the options
      name, or raise TypeError for options that name none. */
  function NewCommander(o: EncryptionOptions): (r: Result<EncryptionCommander>)
    ensures r.Err? <==> o.BaseEncryptionOptions?
    ensures r.Err? ==> r.error == TypeError(NO_COMMANDER)
    ensures r.Ok? ==> OptionsOf(r.value) == o
  {
    match o
    case BaseEncryptionOptions => Err(TypeError(NO_COMMANDER))
    case NoOpEncryptionOptions => Ok(NoOpEncryptionCommander)
    case GPGKeysOptions(rs) => Ok(GPGKeysCommander(rs))
  }

  const RECIPIENT_FLAG := "--recipient"

  /** One `--recipient r` pair per recipient, in order. */
  function RecipientArgs(rs: seq<string>): (args: seq<string>)
    ensures |args| == 2 * |rs|
    ensures forall i :: 0 <= i < |rs| ==> args[2 * i] == RECIPIENT_FLAG && args[2 * i + 1] == rs[i]
  {
    if rs == [] then []
    else
      var rest := RecipientArgs(rs[1..]);
      var args := [RECIPIENT_FLAG, rs[0]] + rest;
      forall i | 1 <= i < |rs|
        ensures args[2 * i] == RECIPIENT_FLAG && args[2 * i + 1] == rs[i]
      {
        assert args[2 * i] == rest[2 * (i - 1)] && args[2 * i + 1] == rest[2 * (i - 1) + 1];
        assert rs[1..][i - 1] == rs[i];
      }
      args
  }

  /** Reading the recipients back off a run of `--recipient r` pairs. */
  function RecipientsIn(args: seq<string>): seq<string> {
    if |args| >= 2 && args[0] == RECIPIENT_FLAG then [args[1]] + RecipientsIn(args[2..]) else []
  }

  /** The recipients can be recovered from the arguments built for them. */
  lemma {:induction false} RecipientsRoundTrip(rs: seq<string>)
    ensures RecipientsIn(RecipientArgs(rs)) == rs
  {
    if rs != [] {
      RecipientsRoundTrip(rs[1..]);
      assert RecipientArgs(rs)[2..] == RecipientArgs(rs[1..]);
    }
  }

  const GPG_PREFIX: seq<string> := ["gpg", "--encrypt", "--always-trust"]

  /** The gpg command encrypting `directory/filename`. */
  function GpgArgv(rs: seq<string>, directory: string, filename: string): (argv: seq<string>)
    ensures |argv| == |GPG_PREFIX| + 2 * |rs| + 1
    ensures argv[..|GPG_PREFIX|] == GPG_PREFIX
    ensures argv[|argv| - 1] == PathJoin(directory, filename)
    ensures RecipientsIn(argv[|GPG_PREFIX|..|argv| - 1]) == rs
  {
    var argv := GPG_PREFIX + RecipientArgs(rs) + [PathJoin(directory, filename)];
    assert argv[|GPG_PREFIX|..|argv| - 1] == RecipientArgs(rs);
    RecipientsRoundTrip(rs);
    argv
  }

  /** The name gpg gives its output. */
  function EncryptedName(filename: string): string {
    filename + ".gpg"
  }

  /** `encrypt(directory, filename)`: the no-op commander answers the name
      unchanged and does nothing; the gpg commander runs gpg once, with the
      server's environment, keeps the files gpg wrote, and answers the
      `.gpg` name or raises DumpEncryptionError with gpg's standard error. */
  function Encrypt(c: EncryptionCommander, w: World, directory: string, filename: string): (r: Effect<string>)
    ensures c.NoOpEncryptionCommander? ==> r == Effect(w.fs, [], Ok(filename))
    ensures c.GPGKeysCommander? ==>
              var inv := Invocation(GpgArgv(c.recipients, directory, filename), w.environ);
              && r.calls == [inv]
              && r.fs == WithWrites(w.fs, w.run(inv).writes)
              && (r.result.Err? <==> w.run(inv).exitCode != 0)
              && (r.result.Err? ==> r.result.error == BagError(DumpEncryptionError(w.run(inv).stderr)))
              && (r.result.Ok? ==> r.result.value == filename + ".gpg")
  {
    match c
    case NoOpEncryptionCommander => Effect(w.fs, [], Ok(filename))
    case GPGKeysCommander(rs) =>
      var inv := Invocation(GpgArgv(rs, directory, filename), w.environ);
      var p := w.run(inv);
      Effect(WithWrites(w.fs, p.writes), [inv], if Failed(p) then Encryption(p.stderr) else Ok(EncryptedName(filename)))
  }

  /** The name the gpg commander answers is the file gpg writes by
      default, its input path with `.gpg` appended, and the state after the
      call holds what gpg wrote there. */
  lemma EncryptedNameIsGpgOutput(c: EncryptionCommander, w: World, directory: string, filename: string)
    requires c.GPGKeysCommander?
    ensures var r := Encrypt(c, w, directory, filename);
            r.result.Ok? ==>
              var argv := r.calls[0].argv;
              var out := PathJoin(directory, r.result.value);
              && out == argv[|argv| - 1] + ".gpg"
              && (out in w.run(r.calls[0]).writes ==> out in r.fs.files && r.fs.files[out] == w.run(r.calls[0]).writes[out])
  {
    PathJoinAppend(directory, filename, ".gpg");
  }
}
