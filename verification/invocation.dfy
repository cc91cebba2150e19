/**
 * The command line each worker is started with: either the `herd` shim
 * wrapping `php`, or `php` directly, running `artisan queue:listen`, with an
 * optional `--timeout <t>` pair and an optional `-v` flag.
 */
module Invocation {
  import opened Optional
  import opened Decimal
  import opened Text

  /** The already-parsed command-line flags of the supervisor. */
  datatype Args = Args(count: u32, noHerd: bool, timeout: u64, verbose: bool)

  /** The flags that shape a worker's command line. */
  datatype Flags = Flags(noHerd: bool, timeout: u64, verbose: bool)

  /** A program name and its ordered argument vector. */
  datatype Command = Command(program: string, args: seq<string>)

  const DEFAULT_COUNT: u32 := 2
  const DEFAULT_TIMEOUT: u64 := 60

  /** What the supervisor runs with when no flag is given. */
  const DEFAULT_ARGS := Args(DEFAULT_COUNT, false, DEFAULT_TIMEOUT, false)

  const LISTEN: seq<string> := ["artisan", "queue:listen"]
  const TIMEOUT_FLAG := "--timeout"
  const VERBOSE_FLAG := "-v"

  function FlagsOf(a: Args): Flags {
    Flags(a.noHerd, a.timeout, a.verbose)
  }

  /** Program and leading arguments before any optional flag. */
  function Base(noHerd: bool): Command {
    if noHerd then Command("php", LISTEN) else Command("herd", ["php"] + LISTEN)
  }

  function TimeoutArgs(timeout: u64): seq<string> {
    if timeout != DEFAULT_TIMEOUT then [TIMEOUT_FLAG, FromNat(timeout)] else []
  }

  function VerboseArgs(verbose: bool): seq<string> {
    if verbose then [VERBOSE_FLAG] else []
  }

  /** The command line of every worker. */
  function Build(f: Flags): (c: Command)
    ensures |c.args| == (if f.noHerd then 2 else 3)
                        + (if f.timeout != 60 then 2 else 0)
                        + (if f.verbose then 1 else 0)
    ensures f.noHerd ==> c.program == "php" && c.args[..2] == ["artisan", "queue:listen"]
    ensures !f.noHerd ==> c.program == "herd" && c.args[..3] == ["php", "artisan", "queue:listen"]
  {
    var base := Base(f.noHerd);
    Command(base.program, base.args + TimeoutArgs(f.timeout) + VerboseArgs(f.verbose))
  }

  /** The herd command is the direct one behind the shim: `herd` runs `php` with the same arguments. */
  lemma HerdWrapsDirect(timeout: u64, verbose: bool)
    ensures Build(Flags(false, timeout, verbose)).program == "herd"
    ensures Build(Flags(true, timeout, verbose)).program == "php"
    ensures Build(Flags(false, timeout, verbose)).args
         == ["php"] + Build(Flags(true, timeout, verbose)).args
  {
  }

  /** With no flag given, every worker runs `herd php artisan queue:listen`. */
  lemma DefaultCommand()
    ensures Build(FlagsOf(DEFAULT_ARGS)) == Command("herd", ["php", "artisan", "queue:listen"])
  {
  }

  /** `--timeout` and the decimal timeout appear exactly when the timeout is not 60, right after the base arguments. */
  lemma TimeoutFlag(f: Flags)
    ensures TIMEOUT_FLAG in Build(f).args <==> f.timeout != 60
    ensures f.timeout != 60 ==>
      var n := |Base(f.noHerd).args|;
      Build(f).args[n] == "--timeout" && Build(f).args[n + 1] == FromNat(f.timeout)
    ensures f.timeout == 60 ==> forall a :: a in Build(f).args ==> !IsCanonical(a)
  {
  }

  /** `-v` appears exactly when verbose is set, and then it is the last argument. */
  lemma VerboseFlag(f: Flags)
    ensures VERBOSE_FLAG in Build(f).args <==> f.verbose
    ensures f.verbose ==> Build(f).args[|Build(f).args| - 1] == "-v"
  {
  }

  /** Recovers the flags from a command line, if it is one `Build` produces. */
  function Decode(c: Command): (r: Option<Flags>)
  {
    var (noHerd, rest) :- DecodeBase(c);
    var (timeout, rest') :- DecodeTimeout(rest);
    var verbose :- DecodeVerbose(rest');
    Some(Flags(noHerd, timeout, verbose))
  }

  function DecodeBase(c: Command): Option<(bool, seq<string>)> {
    if c.program == "php" && |c.args| >= 2 && c.args[..2] == LISTEN then
      Some((true, c.args[2..]))
    else if c.program == "herd" && |c.args| >= 3 && c.args[..3] == ["php"] + LISTEN then
      Some((false, c.args[3..]))
    else
      None
  }

  function DecodeTimeout(rest: seq<string>): Option<(u64, seq<string>)> {
    if |rest| >= 2 && rest[0] == TIMEOUT_FLAG then
      var t := rest[1];
      if IsCanonical(t) && ToNat(t) < U64_LIMIT && ToNat(t) != 60 then
        Some((ToNat(t), rest[2..]))
      else
        None
    else
      Some((DEFAULT_TIMEOUT, rest))
  }

  function DecodeVerbose(rest: seq<string>): Option<bool> {
    if rest == [] then Some(false)
    else if rest == [VERBOSE_FLAG] then Some(true)
    else None
  }

  /** Decoding a built command line recovers the flags. */
  lemma DecodeBuild(f: Flags)
    ensures Decode(Build(f)) == Some(f)
  {
    var c := Build(f);
    var base := Base(f.noHerd);
    var n := |base.args|;
    var rest := TimeoutArgs(f.timeout) + VerboseArgs(f.verbose);
    assert c.args == base.args + rest;
    assert c.args[..n] == base.args;
    assert c.args[n..] == rest;
    assert DecodeBase(c) == Some((f.noHerd, rest));
    if f.timeout != 60 {
      ToNatFromNat(f.timeout);
      assert rest[2..] == VerboseArgs(f.verbose);
    } else if f.verbose {
      assert rest[0] != TIMEOUT_FLAG;
    }
    assert DecodeTimeout(rest) == Some((f.timeout, VerboseArgs(f.verbose)));
  }

  /** Every command line that decodes is the one built from the decoded flags. */
  lemma BuildDecode(c: Command, f: Flags)
    requires Decode(c) == Some(f)
    ensures Build(f) == c
  {
    var base := Base(f.noHerd);
    var n := |base.args|;
    assert c.args[..n] == base.args;
    var rest := c.args[n..];
    assert DecodeBase(c) == Some((f.noHerd, rest));
    if |rest| >= 2 && rest[0] == TIMEOUT_FLAG {
      FromNatToNat(rest[1]);
      assert rest == TimeoutArgs(f.timeout) + rest[2..];
      assert DecodeVerbose(rest[2..]) == Some(f.verbose);
    } else {
      assert DecodeVerbose(rest) == Some(f.verbose);
    }
    assert c.args == base.args + rest;
  }

  /** Different flags never produce the same command line. */
  lemma BuildInjective(f: Flags, g: Flags)
    ensures Build(f) == Build(g) ==> f == g
  {
    DecodeBuild(f);
    DecodeBuild(g);
  }

  /** Every token of a built command line is non-empty and space-free, so the
      space-joined header line determines the command. */
  lemma BuildSplittable(f: Flags)
    ensures Splittable(Build(f).args, ' ')
    ensures Split(Build(f).program + " " + Join(Build(f).args, ' '), ' ')
         == [Build(f).program] + Build(f).args
  {
    var c := Build(f);
    forall i | 0 <= i < |c.args|
      ensures |c.args[i]| > 0 && Avoids(c.args[i], ' ')
    {
      var n := |Base(f.noHerd).args|;
      if n <= i < n + |TimeoutArgs(f.timeout)| {
        assert c.args[i] == TimeoutArgs(f.timeout)[i - n];
        var t := FromNat(f.timeout);
        assert forall k :: 0 <= k < |t| ==> IsDigit(t[k]);
      }
    }
    SplitJoin(c.args, ' ');
    SplitField(c.program, ' ', Join(c.args, ' '));
  }
}
