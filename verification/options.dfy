/** The command-line checks `main` makes before it forks. The splitting of
    `argv` into options is the C library's `getopt("+eht:m:c:")`; its output
    is taken here as a sequence of already-recognised options. */
module Options {
  import opened Optional
  import opened Word
  import opened Strtoul

  /** The three options that take a number. */
  datatype NumericFlag = Interval | MemoryKb | CpuSeconds

  /** One option as `getopt` reports it: `-e`, `-h`, a numeric option with
      its argument, or anything `getopt` answers with `'?'`. */
  datatype Opt = Echo | Help | Numeric(flag: NumericFlag, arg: string) | Unrecognized

  /** The settings the loop runs with. `maxMillis` is the `unsigned long`
      product `1000 * maxSeconds`. */
  datatype Config = Config(sampleTime: nat, maxKbytes: nat, maxSeconds: nat, maxMillis: nat, echo: bool)

  const Defaults: Config := Config(0, 0, 0, 0, false)

  /** How the option phase ends: go on and fork, print usage and exit with
      success (`-h`), or exit with failure before anything is forked. */
  datatype Launch = Start(cfg: Config) | ShowUsage | Reject

  /** The check applied to the argument of `-t`, `-m` and `-c`: `strtoul`
      must leave `errno` clear, convert something, and stop at the end of
      the argument. */
  function ParseArgument(arg: string): (r: Option<nat>)
    ensures r.Some? ==> |arg| > 0 && r.value <= ULONG_MAX
  {
    var c := StrToUL(arg);
    if c.overflow then None
    else if c.end == 0 || c.end != |arg| then None
    else Some(c.value)
  }

  /** Every number a user can type in plain decimal and an `unsigned long`
      can hold is accepted as itself. */
  lemma {:induction false} ParseArgumentRoundTrip(n: nat)
    requires n <= ULONG_MAX
    ensures ParseArgument(ToDecimal(n)) == Some(n)
  {
    var d := ToDecimal(n);
    var none: string := [];
    assert d + none == d;
    DecimalRoundTrip(n);
    DigitsConvertBare(d, none);
  }

  /** A decimal number followed by anything that is not a digit is
      rejected, and so is the empty argument. */
  lemma {:induction false} ParseArgumentRejectsTrailing(d: string, rest: string)
    requires |d| > 0 && AllDigits(d) && DecValue(d) <= ULONG_MAX
    requires |rest| > 0 && !IsDigit(rest[0])
    ensures ParseArgument(d + rest) == None
    ensures ParseArgument([]) == None
  {
    DigitsConvertBare(d, rest);
  }

  /** A number too large for an `unsigned long` sets `errno` and is
      rejected. */
  lemma {:induction false} ParseArgumentRejectsOverflow(d: string)
    requires |d| > 0 && AllDigits(d) && DecValue(d) > ULONG_MAX
    ensures ParseArgument(d) == None
  {
    var none: string := [];
    assert d + none == d;
    DigitsConvertBare(d, none);
  }

  /** `strtoul` negates a leading minus modulo 2^64 without reporting an
      error, so `-m -1` is accepted and sets the largest possible limit. */
  lemma {:induction false} ParseArgumentNegativeWraps(n: nat)
    requires 0 < n <= ULONG_MAX
    ensures ParseArgument("-" + ToDecimal(n)) == Some(ULONG_MODULUS - n)
  {
    var d := ToDecimal(n);
    var s := "-" + d;
    DecimalRoundTrip(n);
    assert SpacePrefix(s) == 0;
    var none: string := [];
    assert s[1..] == d + none;
    DigitPrefixStops(d, none);
    assert s[1..1 + |d|] == d;
  }

  /** Stores a parsed option value; `-c` also sets the millisecond limit. */
  function SetOption(cfg: Config, flag: NumericFlag, v: nat): Config {
    match flag
    case Interval => cfg.(sampleTime := v)
    case MemoryKb => cfg.(maxKbytes := v)
    case CpuSeconds => cfg.(maxSeconds := v, maxMillis := ULong(1000 * v))
  }

  /** The value a configuration holds for a numeric option. */
  function Field(cfg: Config, flag: NumericFlag): nat {
    match flag
    case Interval => cfg.sampleTime
    case MemoryKb => cfg.maxKbytes
    case CpuSeconds => cfg.maxSeconds
  }

  /** Where the `getopt` loop stands after some options: still going with a
      configuration, or already exited. */
  datatype Parsed = Parsed(cfg: Config) | Stopped(launch: Launch)

  /** The body of the `getopt` loop, option by option. */
  function ApplyOptions(cfg: Config, opts: seq<Opt>): (r: Parsed)
    ensures r.Stopped? ==> !r.launch.Start?
    decreases |opts|
  {
    if |opts| == 0 then
      Parsed(cfg)
    else
      match opts[0]
      case Echo => ApplyOptions(cfg.(echo := true), opts[1..])
      case Help => Stopped(ShowUsage)
      case Unrecognized => Stopped(Reject)
      case Numeric(flag, arg) =>
        match ParseArgument(arg)
        case None => Stopped(Reject)
        case Some(v) => ApplyOptions(SetOption(cfg, flag, v), opts[1..])
  }

  /** The option phase of `main`: too few arguments, a bad or unknown option,
      or no command after the options all end the program with failure;
      `-h` ends it with the usage text. `commandGiven` is `optind < argc`. */
  function Configure(argc: nat, opts: seq<Opt>, commandGiven: bool): (l: Launch)
    ensures argc < 2 ==> l == Reject
    ensures !commandGiven ==> !l.Start?
  {
    if argc < 2 then
      Reject
    else
      match ApplyOptions(Defaults, opts)
      case Stopped(l) => l
      case Parsed(cfg) => if commandGiven then Start(cfg) else Reject
  }

  /** An option the loop passes over without exiting. */
  predicate Accepted(o: Opt) {
    o.Echo? || (o.Numeric? && ParseArgument(o.arg).Some?)
  }

  predicate Sets(o: Opt, flag: NumericFlag) {
    o.Numeric? && o.flag == flag
  }

  /** The number an accepted numeric option carries. */
  function ValueOf(o: Opt): nat
    requires o.Numeric?
  {
    match ParseArgument(o.arg)
    case Some(v) => v
    case None => 0
  }

  /** `opts[i]` is the last occurrence of `flag`. */
  predicate LastSetAt(opts: seq<Opt>, flag: NumericFlag, i: int) {
    0 <= i < |opts| && Sets(opts[i], flag) &&
    forall j :: i < j < |opts| ==> !Sets(opts[j], flag)
  }

  /** The option loop runs to the end exactly when every option is
      accepted. */
  lemma {:induction false} ApplyOptionsRunsIff(cfg: Config, opts: seq<Opt>)
    ensures ApplyOptions(cfg, opts).Parsed? <==> forall i :: 0 <= i < |opts| ==> Accepted(opts[i])
    decreases |opts|
  {
    if |opts| > 0 {
      var rest := opts[1..];
      assert forall i :: 0 < i < |opts| ==> opts[i] == rest[i - 1];
      match opts[0]
      case Echo =>
        ApplyOptionsRunsIff(cfg.(echo := true), rest);
      case Help =>
      case Unrecognized =>
      case Numeric(flag, arg) =>
        if v :| ParseArgument(arg) == Some(v) {
          ApplyOptionsRunsIff(SetOption(cfg, flag, v), rest);
        }
    }
  }

  /** The millisecond limit is always the wrapped product of the seconds
      limit, and `-e` anywhere turns echoing on. */
  lemma {:induction false} ApplyOptionsKeeps(cfg: Config, opts: seq<Opt>)
    requires cfg.maxMillis == ULong(1000 * cfg.maxSeconds)
    ensures ApplyOptions(cfg, opts).Parsed? ==>
      var c := ApplyOptions(cfg, opts).cfg;
      && c.maxMillis == ULong(1000 * c.maxSeconds)
      && (c.echo <==> cfg.echo || exists i :: 0 <= i < |opts| && opts[i].Echo?)
    decreases |opts|
  {
    if |opts| > 0 {
      var rest := opts[1..];
      assert forall i :: 0 < i < |opts| ==> opts[i] == rest[i - 1];
      match opts[0]
      case Echo =>
        ApplyOptionsKeeps(cfg.(echo := true), rest);
      case Help =>
      case Unrecognized =>
      case Numeric(flag, arg) =>
        if v :| ParseArgument(arg) == Some(v) {
          ApplyOptionsKeeps(SetOption(cfg, flag, v), rest);
        }
    }
  }

  /** Each numeric setting is the value of its last occurrence, or the
      starting value when the option never occurs. */
  lemma {:induction false} ApplyOptionsLastWins(cfg: Config, opts: seq<Opt>, flag: NumericFlag)
    ensures ApplyOptions(cfg, opts).Parsed? ==>
      var c := ApplyOptions(cfg, opts).cfg;
      && (forall i :: LastSetAt(opts, flag, i) ==> Field(c, flag) == ValueOf(opts[i]))
      && ((forall i :: 0 <= i < |opts| ==> !Sets(opts[i], flag)) ==> Field(c, flag) == Field(cfg, flag))
    decreases |opts|
  {
    if |opts| > 0 && ApplyOptions(cfg, opts).Parsed? {
      var rest := opts[1..];
      assert forall i :: 0 < i < |opts| ==> opts[i] == rest[i - 1];
      var c := ApplyOptions(cfg, opts).cfg;
      assert opts[0].Echo? || opts[0].Numeric?;
      var next :=
        if opts[0].Echo? then cfg.(echo := true)
        else SetOption(cfg, opts[0].flag, ValueOf(opts[0]));
      assert ApplyOptions(next, rest) == ApplyOptions(cfg, opts);
      ApplyOptionsLastWins(next, rest, flag);
      forall i | LastSetAt(opts, flag, i)
        ensures Field(c, flag) == ValueOf(opts[i])
      {
        if i > 0 {
          assert LastSetAt(rest, flag, i - 1);
        } else {
          assert forall j :: 0 <= j < |rest| ==> !Sets(rest[j], flag);
        }
      }
    }
  }

  /** The full option phase: the program proceeds to fork exactly when there
      is an argument, every option is accepted and a command follows. */
  lemma {:induction false} ConfigureStartsIff(argc: nat, opts: seq<Opt>, commandGiven: bool)
    ensures Configure(argc, opts, commandGiven).Start? <==>
      argc >= 2 && commandGiven && forall i :: 0 <= i < |opts| ==> Accepted(opts[i])
  {
    ApplyOptionsRunsIff(Defaults, opts);
  }

  /** `1000 * maxseconds` is computed in `unsigned long`: a large `-c`
      value wraps around to a tiny millisecond limit. */
  lemma {:induction false} CpuLimitWraps()
    ensures SetOption(Defaults, CpuSeconds, 18446744073709552).maxMillis == 384
  {
  }
}
