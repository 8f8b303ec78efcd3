/**
 * The command-line parser of the current program: a left-to-right pass over
 * the argument words that sets options, takes the first free word as the
 * configuration file, and then checks that a configuration file was given
 * and that `-s` and `-l` were not both used.
 */
module Cli {
  import opened Wrappers
  import Text

  /** The parsed options. Counts and durations are unsigned 64-bit on the modelled target. */
  datatype CliArgs = CliArgs(
    delete: bool,
    logFile: Option<string>,
    stdout: bool,
    configFile: Option<string>,
    parallel: Text.u64,
    randomize: bool,
    graceSeconds: Text.u64,
    connectTimeout: Option<Text.u64>,
    insecureSkipVerify: bool,
    tempDir: Option<string>,
    debug: bool,
    ramThreshold: Option<Text.u64>)

  /**
   * The parse errors. The text each one carries is given by `Display`: a
   * missing argument names the option's value or the configuration file, an
   * invalid one names the numeric option.
   */
  datatype CliError =
    | HelpRequested
    | VersionRequested
    | MissingArgument(missing: Missing)
    | InvalidArgument(option: Valued)
    | UnexpectedArgument(word: string)
    | MutuallyExclusiveFlags

  /** What a `MissingArgument` is missing. */
  datatype Missing = MissingValue(option: Valued) | MissingConfigFile

  /** `usize` on a 64-bit target. */
  const USIZE_MAX: nat := Text.U64_MAX

  /** The values before any argument is read. */
  const Defaults := CliArgs(false, None, false, None, 1, false, 30, None, false, None, false, None)

  /** Options that stand alone. */
  datatype Switch = DeleteSwitch | StdoutSwitch | RandomizeSwitch | InsecureSwitch | DebugSwitch

  /** Options that consume the next word as their value. */
  datatype Valued = LogFileOption | ParallelOption | GraceOption | TimeoutOption | TempDirOption | RamThresholdOption

  /** How the pass treats one word. */
  datatype WordKind = Help | Version | Switch(switch: Switch) | Valued(option: Valued) | Free

  /** The word-to-option table of the parser; every other word is free. */
  function Classify(a: string): WordKind {
    if a == "-h" then Help
    else if a == "-v" then Version
    else if a == "-d" then Switch(DeleteSwitch)
    else if a == "-s" then Switch(StdoutSwitch)
    else if a == "-l" then Valued(LogFileOption)
    else if a == "-p" then Valued(ParallelOption)
    else if a == "-r" then Switch(RandomizeSwitch)
    else if a == "-g" then Valued(GraceOption)
    else if a == "-t" then Valued(TimeoutOption)
    else if a == "--insecure-skip-verify" then Switch(InsecureSwitch)
    else if a == "--debug" then Switch(DebugSwitch)
    else if a == "-T" then Valued(TempDirOption)
    else if a == "--ram-threshold" then Valued(RamThresholdOption)
    else Free
  }

  /** Every word the parser recognises as an option. */
  predicate IsOption(a: string) {
    !Classify(a).Free?
  }

  /** The name a `MissingArgument` carries. */
  function MissingText(m: Missing): string {
    match m
    case MissingValue(LogFileOption) => "log file"
    case MissingValue(ParallelOption) => "parallel count"
    case MissingValue(GraceOption) => "grace seconds"
    case MissingValue(TimeoutOption) => "connect timeout"
    case MissingValue(TempDirOption) => "temp directory"
    case MissingValue(RamThresholdOption) => "RAM threshold"
    case MissingConfigFile => "config file"
  }

  /** The numeric options, whose value must parse as an unsigned number. */
  predicate IsNumeric(o: Valued) {
    o.ParallelOption? || o.GraceOption? || o.TimeoutOption? || o.RamThresholdOption?
  }

  /** The message an `InvalidArgument` carries. */
  function InvalidText(o: Valued): string {
    match o
    case ParallelOption => "parallel count must be a positive number"
    case GraceOption => "grace seconds must be a positive number"
    case TimeoutOption => "connect timeout must be a positive number"
    case RamThresholdOption => "RAM threshold must be a non-negative number"
    case _ => ""
  }

  /** The error's display text. */
  function Display(e: CliError): string {
    match e
    case HelpRequested => "Help requested"
    case VersionRequested => "Version requested"
    case MissingArgument(m) => "Missing argument: " + MissingText(m)
    case InvalidArgument(o) => "Invalid argument: " + InvalidText(o)
    case UnexpectedArgument(w) => "Unexpected argument: " + w
    case MutuallyExclusiveFlags => "-s and -l flags are mutually exclusive"
  }

  /** The effect of a switch. */
  function SetSwitch(s: Switch, acc: CliArgs): CliArgs {
    match s
    case DeleteSwitch => acc.(delete := true)
    case StdoutSwitch => acc.(stdout := true)
    case RandomizeSwitch => acc.(randomize := true)
    case InsecureSwitch => acc.(insecureSkipVerify := true)
    case DebugSwitch => acc.(debug := true)
  }

  /** The effect of a value-taking option `o` with value `v`. */
  function SetValue(o: Valued, v: string, acc: CliArgs): Result<CliArgs, CliError> {
    match o
    case LogFileOption => Ok(acc.(logFile := Some(v)))
    case TempDirOption => Ok(acc.(tempDir := Some(v)))
    case ParallelOption =>
      (match Text.ParseUnsigned(v, USIZE_MAX)
       case Err(_) => Err(InvalidArgument(ParallelOption))
       case Ok(n) => Ok(acc.(parallel := n)))
    case GraceOption =>
      (match Text.ParseUnsigned(v, Text.U64_MAX)
       case Err(_) => Err(InvalidArgument(GraceOption))
       case Ok(n) => Ok(acc.(graceSeconds := n)))
    case TimeoutOption =>
      (match Text.ParseUnsigned(v, Text.U64_MAX)
       case Err(_) => Err(InvalidArgument(TimeoutOption))
       case Ok(n) => if n > 0 then Ok(acc.(connectTimeout := Some(n))) else Err(InvalidArgument(TimeoutOption)))
    case RamThresholdOption =>
      (match Text.ParseUnsigned(v, Text.U64_MAX)
       case Err(_) => Err(InvalidArgument(RamThresholdOption))
       case Ok(n) => Ok(acc.(ramThreshold := Some(n))))
  }

  /** What one step of the pass leaves: a final result, or the words still to read and the options so far. */
  datatype Next = Stop(result: Result<CliArgs, CliError>) | Continue(rest: seq<string>, acc: CliArgs)

  /** One step of the pass over the non-empty `args`, with `kind` telling how each word is treated. */
  function Step(kind: string -> WordKind, args: seq<string>, acc: CliArgs): (n: Next)
    requires args != []
    ensures n.Continue? ==> |n.rest| < |args|
  {
    var a, rest := args[0], args[1..];
    match kind(a)
    case Help => Stop(Err(HelpRequested))
    case Version => Stop(Err(VersionRequested))
    case Switch(s) => Continue(rest, SetSwitch(s, acc))
    case Valued(o) =>
      if rest == [] then Stop(Err(MissingArgument(MissingValue(o))))
      else
        (match SetValue(o, rest[0], acc)
         case Err(e) => Stop(Err(e))
         case Ok(next) => Continue(rest[1..], next))
    case Free =>
      if acc.configFile.None? then Continue(rest, acc.(configFile := Some(a)))
      else Stop(Err(UnexpectedArgument(a)))
  }

  /**
   * The argument pass over `args`, starting from the options `acc`, with
   * `kind` telling how each word is treated (the parser uses `Classify`).
   */
  function Scan(kind: string -> WordKind, args: seq<string>, acc: CliArgs): Result<CliArgs, CliError>
    decreases |args|
  {
    if args == [] then Ok(acc)
    else
      match Step(kind, args, acc)
      case Stop(r) => r
      case Continue(rest, next) => Scan(kind, rest, next)
  }

  /** The checks after the pass: a configuration file first, then `-s` against `-l`. */
  function Finish(a: CliArgs): Result<CliArgs, CliError> {
    if a.configFile.None? then Err(MissingArgument(MissingConfigFile))
    else if a.stdout && a.logFile.Some? then Err(MutuallyExclusiveFlags)
    else Ok(a)
  }

  /** The whole parse of the words after the program name. */
  function Parse(args: seq<string>): Result<CliArgs, CliError> {
    match Scan(Classify, args, Defaults)
    case Err(e) => Err(e)
    case Ok(a) => Finish(a)
  }

  /**
   * The parser as a loop over the words, with one mutable local per option.
   * `args` are the words after the program name.
   */
  method ParseArgs(args: seq<string>) returns (r: Result<CliArgs, CliError>)
    ensures r == Parse(args)
  {
    var acc := Defaults;
    var i := 0;
    while i < |args|
      invariant 0 <= i <= |args|
      invariant Scan(Classify, args, Defaults) == Scan(Classify, args[i..], acc)
      decreases |args| - i
    {
      ghost var here := args[i..];
      assert here[0] == args[i] && here[1..] == args[i + 1..];
      var arg := args[i];
      i := i + 1;
      match Classify(arg) {
        case Help =>
          return Err(HelpRequested);
        case Version =>
          return Err(VersionRequested);
        case Switch(DeleteSwitch) =>
          acc := acc.(delete := true);
        case Switch(StdoutSwitch) =>
          acc := acc.(stdout := true);
        case Switch(RandomizeSwitch) =>
          acc := acc.(randomize := true);
        case Switch(InsecureSwitch) =>
          acc := acc.(insecureSkipVerify := true);
        case Switch(DebugSwitch) =>
          acc := acc.(debug := true);
        case Valued(o) =>
          if i == |args| {
            return Err(MissingArgument(MissingValue(o)));
          }
          assert here[1..][0] == args[i] && here[1..][1..] == args[i + 1..];
          var value := args[i];
          i := i + 1;
          match o {
            case LogFileOption =>
              acc := acc.(logFile := Some(value));
            case TempDirOption =>
              acc := acc.(tempDir := Some(value));
            case ParallelOption =>
              var n := Text.ParseUnsigned(value, USIZE_MAX);
              if n.Err? {
                return Err(InvalidArgument(ParallelOption));
              }
              acc := acc.(parallel := n.value);
            case GraceOption =>
              var n := Text.ParseUnsigned(value, Text.U64_MAX);
              if n.Err? {
                return Err(InvalidArgument(GraceOption));
              }
              acc := acc.(graceSeconds := n.value);
            case TimeoutOption =>
              var n := Text.ParseUnsigned(value, Text.U64_MAX);
              if n.Err? {
                return Err(InvalidArgument(TimeoutOption));
              }
              if n.value > 0 {
                acc := acc.(connectTimeout := Some(n.value));
              } else {
                return Err(InvalidArgument(TimeoutOption));
              }
            case RamThresholdOption =>
              var n := Text.ParseUnsigned(value, Text.U64_MAX);
              if n.Err? {
                return Err(InvalidArgument(RamThresholdOption));
              }
              acc := acc.(ramThreshold := Some(n.value));
          }
        case Free =>
          if acc.configFile.None? {
            acc := acc.(configFile := Some(arg));
          } else {
            return Err(UnexpectedArgument(arg));
          }
      }
    }
    assert args[i..] == [];

    if acc.configFile.None? {
      return Err(MissingArgument(MissingConfigFile));
    }
    if acc.stdout && acc.logFile.Some? {
      return Err(MutuallyExclusiveFlags);
    }
    r := Ok(acc);
  }


  /** A lone configuration file name gives the defaults. */
  lemma DefaultsWithConfigOnly(c: string)
    requires !IsOption(c)
    ensures Parse([c]) == Ok(CliArgs(false, None, false, Some(c), 1, false, 30, None, false, None, false, None))
  {
    assert [c][1..] == [];
    assert Scan(Classify, [c], Defaults) == Scan(Classify, [], Defaults.(configFile := Some(c)));
  }

  /** A step that goes on does not look at the words after those it reads. */
  lemma StepAppend(kind: string -> WordKind, a: seq<string>, b: seq<string>, acc: CliArgs)
    requires a != [] && Step(kind, a, acc).Continue?
    ensures Step(kind, a + b, acc) == Continue(Step(kind, a, acc).rest + b, Step(kind, a, acc).acc)
  {
    assert (a + b)[0] == a[0] && (a + b)[1..] == a[1..] + b;
    if kind(a[0]).Valued? {
      assert (a[1..] + b)[0] == a[1..][0] && (a[1..] + b)[1..] == a[1..][1..] + b;
    }
  }

  /** A prefix the pass reads through cleanly hands its options on to the rest. */
  lemma {:induction false} ScanAppend(kind: string -> WordKind, pre: seq<string>, rest: seq<string>, acc: CliArgs)
    requires Scan(kind, pre, acc).Ok?
    ensures Scan(kind, pre + rest, acc) == Scan(kind, rest, Scan(kind, pre, acc).value)
    decreases |pre|
  {
    if pre == [] {
      assert pre + rest == rest;
    } else if Step(kind, pre, acc).Continue? {
      var n := Step(kind, pre, acc);
      StepAppend(kind, pre, rest, acc);
      ScanAppend(kind, n.rest, rest, n.acc);
    }
  }

  /** A help or version word ends the pass at once, after any prefix read through cleanly, whatever follows. */
  lemma StopAfterPrefix(kind: string -> WordKind, pre: seq<string>, stop: string, rest: seq<string>, acc: CliArgs)
    requires kind(stop).Help? || kind(stop).Version?
    requires Scan(kind, pre, acc).Ok?
    ensures Scan(kind, pre + [stop] + rest, acc) == if kind(stop).Help? then Err(HelpRequested) else Err(VersionRequested)
  {
    ScanAppend(kind, pre, [stop] + rest, acc);
    assert pre + [stop] + rest == pre + ([stop] + rest);
    assert ([stop] + rest)[0] == stop;
  }

  /** `-h` and `-v` end the parse after any prefix read through cleanly; later words are not examined. */
  lemma ParseStops(pre: seq<string>, rest: seq<string>)
    requires Scan(Classify, pre, Defaults).Ok?
    ensures Parse(pre + ["-h"] + rest) == Err(HelpRequested)
    ensures Parse(pre + ["-v"] + rest) == Err(VersionRequested)
  {
    StopAfterPrefix(Classify, pre, "-h", rest, Defaults);
    StopAfterPrefix(Classify, pre, "-v", rest, Defaults);
  }

  /** A value-taking option as the last word, after any prefix read through cleanly, is a missing argument. */
  lemma DanglingValue(kind: string -> WordKind, pre: seq<string>, a: string, acc: CliArgs)
    requires kind(a).Valued?
    requires Scan(kind, pre, acc).Ok?
    ensures Scan(kind, pre + [a], acc) == Err(MissingArgument(MissingValue(kind(a).option)))
  {
    ScanAppend(kind, pre, [a], acc);
    assert [a][1..] == [];
  }

  /** An unsigned parse fails on a word with no digit at all. */
  lemma NoDigitsNoNumber(v: string, max: nat)
    requires forall k :: 0 <= k < |v| ==> !Text.IsDigit(v[k])
    ensures Text.ParseUnsigned(v, max).Err?
  {
    Text.ParseUnsignedIff(v, max);
    var body := Text.UnsignedBody(v);
    if body != [] {
      assert body[0] == v[|v| - |body|];
    }
  }

  /** A numeric option whose value has no digit is an invalid argument, whatever follows. */
  lemma NonNumericValue(kind: string -> WordKind, a: string, v: string, rest: seq<string>, acc: CliArgs)
    requires kind(a).Valued? && IsNumeric(kind(a).option)
    requires forall k :: 0 <= k < |v| ==> !Text.IsDigit(v[k])
    ensures Scan(kind, [a, v] + rest, acc) == Err(InvalidArgument(kind(a).option))
  {
    NoDigitsNoNumber(v, Text.U64_MAX);
    var args := [a, v] + rest;
    assert args[0] == a && args[1..][0] == v;
  }

  /** `-t 0` is rejected; `-t n` for a positive `n` sets the timeout to `n`. */
  lemma TimeoutValue(n: nat, rest: seq<string>, acc: CliArgs)
    requires n <= Text.U64_MAX
    ensures n == 0 ==> Scan(Classify, ["-t", Text.NatToString(n)] + rest, acc) == Err(InvalidArgument(TimeoutOption))
    ensures n > 0 ==> Scan(Classify, ["-t", Text.NatToString(n)] + rest, acc) == Scan(Classify, rest, acc.(connectTimeout := Some(n)))
  {
    Text.ParseFormatted(n, Text.U64_MAX);
    var args := ["-t", Text.NatToString(n)] + rest;
    assert args[0] == "-t" && args[1..][0] == Text.NatToString(n) && args[1..][1..] == rest;
  }

  /** `--ram-threshold n` is accepted for every `n`, zero included. */
  lemma RamThresholdValue(n: nat, rest: seq<string>, acc: CliArgs)
    requires n <= Text.U64_MAX
    ensures Scan(Classify, ["--ram-threshold", Text.NatToString(n)] + rest, acc) == Scan(Classify, rest, acc.(ramThreshold := Some(n)))
  {
    Text.ParseFormatted(n, Text.U64_MAX);
    var args := ["--ram-threshold", Text.NatToString(n)] + rest;
    assert args[0] == "--ram-threshold" && args[1..][0] == Text.NatToString(n) && args[1..][1..] == rest;
  }

  /** The first free word becomes the configuration file; a second one is unexpected. */
  lemma FreeWord(kind: string -> WordKind, w: string, rest: seq<string>, acc: CliArgs)
    requires kind(w).Free?
    ensures acc.configFile.None? ==> Scan(kind, [w] + rest, acc) == Scan(kind, rest, acc.(configFile := Some(w)))
    ensures acc.configFile.Some? ==> Scan(kind, [w] + rest, acc) == Err(UnexpectedArgument(w))
  {
    assert ([w] + rest)[0] == w && ([w] + rest)[1..] == rest;
  }

  /**
   * After a clean pass, a missing configuration file is reported whatever else
   * was set, so it comes before the `-s`/`-l` conflict, which is reported
   * exactly when both were given; `-s -l out.log` with and without a
   * configuration file shows both.
   */
  lemma ConfigBeforeExclusivity(args: seq<string>)
    ensures Scan(Classify, args, Defaults).Ok? && Scan(Classify, args, Defaults).value.configFile.None? ==>
              Parse(args) == Err(MissingArgument(MissingConfigFile))
    ensures Scan(Classify, args, Defaults).Ok? && Scan(Classify, args, Defaults).value.configFile.Some? ==>
              (Parse(args) == Err(MutuallyExclusiveFlags) <==> Scan(Classify, args, Defaults).value.stdout && Scan(Classify, args, Defaults).value.logFile.Some?)
    ensures Parse(["-s", "-l", "out.log"]) == Err(MissingArgument(MissingConfigFile))
    ensures Parse(["-s", "-l", "out.log", "jobs.jsonl"]) == Err(MutuallyExclusiveFlags)
  {
    var a := ["-s", "-l", "out.log"];
    assert a[1..] == ["-l", "out.log"] && a[1..][1..] == ["out.log"] && a[1..][1..][1..] == [];
    var b := ["-s", "-l", "out.log", "jobs.jsonl"];
    assert b[1..] == ["-l", "out.log", "jobs.jsonl"] && b[1..][1..] == ["out.log", "jobs.jsonl"];
    assert b[1..][1..][1..] == ["jobs.jsonl"] && b[1..][1..][1..][1..] == [];
    var s := Defaults.(stdout := true);
    var l := s.(logFile := Some("out.log"));
    assert Scan(Classify, b, Defaults) == Scan(Classify, b[1..], s);
    assert Scan(Classify, b[1..], s) == Scan(Classify, ["jobs.jsonl"], l);
    assert Scan(Classify, ["jobs.jsonl"], l) == Scan(Classify, [], l.(configFile := Some("jobs.jsonl")));
  }

  /** A set timeout is positive. */
  ghost predicate TimeoutPositive(a: CliArgs) {
    a.connectTimeout.Some? ==> a.connectTimeout.value > 0
  }

  /** A result that is an error or options whose timeout is positive. */
  ghost predicate OkTimeoutPositive(r: Result<CliArgs, CliError>) {
    r.Ok? ==> TimeoutPositive(r.value)
  }

  /** A step outcome whose options, final or not, have a positive timeout if any. */
  ghost predicate NextTimeoutPositive(n: Next) {
    match n
    case Stop(r) => OkTimeoutPositive(r)
    case Continue(_, acc) => TimeoutPositive(acc)
  }

  /** The pass never sets a zero timeout. */
  lemma {:induction false} ScanTimeoutPositive(kind: string -> WordKind, args: seq<string>, acc: CliArgs)
    requires TimeoutPositive(acc)
    ensures OkTimeoutPositive(Scan(kind, args, acc))
    decreases |args|
  {
    if args != [] {
      var n := Step(kind, args, acc);
      assert NextTimeoutPositive(n);
      if n.Continue? {
        ScanTimeoutPositive(kind, n.rest, n.acc);
      }
    }
  }

  /** A successful parse names a configuration file, never has both `-s` and `-l`, and never has a zero timeout. */
  lemma ParseSuccess(args: seq<string>)
    ensures Parse(args).Ok? ==> Parse(args).value.configFile.Some?
    ensures Parse(args).Ok? ==> !(Parse(args).value.stdout && Parse(args).value.logFile.Some?)
    ensures Parse(args).Ok? ==> TimeoutPositive(Parse(args).value)
  {
    ScanTimeoutPositive(Classify, args, Defaults);
  }

  /** Sets the delete flag of a successful result. */
  function WithDelete(r: Result<CliArgs, CliError>): Result<CliArgs, CliError> {
    match r
    case Err(e) => Err(e)
    case Ok(a) => Ok(a.(delete := true))
  }

  lemma SetValueWithDelete(o: Valued, v: string, acc: CliArgs)
    ensures SetValue(o, v, acc.(delete := true)) == WithDelete(SetValue(o, v, acc))
  {
  }

  /** One step from options with `delete` set is the same step with `delete` set. */
  lemma StepWithDelete(kind: string -> WordKind, args: seq<string>, acc: CliArgs)
    requires args != []
    ensures var n, m := Step(kind, args, acc), Step(kind, args, acc.(delete := true));
      && (n.Stop? <==> m.Stop?)
      && (n.Stop? ==> m.result == WithDelete(n.result))
      && (n.Continue? ==> m.rest == n.rest && m.acc == n.acc.(delete := true))
  {
    match kind(args[0])
    case Valued(o) =>
      if |args| > 1 {
        SetValueWithDelete(o, args[1], acc);
      }
    case Switch(s) =>
      assert SetSwitch(s, acc.(delete := true)) == SetSwitch(s, acc).(delete := true);
    case _ =>
  }

  /** The delete flag changes nothing else: starting with it set gives the same pass with it set. */
  lemma {:induction false} DeleteIndependent(kind: string -> WordKind, args: seq<string>, acc: CliArgs)
    ensures Scan(kind, args, acc.(delete := true)) == WithDelete(Scan(kind, args, acc))
    decreases |args|
  {
    if args != [] {
      StepWithDelete(kind, args, acc);
      var n := Step(kind, args, acc);
      if n.Continue? {
        DeleteIndependent(kind, n.rest, n.acc);
      }
    }
  }

  /** A leading `-d` gives the parse of the remaining words with `delete` set, errors included. */
  lemma LeadingDelete(args: seq<string>)
    ensures Parse(["-d"] + args) == WithDelete(Parse(args))
  {
    assert (["-d"] + args)[0] == "-d" && (["-d"] + args)[1..] == args;
    DeleteIndependent(Classify, args, Defaults);
  }
}
