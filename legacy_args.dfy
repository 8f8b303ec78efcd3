/**
 * The command-line parser of the first generation of the program
 * (`args.rs`): `-h`, `-v`, `-d`, `-l <file>`, `-x <pattern>` and a
 * configuration file name. Instead of returning errors it ends the process
 * (`process::exit`) or panics (`expect`).
 */
module LegacyArgs {
  import opened Wrappers

  /** What the process prints before it exits. */
  datatype Message = Usage | VersionLine | MissingConfigUsage

  /** The value-taking option whose value was missing, which `expect` turns into a panic. */
  datatype Missing = MissingLogFile | MissingExtension

  /** How the parse ends. */
  datatype Outcome =
    | Parsed(delete: bool, logFile: Option<string>, configFile: Option<string>, ext: Option<string>)
    | Exit(code: int, message: Message)
    | Panic(missing: Missing)

  /** The parser's mutable locals. */
  datatype State = State(delete: bool, logFile: Option<string>, configFile: Option<string>, ext: Option<string>)

  const Initial := State(false, None, None, None)
  const DEFAULT_EXT := "*.xml"

  datatype Word = Help | Version | Delete | LogFile | Ext | Positional

  function Classify(a: string): Word {
    if a == "-h" then Help
    else if a == "-v" then Version
    else if a == "-d" then Delete
    else if a == "-l" then LogFile
    else if a == "-x" then Ext
    else Positional
  }

  datatype Next = Stop(outcome: Outcome) | Continue(rest: seq<string>, state: State)

  /** One pass of the loop: the word `args[0]`, and its value for `-l` and `-x`. */
  function Step(args: seq<string>, st: State): (n: Next)
    requires args != []
    ensures n.Continue? ==> |n.rest| < |args|
  {
    match Classify(args[0])
    case Help => Stop(Exit(0, Usage))
    case Version => Stop(Exit(0, VersionLine))
    case Delete => Continue(args[1..], st.(delete := true))
    case LogFile => if |args| == 1 then Stop(Panic(MissingLogFile)) else Continue(args[2..], st.(logFile := Some(args[1])))
    case Ext => if |args| == 1 then Stop(Panic(MissingExtension)) else Continue(args[2..], st.(ext := Some(args[1])))
    case Positional => Continue(args[1..], st.(configFile := Some(args[0])))
  }

  /** The loop over all words from `st`: the locals at the end, or how the process stopped. */
  function Walk(args: seq<string>, st: State): Result<State, Outcome>
    decreases |args|
  {
    if args == [] then Ok(st)
    else
      match Step(args, st)
      case Stop(o) => Err(o)
      case Continue(rest, next) => Walk(rest, next)
  }

  /** After the loop: no configuration file exits with status 1, and a missing pattern becomes `*.xml`. */
  function Finish(st: State): Outcome {
    if st.configFile.None? then Exit(1, MissingConfigUsage)
    else Parsed(st.delete, st.logFile, st.configFile, Some(st.ext.GetOr(DEFAULT_EXT)))
  }

  function Parse(args: seq<string>): Outcome {
    match Walk(args, Initial)
    case Err(o) => o
    case Ok(st) => Finish(st)
  }

  /** `parse_args` over the words after the program name. */
  method ParseArgs(args: seq<string>) returns (r: Outcome)
    ensures r == Parse(args)
  {
    var delete := false;
    var logFile: Option<string> := None;
    var configFile: Option<string> := None;
    var ext: Option<string> := None;
    var i := 0;
    while i < |args|
      invariant 0 <= i <= |args|
      invariant Walk(args, Initial) == Walk(args[i..], State(delete, logFile, configFile, ext))
      decreases |args| - i
    {
      ghost var here := args[i..];
      assert here[0] == args[i] && here[1..] == args[i + 1..];
      var arg := args[i];
      i := i + 1;
      match Classify(arg) {
        case Help =>
          return Exit(0, Usage);
        case Version =>
          return Exit(0, VersionLine);
        case Delete =>
          delete := true;
        case LogFile =>
          if i == |args| {
            return Panic(MissingLogFile);
          }
          assert here[2..] == args[i + 1..];
          logFile := Some(args[i]);
          i := i + 1;
        case Ext =>
          if i == |args| {
            return Panic(MissingExtension);
          }
          assert here[2..] == args[i + 1..];
          ext := Some(args[i]);
          i := i + 1;
        case Positional =>
          configFile := Some(arg);
      }
    }
    assert args[i..] == [];
    if configFile.None? {
      return Exit(1, MissingConfigUsage);
    }
    if ext.None? {
      ext := Some(DEFAULT_EXT);
    }
    r := Parsed(delete, logFile, configFile, ext);
  }

  // ---------------------------------------------------------------- properties

  /** A step over words followed by more words: a finished step sees the same, a continuing one carries the extra words along. */
  lemma StepAppend(a: seq<string>, b: seq<string>, st: State)
    requires a != []
    requires Walk(a, st).Ok?
    ensures Step(a, st).Continue?
    ensures Step(a + b, st) == Continue(Step(a, st).rest + b, Step(a, st).state)
  {
    var ab := a + b;
    assert ab[0] == a[0];
    assert ab[1..] == a[1..] + b;
    if |a| >= 2 {
      assert ab[1] == a[1] && ab[2..] == a[2..] + b;
    }
  }

  /** Once a prefix of the words has been walked through, the rest is walked from where it left off. */
  lemma {:induction false} WalkAppend(a: seq<string>, b: seq<string>, st: State)
    requires Walk(a, st).Ok?
    ensures Walk(a + b, st) == Walk(b, Walk(a, st).value)
    decreases |a|
  {
    if a == [] {
      assert a + b == b;
    } else {
      StepAppend(a, b, st);
      var n := Step(a, st);
      WalkAppend(n.rest, b, n.state);
    }
  }

  /** `-h` and `-v` end the process with status 0 at once, whatever follows. */
  lemma HelpAndVersionExit(pre: seq<string>, w: string, rest: seq<string>)
    requires Walk(pre, Initial).Ok?
    requires w == "-h" || w == "-v"
    ensures Parse(pre + [w] + rest).Exit? && Parse(pre + [w] + rest).code == 0
  {
    WalkAppend(pre, [w] + rest, Initial);
    assert pre + [w] + rest == pre + ([w] + rest);
    assert ([w] + rest)[0] == w;
  }

  /** `-l` or `-x` as the last word panics. */
  lemma DanglingValue(pre: seq<string>, w: string)
    requires Walk(pre, Initial).Ok?
    requires w == "-l" || w == "-x"
    ensures Parse(pre + [w]) == Panic(if w == "-l" then MissingLogFile else MissingExtension)
  {
    WalkAppend(pre, [w], Initial);
  }

  /** Every positional word replaces the configuration file name, so the last one wins. */
  lemma LastPositionalWins(pre: seq<string>, w: string)
    requires Walk(pre, Initial).Ok?
    requires Classify(w) == Positional
    ensures Parse(pre + [w]).Parsed? && Parse(pre + [w]).configFile == Some(w)
  {
    WalkAppend(pre, [w], Initial);
    assert [w][1..] == [];
  }

  /** Words that are all `-d` never name a configuration file: the process exits with status 1. */
  lemma {:induction false} OnlyDeleteFlags(args: seq<string>, st: State)
    requires st.configFile.None?
    requires forall i :: 0 <= i < |args| ==> args[i] == "-d"
    ensures Walk(args, st).Ok? && Walk(args, st).value.configFile.None?
    decreases |args|
  {
    if args != [] {
      assert args[0] == "-d";
      OnlyDeleteFlags(args[1..], st.(delete := true));
    }
  }

  lemma NoConfigExits(args: seq<string>)
    requires forall i :: 0 <= i < |args| ==> args[i] == "-d"
    ensures Parse(args) == Exit(1, MissingConfigUsage)
  {
    OnlyDeleteFlags(args, Initial);
  }

  /** A walk that stops early stops with an exit or a panic, never with parsed options. */
  lemma {:induction false} WalkStopsUnparsed(args: seq<string>, st: State)
    ensures Walk(args, st).Err? ==> !Walk(args, st).error.Parsed?
    decreases |args|
  {
    if args != [] && Step(args, st).Continue? {
      WalkStopsUnparsed(Step(args, st).rest, Step(args, st).state);
    }
  }

  /** A walk over words none of which is `-x` leaves the pattern as it was. */
  lemma {:induction false} WalkKeepsExt(args: seq<string>, st: State)
    requires forall i :: 0 <= i < |args| ==> args[i] != "-x"
    requires Walk(args, st).Ok?
    ensures Walk(args, st).value.ext == st.ext
    decreases |args|
  {
    if args != [] {
      var n := Step(args, st);
      assert n.rest == args[|args| - |n.rest|..];
      WalkKeepsExt(n.rest, n.state);
    }
  }

  /**
   * A clean walk that names a configuration file parses to the locals it
   * reached, with `*.xml` standing in for a missing pattern; in particular,
   * words without `-x` always give `*.xml`.
   */
  lemma PatternDefault(args: seq<string>)
    ensures Walk(args, Initial).Ok? && Walk(args, Initial).value.configFile.Some? ==>
              var st := Walk(args, Initial).value;
              Parse(args) == Parsed(st.delete, st.logFile, st.configFile, Some(st.ext.GetOr(DEFAULT_EXT)))
    ensures (forall i :: 0 <= i < |args| ==> args[i] != "-x") && Parse(args).Parsed? ==> Parse(args).ext == Some(DEFAULT_EXT)
  {
    WalkStopsUnparsed(args, Initial);
    var w := Walk(args, Initial);
    if w.Ok? {
      assert Parse(args) == Finish(w.value);
      if forall i :: 0 <= i < |args| ==> args[i] != "-x" {
        WalkKeepsExt(args, Initial);
      }
    }
  }

  /** The pattern is the value of the last `-x` option, whatever came before it. */
  lemma PatternGiven(pre: seq<string>, e: string, post: seq<string>)
    requires Walk(pre, Initial).Ok?
    requires forall i :: 0 <= i < |post| ==> post[i] != "-x"
    ensures Parse(pre + ["-x", e] + post).Parsed? ==> Parse(pre + ["-x", e] + post).ext == Some(e)
  {
    var tail := ["-x", e] + post;
    assert pre + ["-x", e] + post == pre + tail;
    WalkAppend(pre, tail, Initial);
    var st := Walk(pre, Initial).value;
    assert tail[0] == "-x" && tail[1] == e && tail[2..] == post;
    assert Step(tail, st) == Continue(post, st.(ext := Some(e)));
    WalkStopsUnparsed(post, st.(ext := Some(e)));
    if Walk(post, st.(ext := Some(e))).Ok? {
      WalkKeepsExt(post, st.(ext := Some(e)));
    }
  }
}
