/**
 * The single-file first generation of the program (`main.rs`): its own
 * argument parser (with `-p` and `-r`), the CSV reader (the same code as in
 * the legacy configuration module), a transfer loop over plain FTP with a
 * shutdown check, a pattern filter and an age filter but no size check, and
 * `main`, which runs the loop for every entry and adds up the counts.
 */
module LegacyMain {
  import opened Wrappers
  import opened Remote
  import Text
  import FtpSessions
  import LegacyConf
  import LegacyTransf
  import Shutdown

  // ---------------------------------------------------------------- parse_args

  /** What the process prints before it exits. */
  datatype Message = Usage | VersionLine | MissingConfigUsage

  /** The `expect` that panics. */
  datatype Panic = MissingLogFile | MissingPattern | MissingParallel | ParallelNotNumber

  datatype Outcome =
    | Parsed(delete: bool, logFile: Option<string>, configFile: Option<string>, ext: Option<string>,
             parallel: Text.u64, randomize: bool)
    | Exit(code: int, message: Message)
    | Panicked(panic: Panic)

  /** The parser's mutable locals. */
  datatype State = State(delete: bool, logFile: Option<string>, configFile: Option<string>, ext: Option<string>,
                         parallel: Text.u64, randomize: bool)

  const Initial := State(false, None, None, None, 1, false)
  /** The default pattern, `.*\.xml`. */
  const DEFAULT_EXT := ".*\\.xml"

  datatype Word = Help | Version | Delete | LogFile | Pattern | Parallel | Randomize | Positional

  function Classify(a: string): Word {
    if a == "-h" then Help
    else if a == "-v" then Version
    else if a == "-d" then Delete
    else if a == "-l" then LogFile
    else if a == "-x" then Pattern
    else if a == "-p" then Parallel
    else if a == "-r" then Randomize
    else Positional
  }

  datatype Next = Stop(outcome: Outcome) | Continue(rest: seq<string>, state: State)

  /** One pass of the loop: the word `args[0]`, and its value for `-l`, `-x` and `-p`. */
  function Step(args: seq<string>, st: State): (n: Next)
    requires args != []
    ensures n.Continue? ==> |n.rest| < |args|
  {
    match Classify(args[0])
    case Help => Stop(Exit(0, Usage))
    case Version => Stop(Exit(0, VersionLine))
    case Delete => Continue(args[1..], st.(delete := true))
    case Randomize => Continue(args[1..], st.(randomize := true))
    case LogFile => if |args| == 1 then Stop(Panicked(MissingLogFile)) else Continue(args[2..], st.(logFile := Some(args[1])))
    case Pattern => if |args| == 1 then Stop(Panicked(MissingPattern)) else Continue(args[2..], st.(ext := Some(args[1])))
    case Parallel =>
      if |args| == 1 then Stop(Panicked(MissingParallel))
      else
        (match Text.ParseUnsigned(args[1], Text.U64_MAX)
         case Err(_) => Stop(Panicked(ParallelNotNumber))
         case Ok(n) => Continue(args[2..], st.(parallel := n)))
    case Positional => Continue(args[1..], st.(configFile := Some(args[0])))
  }

  function Walk(args: seq<string>, st: State): Result<State, Outcome>
    decreases |args|
  {
    if args == [] then Ok(st)
    else
      match Step(args, st)
      case Stop(o) => Err(o)
      case Continue(rest, next) => Walk(rest, next)
  }

  /** After the loop: no configuration file exits with status 1, and a missing pattern becomes `.*\.xml`. */
  function Finish(st: State): Outcome {
    if st.configFile.None? then Exit(1, MissingConfigUsage)
    else Parsed(st.delete, st.logFile, st.configFile, Some(st.ext.GetOr(DEFAULT_EXT)), st.parallel, st.randomize)
  }

  function Parse(args: seq<string>): Outcome {
    match Walk(args, Initial)
    case Err(o) => o
    case Ok(st) => Finish(st)
  }

  /** `parse_args` over the words after the program name. */
  method ParseArgs(args: seq<string>) returns (r: Outcome)
    ensures r == Parse(args)
  {
    var st := Initial;
    var i := 0;
    while i < |args|
      invariant 0 <= i <= |args|
      invariant Walk(args, Initial) == Walk(args[i..], st)
      decreases |args| - i
    {
      ghost var here := args[i..];
      assert here[0] == args[i] && here[1..] == args[i + 1..];
      var arg := args[i];
      i := i + 1;
      match Classify(arg) {
        case Help =>
          return Exit(0, Usage);
        case Version =>
          return Exit(0, VersionLine);
        case Delete =>
          st := st.(delete := true);
        case Randomize =>
          st := st.(randomize := true);
        case LogFile =>
          if i == |args| {
            return Panicked(MissingLogFile);
          }
          assert here[1] == args[i] && here[2..] == args[i + 1..];
          st := st.(logFile := Some(args[i]));
          i := i + 1;
        case Pattern =>
          if i == |args| {
            return Panicked(MissingPattern);
          }
          assert here[1] == args[i] && here[2..] == args[i + 1..];
          st := st.(ext := Some(args[i]));
          i := i + 1;
        case Parallel =>
          if i == |args| {
            return Panicked(MissingParallel);
          }
          assert here[1] == args[i] && here[2..] == args[i + 1..];
          var n := Text.ParseUnsigned(args[i], Text.U64_MAX);
          if n.Err? {
            return Panicked(ParallelNotNumber);
          }
          st := st.(parallel := n.value);
          i := i + 1;
        case Positional =>
          st := st.(configFile := Some(arg));
      }
    }
    assert args[i..] == [];
    if st.configFile.None? {
      return Exit(1, MissingConfigUsage);
    }
    if st.ext.None? {
      st := st.(ext := Some(DEFAULT_EXT));
    }
    r := Parsed(st.delete, st.logFile, st.configFile, st.ext, st.parallel, st.randomize);
  }

  /** `StepAppend` for the words that take a value: the step looks at two words only. */
  lemma StepAppendValue(a: seq<string>, b: seq<string>, st: State)
    requires |a| >= 2 && (Classify(a[0]).LogFile? || Classify(a[0]).Pattern? || Classify(a[0]).Parallel?)
    requires Step(a, st).Continue?
    ensures Step(a + b, st) == Continue(Step(a, st).rest + b, Step(a, st).state)
  {
    var ab := a + b;
    assert ab[0] == a[0] && ab[1] == a[1] && ab[2..] == a[2..] + b;
  }

  /** `StepAppend` for the words that take no value: the step looks at one word only. */
  lemma StepAppendPlain(a: seq<string>, b: seq<string>, st: State)
    requires a != [] && (Classify(a[0]).Delete? || Classify(a[0]).Randomize? || Classify(a[0]).Positional?)
    ensures Step(a + b, st) == Continue(Step(a, st).rest + b, Step(a, st).state)
  {
    var ab := a + b;
    assert ab[0] == a[0] && ab[1..] == a[1..] + b;
  }

  lemma StepAppend(a: seq<string>, b: seq<string>, st: State)
    requires a != []
    requires Walk(a, st).Ok?
    ensures Step(a, st).Continue?
    ensures Step(a + b, st) == Continue(Step(a, st).rest + b, Step(a, st).state)
  {
    match Classify(a[0])
    case LogFile | Pattern | Parallel =>
      StepAppendValue(a, b, st);
    case Delete | Randomize | Positional =>
      StepAppendPlain(a, b, st);
    case Help | Version =>
      assert false;
  }

  /** Once a prefix of the words has been walked through, the rest is walked from where it left off. */
  lemma {:induction false} WalkAppend(a: seq<string>, b: seq<string>, st: State)
    requires Walk(a, st).Ok?
    ensures Walk(a + b, st) == Walk(b, Walk(a, st).value)
    decreases |a|
  {
    if a == [] {
      assert a + b == b;
    } else {
      StepAppend(a, b, st);
      var n := Step(a, st);
      WalkAppend(n.rest, b, n.state);
    }
  }

  /** Every positional word replaces the configuration file name, so the last one wins. */
  lemma LastPositionalWins(pre: seq<string>, w: string)
    requires Walk(pre, Initial).Ok?
    requires Classify(w) == Positional
    ensures Parse(pre + [w]).Parsed? && Parse(pre + [w]).configFile == Some(w)
  {
    WalkAppend(pre, [w], Initial);
    assert [w][1..] == [];
  }

  /** A value for `-p` that is not a `usize` panics; without `-p` one thread is asked for. */
  lemma ParallelValue(c: string, v: string)
    requires Classify(c) == Positional
    ensures Parse([c]) == Parsed(false, None, Some(c), Some(".*\\.xml"), 1, false)
    ensures Text.ParseUnsigned(v, Text.U64_MAX).Err? ==> Parse(["-p", v, c]) == Panicked(ParallelNotNumber)
  {
    assert [c][1..] == [];
    assert Walk([c], Initial) == Ok(Initial.(configFile := Some(c)));
  }

  /** A value-taking option as the last word panics. */
  lemma DanglingValue(pre: seq<string>, w: string)
    requires Walk(pre, Initial).Ok?
    requires w == "-l" || w == "-x" || w == "-p"
    ensures Parse(pre + [w]).Panicked?
  {
    WalkAppend(pre, [w], Initial);
  }

  /** `-h` and `-v` end the process with status 0 at once, whatever follows. */
  lemma HelpAndVersionExit(pre: seq<string>, w: string, rest: seq<string>)
    requires Walk(pre, Initial).Ok?
    requires w == "-h" || w == "-v"
    ensures Parse(pre + [w] + rest).Exit? && Parse(pre + [w] + rest).code == 0
  {
    WalkAppend(pre, [w] + rest, Initial);
    assert pre + [w] + rest == pre + ([w] + rest);
    assert ([w] + rest)[0] == w;
  }

  // ------------------------------------------------------------ transfer_files

  /** How the loop body ended for one listed name. */
  datatype FileResult =
    | NoMatch                   // the name does not match the pattern
    | MtimeUnavailable          // the modification time could not be fetched
    | FromFuture                // the modification time is after now
    | TooYoung                  // younger than the configured age
    | SourceBinaryFailed        // binary mode refused by the source
    | TargetBinaryFailed        // binary mode refused by the target
    | Attempted(copy: LegacyTransf.FileResult)
  {
    /** Results that touch neither server's files. */
    predicate Skipped() {
      NoMatch? || MtimeUnavailable? || FromFuture? || TooYoung?
    }

    /** Results that add one to the count: the upload was reported as successful. */
    predicate Counted() {
      Attempted? && copy.Copied?
    }
  }

  /** The age rule: not in the future and at least `minAge` seconds old. */
  predicate OldEnough(t: int, now: nat, minAge: nat) {
    t <= now && now - t >= minAge
  }

  /**
   * The filters before any transfer: the pattern, then the modification time,
   * which must be fetched, not lie in the future and be at least the
   * configured age old. `None` means the file is to be transferred.
   */
  method Screen(from: FtpSessions.FtpSession, name: string, pattern: string, isMatch: (string, string) -> bool,
                minAge: nat, now: nat)
    returns (skip: Option<FileResult>)
    requires from.live
    modifies from.server`clock
    ensures skip.Some? ==> skip.value.Skipped()
    ensures skip == Some(NoMatch) <==> !isMatch(pattern, name)
    ensures var q, S := from.PathOf(name), from.server;
      && (skip.None? ==> q in S.files && q in S.mtimes && OldEnough(S.mtimes[q], now, minAge))
      && (skip == Some(FromFuture) ==> q in S.mtimes && S.mtimes[q] > now)
      && (skip == Some(TooYoung) ==> q in S.mtimes && S.mtimes[q] <= now && now - S.mtimes[q] < minAge)
  {
    if !isMatch(pattern, name) {
      return Some(NoMatch);
    }
    var mtime := from.Mdtm(name);
    if mtime.Err? {
      return Some(MtimeUnavailable);
    }
    var t := mtime.value;
    if t > now {
      return Some(FromFuture);
    }
    if now - t < minAge {
      return Some(TooYoung);
    }
    return None;
  }

  /** Binary mode on the source, then on the target; the first refusal ends the attempt. */
  method SetBinary(from: FtpSessions.FtpSession, to: FtpSessions.FtpSession) returns (failure: Option<FileResult>)
    requires from.live && to.live && from.server != to.server
    modifies from`fileType, from.server`clock, to`fileType, to.server`clock
    ensures failure.Some? ==> failure.value.SourceBinaryFailed? || failure.value.TargetBinaryFailed?
    ensures failure.None? ==> from.fileType == FtpSessions.Binary && to.fileType == FtpSessions.Binary
  {
    var r := from.TransferType(FtpSessions.Binary);
    if r.Err? {
      return Some(SourceBinaryFailed);
    }
    r := to.TransferType(FtpSessions.Binary);
    if r.Err? {
      return Some(TargetBinaryFailed);
    }
    return None;
  }

  /**
   * The loop body for one name: screen it, remove the target file of that
   * name (any failure ignored), select binary mode on both sides, then relay
   * it. The target file is removed before binary mode is asked for, so a
   * refusal of binary mode also leaves the target without it.
   */
  method TransferFile(from: FtpSessions.FtpSession, to: FtpSessions.FtpSession, name: string,
                      pattern: string, isMatch: (string, string) -> bool, minAge: nat, now: nat, delete: bool)
    returns (r: FileResult)
    requires from.live && to.live && from.server != to.server
    modifies from`fileType, to`fileType, from.server`clock, from.server`files, to.server`clock, to.server`files
    ensures r == NoMatch <==> !isMatch(pattern, name)
    ensures var q, p, S, D := from.PathOf(name), to.PathOf(name), from.server, to.server;
      && (r.Skipped() ==> S.files == old(S.files) && D.files == old(D.files))
      && (!r.Skipped() ==> q in old(S.files) && q in S.mtimes && OldEnough(S.mtimes[q], now, minAge))
      && D.files - {p} == old(D.files) - {p}
      && (r.SourceBinaryFailed? || r.TargetBinaryFailed? || r == Attempted(LegacyTransf.DownloadFailed) ==>
            LegacyTransf.GoneOrKept(old(D.files), D.files, p))
      && (r == Attempted(LegacyTransf.UploadFailed) ==>
            LegacyTransf.GoneOrKept(old(D.files), D.files, p) || (p in D.files && D.files[p] <= old(S.files)[q]))
      && (r.Counted() ==> p in D.files && D.files[p] <= old(S.files)[q])
      && (r.Counted() ==> from.fileType == FtpSessions.Binary && to.fileType == FtpSessions.Binary)
      && S.files == (if r == Attempted(LegacyTransf.Copied(true)) then old(S.files) - {q} else old(S.files))
      && (r == Attempted(LegacyTransf.Copied(true)) ==> delete)
  {
    var skip := Screen(from, name, pattern, isMatch, minAge, now);
    if skip.Some? {
      return skip.value;
    }
    var removed := to.Rm(name);
    var failure := SetBinary(from, to);
    if failure.Some? {
      return failure.value;
    }
    var copy := LegacyTransf.Relay(from, to, name, delete);
    r := Attempted(copy);
  }

  /** Whether a result removes the file from the source. */
  predicate SourceDeleted(r: FileResult) {
    r.Attempted? && LegacyTransf.SourceDeleted(r.copy)
  }

  /**
   * The fixed parameters of one entry's file loop: the source's modification
   * times, both directories, the pattern and how it matches, the age rule's
   * inputs and the delete flag.
   */
  datatype Run = Run(mtimes: map<string, int>, fromDir: string, toDir: string, pattern: string,
                     isMatch: (string, string) -> bool, minAge: nat, now: nat, delete: bool)

  /**
   * What the loop body did for the listed `name`, with the source store going
   * from `s0` to `s1` and the target store from `d0` to `d1`: the facts of
   * `TransferFile`, stated on the stores themselves. An attempted relay is
   * one step of the relay's own loop.
   */
  predicate FileStep(run: Run, name: string, s0: Store, s1: Store, d0: Store, d1: Store, r: FileResult) {
    var q, p := Resolve(run.fromDir, name), Resolve(run.toDir, name);
    && (r == NoMatch <==> !run.isMatch(run.pattern, name))
    && (r.Skipped() ==> s1 == s0 && d1 == d0)
    && (!r.Skipped() ==> q in s0 && q in run.mtimes && OldEnough(run.mtimes[q], run.now, run.minAge))
    && (r.SourceBinaryFailed? || r.TargetBinaryFailed? ==>
          s1 == s0 && d1 - {p} == d0 - {p} && LegacyTransf.GoneOrKept(d0, d1, p))
    && (r.Attempted? ==>
          LegacyTransf.CopyStep(LegacyTransf.Run(run.fromDir, run.toDir, run.delete), name, s0, s1, d0, d1, r.copy))
  }

  /**
   * The loop reached the first `|results|` names of `names`, and step `j`
   * took the stores from snapshot `j` to snapshot `j + 1`.
   */
  predicate Steps(run: Run, names: seq<string>, srcSnaps: seq<Store>, dstSnaps: seq<Store>, results: seq<FileResult>) {
    && |results| <= |names| && |srcSnaps| == |results| + 1 && |dstSnaps| == |results| + 1
    && forall j :: 0 <= j < |results| ==>
         FileStep(run, names[j], srcSnaps[j], srcSnaps[j + 1], dstSnaps[j], dstSnaps[j + 1], results[j])
  }

  /**
   * Recording one more step: the run grows by one snapshot of each store, and
   * the source loses the step's path exactly when its result deletes it.
   */
  lemma StepRecorded(run: Run, names: seq<string>, srcSnaps: seq<Store>, dstSnaps: seq<Store>, results: seq<FileResult>,
                     S0: Store, s: Store, d: Store, r: FileResult)
    requires Steps(run, names, srcSnaps, dstSnaps, results) && |results| < |names|
    requires srcSnaps[|results|] == S0 - DeletedPaths(run.fromDir, names, results, SourceDeleted)
    requires FileStep(run, names[|results|], srcSnaps[|results|], s, dstSnaps[|results|], d, r)
    ensures Steps(run, names, srcSnaps + [s], dstSnaps + [d], results + [r])
    ensures s == S0 - DeletedPaths(run.fromDir, names, results + [r], SourceDeleted)
  {
    var n := |results|;
    var ss, ds, rs := srcSnaps + [s], dstSnaps + [d], results + [r];
    forall j | 0 <= j < |rs|
      ensures FileStep(run, names[j], ss[j], ss[j + 1], ds[j], ds[j + 1], rs[j])
    {
      if j < n {
        assert ss[j] == srcSnaps[j] && ss[j + 1] == srcSnaps[j + 1];
        assert ds[j] == dstSnaps[j] && ds[j + 1] == dstSnaps[j + 1] && rs[j] == results[j];
      }
    }
    assert rs[..n] == results && rs[n] == r;
    if SourceDeleted(r) {
      assert S0 - DeletedPaths(run.fromDir, names, rs, SourceDeleted) == (S0 - DeletedPaths(run.fromDir, names, results, SourceDeleted)) - {Resolve(run.fromDir, names[n])};
    }
  }

  /** Without `delete` no step removes a source file, so nothing is deleted. */
  lemma NothingDeletedWithoutDelete(run: Run, names: seq<string>, srcSnaps: seq<Store>, dstSnaps: seq<Store>, results: seq<FileResult>)
    requires Steps(run, names, srcSnaps, dstSnaps, results) && !run.delete
    ensures DeletedPaths(run.fromDir, names, results, SourceDeleted) == {}
  {
    forall j | 0 <= j < |results|
      ensures !SourceDeleted(results[j])
    {
      assert FileStep(run, names[j], srcSnaps[j], srcSnaps[j + 1], dstSnaps[j], dstSnaps[j + 1], results[j]);
    }
    DeletedPathsNone(run.fromDir, names, results, SourceDeleted);
  }

  /** The source only loses files during the loop: what it holds at any snapshot it held, unchanged, at the start. */
  lemma SourceOnlyShrinks(run: Run, names: seq<string>, srcSnaps: seq<Store>, dstSnaps: seq<Store>,
                           results: seq<FileResult>, k: nat)
    requires Steps(run, names, srcSnaps, dstSnaps, results) && k <= |results|
    ensures forall x :: x in srcSnaps[k] ==> x in srcSnaps[0] && srcSnaps[k][x] == srcSnaps[0][x]
  {
    forall j | 0 <= j < k
      ensures KeptFrom(srcSnaps[j + 1], srcSnaps[j])
    {
      assert FileStep(run, names[j], srcSnaps[j], srcSnaps[j + 1], dstSnaps[j], dstSnaps[j + 1], results[j]);
    }
    KeptFromStart(srcSnaps, k);
  }

  /**
   * Every transfer the loop counts was a file that matched the pattern, was
   * old enough by its modification time, and left at the target name, right
   * after its step, a prefix of what the source held under that name when
   * the loop began.
   */
  lemma CountedFromStart(run: Run, names: seq<string>, srcSnaps: seq<Store>, dstSnaps: seq<Store>,
                         results: seq<FileResult>, j: nat)
    requires Steps(run, names, srcSnaps, dstSnaps, results) && j < |results| && results[j].Counted()
    ensures var q, p := Resolve(run.fromDir, names[j]), Resolve(run.toDir, names[j]);
      && run.isMatch(run.pattern, names[j])
      && q in srcSnaps[0] && q in run.mtimes && OldEnough(run.mtimes[q], run.now, run.minAge)
      && p in dstSnaps[j + 1] && dstSnaps[j + 1][p] <= srcSnaps[0][q]
  {
    assert FileStep(run, names[j], srcSnaps[j], srcSnaps[j + 1], dstSnaps[j], dstSnaps[j + 1], results[j]);
    SourceOnlyShrinks(run, names, srcSnaps, dstSnaps, results, j);
  }

  function CountCopied(results: seq<FileResult>): (n: nat)
    ensures n <= |results|
  {
    if results == [] then 0
    else CountCopied(results[..|results| - 1]) + (if results[|results| - 1].Counted() then 1 else 0)
  }

  /**
   * What the file loop has recorded after its first `|results|` names: the
   * snapshots run from `S0` and `D0` to what the stores hold now, each step
   * is a `FileStep`, a name was skipped for its pattern exactly when it does
   * not match, `count` is the number of counted results, and the source has
   * lost exactly the deleted paths.
   */
  ghost predicate Recorded(run: Run, S: Server, D: Server, names: seq<string>, S0: Store, D0: Store,
                           count: int, results: seq<FileResult>, srcSnaps: seq<Store>, dstSnaps: seq<Store>)
    reads S, D
  {
    && Steps(run, names, srcSnaps, dstSnaps, results)
    && srcSnaps[0] == S0 && dstSnaps[0] == D0
    && srcSnaps[|results|] == S.files && dstSnaps[|results|] == D.files
    && (forall j :: 0 <= j < |results| ==> (results[j] == NoMatch <==> !run.isMatch(run.pattern, names[j])))
    && count == CountCopied(results)
    && S.files == S0 - DeletedPaths(run.fromDir, names, results, SourceDeleted)
  }

  /**
   * One iteration of the file loop past the shutdown check: `TransferFile`
   * for `names[i]`, recorded as one more snapshot of each store and counted
   * when its upload was reported.
   */
  method LoopBody(from: FtpSessions.FtpSession, to: FtpSessions.FtpSession, names: seq<string>, i: nat,
                  pattern: string, isMatch: (string, string) -> bool, minAge: nat, now: nat, delete: bool,
                  ghost run: Run, ghost S0: Store, ghost D0: Store, count: int,
                  ghost results: seq<FileResult>, ghost srcSnaps: seq<Store>, ghost dstSnaps: seq<Store>)
    returns (count': int, ghost results': seq<FileResult>, ghost srcSnaps': seq<Store>, ghost dstSnaps': seq<Store>)
    requires from.live && to.live && from.server != to.server
    requires run == Run(from.server.mtimes, from.cwd, to.cwd, pattern, isMatch, minAge, now, delete)
    requires Recorded(run, from.server, to.server, names, S0, D0, count, results, srcSnaps, dstSnaps)
    requires |results| == i < |names|
    modifies from`fileType, to`fileType, from.server`clock, from.server`files, to.server`clock, to.server`files
    ensures Recorded(run, from.server, to.server, names, S0, D0, count', results', srcSnaps', dstSnaps')
    ensures |results'| == i + 1
  {
    var r := TransferFile(from, to, names[i], pattern, isMatch, minAge, now, delete);
    StepRecorded(run, names, srcSnaps, dstSnaps, results, S0, from.server.files, to.server.files, r);
    results', srcSnaps', dstSnaps' := results + [r], srcSnaps + [from.server.files], dstSnaps + [to.server.files];
    assert results'[..i] == results && results'[i] == r;
    count' := if r.Counted() then count + 1 else count;
  }

  /**
   * One pass of the file loop: the shutdown check, then, when it sees no
   * request, `TransferFile` for `names[i]`.
   */
  method Iterate(from: FtpSessions.FtpSession, to: FtpSessions.FtpSession, names: seq<string>, i: nat,
                 shutdown: Shutdown.ShutdownState, pattern: string, isMatch: (string, string) -> bool,
                 minAge: nat, now: nat, delete: bool,
                 ghost run: Run, ghost S0: Store, ghost D0: Store, ghost raised0: bool, ghost checks0: nat, count: int,
                 ghost results: seq<FileResult>, ghost srcSnaps: seq<Store>, ghost dstSnaps: seq<Store>)
    returns (stop: bool, count': int, ghost results': seq<FileResult>, ghost srcSnaps': seq<Store>, ghost dstSnaps': seq<Store>)
    requires from.live && to.live && from.server != to.server
    requires run == Run(from.server.mtimes, from.cwd, to.cwd, pattern, isMatch, minAge, now, delete)
    requires Recorded(run, from.server, to.server, names, S0, D0, count, results, srcSnaps, dstSnaps)
    requires |results| == i < |names| && shutdown.Passed(raised0, checks0, |names|, i)
    modifies from`fileType, to`fileType, from.server`clock, from.server`files, to.server`clock, to.server`files
    modifies shutdown`requested, shutdown`signalType, shutdown`checks
    ensures Recorded(run, from.server, to.server, names, S0, D0, count', results', srcSnaps', dstSnaps')
    ensures stop ==> shutdown.Stopped(raised0, checks0, |names|, i) && results' == results
    ensures !stop ==> shutdown.Passed(raised0, checks0, |names|, i + 1) && |results'| == i + 1
  {
    stop := shutdown.CheckBeforeItem(raised0, checks0, |names|, i);
    if stop {
      return stop, count, results, srcSnaps, dstSnaps;
    }
    count', results', srcSnaps', dstSnaps' := LoopBody(from, to, names, i, pattern, isMatch, minAge, now, delete, run, S0, D0, count, results, srcSnaps, dstSnaps);
  }

  /**
   * The file loop: before each name the shutdown flag is checked and a raised
   * flag ends the loop; otherwise the name is transferred. The loop goes on
   * to exactly the names `Quiet` counts: all of them, or those before the
   * first check that sees a request. The count is the number of uploads
   * reported as successful, the ghost snapshots record both stores before the
   * loop and after every step, each step is a `FileStep`, and the source
   * loses exactly the paths of the names copied with a successful delete.
   */
  method RunLoop(from: FtpSessions.FtpSession, to: FtpSessions.FtpSession, fileList: seq<string>,
                 shutdown: Shutdown.ShutdownState, pattern: string, isMatch: (string, string) -> bool,
                 minAge: nat, now: nat, delete: bool)
    returns (count: int, ghost results: seq<FileResult>, ghost srcSnaps: seq<Store>, ghost dstSnaps: seq<Store>)
    requires from.live && to.live && from.server != to.server
    modifies from`fileType, to`fileType, from.server`clock, from.server`files, to.server`clock, to.server`files, shutdown
    ensures |results| <= |fileList| && count == CountCopied(results)
    ensures shutdown.Ended(old(shutdown.requested), old(shutdown.checks), |fileList|, |results|)
    ensures forall j :: 0 <= j < |results| ==> (results[j] == NoMatch <==> !isMatch(pattern, fileList[j]))
    ensures Steps(Run(from.server.mtimes, from.cwd, to.cwd, pattern, isMatch, minAge, now, delete), fileList, srcSnaps, dstSnaps, results)
    ensures srcSnaps[0] == old(from.server.files) && dstSnaps[0] == old(to.server.files)
    ensures srcSnaps[|results|] == from.server.files && dstSnaps[|results|] == to.server.files
    ensures from.server.files == old(from.server.files) - DeletedPaths(from.cwd, fileList, results, SourceDeleted)
    ensures !delete ==> DeletedPaths(from.cwd, fileList, results, SourceDeleted) == {}
  {
    ghost var S, D := from.server, to.server;
    ghost var S0, D0 := S.files, D.files;
    ghost var raised0, checks0 := shutdown.requested, shutdown.checks;
    ghost var run := Run(S.mtimes, from.cwd, to.cwd, pattern, isMatch, minAge, now, delete);
    count, results, srcSnaps, dstSnaps := 0, [], [S.files], [D.files];
    var i, stop := 0, false;
    while i < |fileList| && !stop
      invariant i <= |fileList| && |results| == i
      invariant Recorded(run, S, D, fileList, S0, D0, count, results, srcSnaps, dstSnaps)
      invariant !stop ==> shutdown.Passed(raised0, checks0, |fileList|, i)
      invariant stop ==> shutdown.Stopped(raised0, checks0, |fileList|, i)
      decreases |fileList| - i, !stop
    {
      stop, count, results, srcSnaps, dstSnaps := Iterate(from, to, fileList, i, shutdown, pattern, isMatch, minAge, now, delete,
                                                          run, S0, D0, raised0, checks0, count, results, srcSnaps, dstSnaps);
      if !stop {
        i := i + 1;
      }
    }
    assert raised0 == old(shutdown.requested) && checks0 == old(shutdown.checks) && i == |results|;
    shutdown.Finished(raised0, checks0, |fileList|, i, stop);
    if !delete {
      NothingDeletedWithoutDelete(run, fileList, srcSnaps, dstSnaps, results);
    }
  }

  /** How far an entry got before the file loop. */
  datatype Stage = ShutdownAtStart | SetupFailed(at: LegacyTransf.Stage) | NoPattern | BadPattern | Listed

  /** What `transfer_files` gives back: the count, or a panic from a pattern that does not compile. */
  datatype EntryResult = Count(n: int) | RegexPanic

  /**
   * The file loop an entry runs: the source's modification times, the
   * directories `cwd` leads to from the root, the pattern (the empty word
   * when there is none, in which case the loop does not run) and the entry's
   * age.
   */
  function EntryRun(config: LegacyConf.Config, S: Server, ext: Option<string>, isMatch: (string, string) -> bool,
                    now: nat, delete: bool): Run {
    Run(S.mtimes, FtpSessions.CwdTarget("/", config.pathFrom), FtpSessions.CwdTarget("/", config.pathTo),
        ext.GetOr(""), isMatch, config.age, now, delete)
  }

  /**
   * `transfer_files` for one entry. A shutdown request seen first returns 0
   * at once. Then both sides are opened (a failed login is only logged),
   * the source is listed, and with no pattern the entry returns 0; a pattern
   * that does not compile panics. Otherwise the file loop runs with the
   * entry's age. The servers stand for the entry's hosts and ports; the
   * ghost snapshots are both stores before the loop and after each step.
   */
  method TransferFiles(config: LegacyConf.Config, S: Server, D: Server, shutdown: Shutdown.ShutdownState,
                       delete: bool, ext: Option<string>, compiles: string -> bool,
                       isMatch: (string, string) -> bool, now: nat)
    returns (r: EntryResult, ghost stage: Stage, ghost srcDir: string, ghost names: seq<string>,
             ghost results: seq<FileResult>, ghost srcSnaps: seq<Store>, ghost dstSnaps: seq<Store>)
    requires S != D
    modifies S, D, shutdown
    ensures stage == ShutdownAtStart <==> old(shutdown.Pending())
    ensures (stage == BadPattern) == (r == RegexPanic)
    ensures stage == BadPattern ==> ext.Some? && !compiles(ext.value)
    ensures |results| <= |names|
    ensures stage == ShutdownAtStart ==> shutdown.checks == old(shutdown.checks) + 1 && shutdown.requested
    ensures stage == Listed ==> shutdown.Ended(false, old(shutdown.checks) + 1, |names|, |results|)
    ensures stage != ShutdownAtStart && stage != Listed ==> shutdown.checks == old(shutdown.checks) + 1 && !shutdown.requested
    ensures stage != Listed ==> S.files == old(S.files) && D.files == old(D.files) && results == []
    ensures stage != Listed && stage != BadPattern ==> r == Count(0)
    ensures srcDir == FtpSessions.CwdTarget("/", config.pathFrom)
    ensures stage == Listed ==> srcDir in S.listings && names == FtpSessions.NameList(S.listings[srcDir])
    ensures stage == Listed ==> ext.Some? && compiles(ext.value)
    ensures stage == Listed ==> forall j :: 0 <= j < |results| ==> (results[j] == NoMatch <==> !isMatch(ext.value, names[j]))
    ensures r.Count? ==> r.n == CountCopied(results) && 0 <= r.n <= |names|
    ensures Steps(EntryRun(config, S, ext, isMatch, now, delete), names, srcSnaps, dstSnaps, results)
    ensures srcSnaps[0] == old(S.files) && dstSnaps[0] == old(D.files)
    ensures srcSnaps[|results|] == S.files && dstSnaps[|results|] == D.files
    ensures S.files == old(S.files) - DeletedPaths(srcDir, names, results, SourceDeleted)
    ensures !delete ==> S.files == old(S.files)
  {
    srcDir := FtpSessions.CwdTarget("/", config.pathFrom);
    names, results, srcSnaps, dstSnaps := [], [], [S.files], [D.files];
    var stop := shutdown.IsShutdownRequested();
    if stop {
      return Count(0), ShutdownAtStart, srcDir, names, results, srcSnaps, dstSnaps;
    }
    var setup := LegacyTransf.OpenBoth(config, S, D);
    if setup.Err? {
      return Count(0), SetupFailed(setup.error), srcDir, names, results, srcSnaps, dstSnaps;
    }
    if ext.None? {
      return Count(0), NoPattern, srcDir, names, results, srcSnaps, dstSnaps;
    }
    if !compiles(ext.value) {
      return RegexPanic, BadPattern, srcDir, names, results, srcSnaps, dstSnaps;
    }
    var from, to, fileList := setup.value.from, setup.value.to, setup.value.fileList;
    stage, names := Listed, fileList;
    var count;
    count, results, srcSnaps, dstSnaps := RunLoop(from, to, fileList, shutdown, ext.value, isMatch, config.age, now, delete);
    r := Count(count);
  }

  // ---------------------------------------------------------------------- main

  function Sum(counts: seq<int>): int {
    if counts == [] then 0 else Sum(counts[..|counts| - 1]) + counts[|counts| - 1]
  }

  /** Counts of zero at the end add nothing: the total is fixed by the entries before them. */
  lemma {:induction false} SumZeroTail(counts: seq<int>, i: nat)
    requires i <= |counts|
    requires forall j :: i <= j < |counts| ==> counts[j] == 0
    ensures Sum(counts) == Sum(counts[..i])
    decreases |counts|
  {
    if |counts| > i {
      var n := |counts| - 1;
      assert counts[..n][..i] == counts[..i];
      SumZeroTail(counts[..n], i);
    } else {
      assert counts[..i] == counts;
    }
  }

  /** Counts that are never negative add up to a total that is not negative. */
  lemma {:induction false} SumNonNegative(counts: seq<int>)
    requires forall j :: 0 <= j < |counts| ==> counts[j] >= 0
    ensures Sum(counts) >= 0
  {
    if counts != [] {
      var n := |counts| - 1;
      assert forall j :: 0 <= j < n ==> counts[..n][j] == counts[j];
      SumNonNegative(counts[..n]);
    }
  }

  /**
   * Once entry `i` has seen a shutdown request, the total is what the
   * entries before it transferred.
   */
  lemma TotalAfterShutdown(counts: seq<int>, pending: seq<bool>, i: nat)
    requires |counts| == |pending| && i < |pending| && pending[i]
    requires forall j :: 0 <= j < |counts| && pending[j] ==> counts[j] == 0
    requires forall j, k :: 0 <= j < k < |pending| && pending[j] ==> pending[k]
    ensures Sum(counts) == Sum(counts[..i])
  {
    SumZeroTail(counts, i);
  }

  /** What `main`'s fold gives: the total count, or the panic of a worker. */
  datatype RunResult = Total(n: int) | WorkerPanicked

  /** What one entry of the fold did: how far it got, the names it listed, and its file loop's results and snapshots. */
  datatype EntryTrace = EntryTrace(stage: Stage, names: seq<string>, results: seq<FileResult>,
                                   srcSnaps: seq<Store>, dstSnaps: seq<Store>)

  /**
   * Entry `config`, whose source server is `S`, contributed `n` by running
   * the file loop of `EntryRun` over the names it listed, `n` being the
   * uploads that loop reported.
   */
  predicate Traced(config: LegacyConf.Config, S: Server, ext: Option<string>, isMatch: (string, string) -> bool,
                   now: nat, delete: bool, t: EntryTrace, n: int) {
    && Steps(EntryRun(config, S, ext, isMatch, now, delete), t.names, t.srcSnaps, t.dstSnaps, t.results)
    && n == CountCopied(t.results)
    && (t.stage == Listed ==>
          FtpSessions.CwdTarget("/", config.pathFrom) in S.listings
          && t.names == FtpSessions.NameList(S.listings[FtpSessions.CwdTarget("/", config.pathFrom)]))
    && (t.stage != Listed ==> t.results == [])
  }

  /** Recording entry `k` after the entries before it. */
  lemma TracedSnoc(configs: seq<LegacyConf.Config>, pairs: seq<(Server, Server)>, ext: Option<string>,
                   isMatch: (string, string) -> bool, now: nat, delete: bool,
                   traces: seq<EntryTrace>, counts: seq<int>, t: EntryTrace, n: int)
    requires |traces| == |counts| < |configs| && |traces| < |pairs|
    requires forall i {:trigger traces[i]} :: 0 <= i < |traces| ==> Traced(configs[i], pairs[i].0, ext, isMatch, now, delete, traces[i], counts[i])
    requires Traced(configs[|traces|], pairs[|traces|].0, ext, isMatch, now, delete, t, n)
    ensures forall i {:trigger (traces + [t])[i]} :: 0 <= i < |traces| + 1 ==>
      Traced(configs[i], pairs[i].0, ext, isMatch, now, delete, (traces + [t])[i], (counts + [n])[i])
  {
    forall i | 0 <= i < |traces| + 1
      ensures Traced(configs[i], pairs[i].0, ext, isMatch, now, delete, (traces + [t])[i], (counts + [n])[i])
    {
      if i < |traces| {
        assert (traces + [t])[i] == traces[i] && (counts + [n])[i] == counts[i];
      }
    }
  }

  /** The shutdown flag and the number of times it has been checked. */
  datatype Mark = Mark(raised: bool, checks: nat)

  /**
   * The shutdown checks `transfer_files` made for entry `t`, the first of them
   * check number `c`, ending in `after`: it returns at once exactly when that
   * check sees a request; a file loop that ran went on to the names `Quiet`
   * counts from the check after, and any other stage made no further check.
   */
  predicate RunChecks(arrivals: nat -> Shutdown.u8, c: nat, t: EntryTrace, after: Mark) {
    && (t.stage == ShutdownAtStart <==> arrivals(c) != 0)
    && (t.stage == ShutdownAtStart ==> after == Mark(true, c + 1))
    && (t.stage == Listed ==>
          && |t.results| == Shutdown.Quiet(arrivals, false, c + 1, |t.names|)
          && after == Mark(|t.results| < |t.names|, c + 1 + |t.results| + (if |t.results| < |t.names| then 1 else 0)))
    && (t.stage != ShutdownAtStart && t.stage != Listed ==> after == Mark(false, c + 1))
  }

  /**
   * The shutdown checks entry `t` made, from `before` to `after`. The fold's
   * own check stops the entry exactly when it sees a request; otherwise
   * `transfer_files` makes its checks from the next one on.
   */
  predicate EntryChecks(arrivals: nat -> Shutdown.u8, before: Mark, stop: bool, t: EntryTrace, after: Mark) {
    var c := before.checks;
    && (stop <==> before.raised || arrivals(c) != 0)
    && (stop ==> t.stage == ShutdownAtStart && after == Mark(true, c + 1))
    && (!stop ==> RunChecks(arrivals, c + 1, t, after))
  }

  /** Recording the checks of entry `|traces|` after those of the entries before it. */
  lemma ChecksSnoc(arrivals: nat -> Shutdown.u8, marks: seq<Mark>, pending: seq<bool>, traces: seq<EntryTrace>,
                   stop: bool, t: EntryTrace, after: Mark)
    requires |marks| == |traces| + 1 && |pending| == |traces|
    requires forall i {:trigger traces[i]} :: 0 <= i < |traces| ==> EntryChecks(arrivals, marks[i], pending[i], traces[i], marks[i + 1])
    requires EntryChecks(arrivals, marks[|traces|], stop, t, after)
    ensures forall i {:trigger (traces + [t])[i]} :: 0 <= i < |traces| + 1 ==>
      EntryChecks(arrivals, (marks + [after])[i], (pending + [stop])[i], (traces + [t])[i], (marks + [after])[i + 1])
  {
    forall i | 0 <= i < |traces| + 1
      ensures EntryChecks(arrivals, (marks + [after])[i], (pending + [stop])[i], (traces + [t])[i], (marks + [after])[i + 1])
    {
      assert (marks + [after])[i] == marks[i];
      if i < |traces| {
        assert (traces + [t])[i] == traces[i] && (pending + [stop])[i] == pending[i] && (marks + [after])[i + 1] == marks[i + 1];
      }
    }
  }

  /** Once an entry sees a request, every later entry sees one too: the flag stays raised. */
  lemma {:induction false} PendingPersists(arrivals: nat -> Shutdown.u8, marks: seq<Mark>, pending: seq<bool>, traces: seq<EntryTrace>, i: nat, j: nat)
    requires |marks| == |traces| + 1 && |pending| == |traces|
    requires forall k {:trigger traces[k]} :: 0 <= k < |traces| ==> EntryChecks(arrivals, marks[k], pending[k], traces[k], marks[k + 1])
    requires i <= j < |pending| && pending[i]
    ensures pending[j]
    decreases j - i
  {
    if i < j {
      assert EntryChecks(arrivals, marks[i], pending[i], traces[i], marks[i + 1]);
      assert EntryChecks(arrivals, marks[i + 1], pending[i + 1], traces[i + 1], marks[i + 2]);
      PendingPersists(arrivals, marks, pending, traces, i + 1, j);
    }
  }

  /**
   * What the recorded checks give about the whole fold: an entry that saw a
   * request contributed nothing, every entry after it saw one too, and a
   * request pending before the first entry leaves every count at 0.
   */
  lemma FoldSettled(configs: seq<LegacyConf.Config>, pairs: seq<(Server, Server)>, ext: Option<string>,
                    isMatch: (string, string) -> bool, now: nat, delete: bool, arrivals: nat -> Shutdown.u8,
                    counts: seq<int>, pending: seq<bool>, traces: seq<EntryTrace>, marks: seq<Mark>)
    requires |counts| == |pending| == |traces| <= |configs| == |pairs| && |marks| == |traces| + 1
    requires forall i {:trigger traces[i]} :: 0 <= i < |traces| ==> Traced(configs[i], pairs[i].0, ext, isMatch, now, delete, traces[i], counts[i])
    requires forall i {:trigger traces[i]} :: 0 <= i < |traces| ==> EntryChecks(arrivals, marks[i], pending[i], traces[i], marks[i + 1])
    ensures forall i :: 0 <= i < |counts| && pending[i] ==> counts[i] == 0
    ensures forall i, j :: 0 <= i < j < |pending| && pending[i] ==> pending[j]
    ensures marks[0].raised || arrivals(marks[0].checks) != 0 ==> forall i :: 0 <= i < |counts| ==> counts[i] == 0
  {
    forall i | 0 <= i < |counts| && pending[i]
      ensures counts[i] == 0
    {
      assert EntryChecks(arrivals, marks[i], pending[i], traces[i], marks[i + 1]);
      assert Traced(configs[i], pairs[i].0, ext, isMatch, now, delete, traces[i], counts[i]);
    }
    forall i, j | 0 <= i < j < |pending| && pending[i]
      ensures pending[j]
    {
      PendingPersists(arrivals, marks, pending, traces, i, j);
    }
    if (marks[0].raised || arrivals(marks[0].checks) != 0) && |traces| > 0 {
      assert EntryChecks(arrivals, marks[0], pending[0], traces[0], marks[1]);
      forall i | 0 <= i < |counts|
        ensures counts[i] == 0
      {
        PendingPersists(arrivals, marks, pending, traces, 0, i);
      }
    }
  }

  /**
   * The `transfer_files` call of an entry whose own check saw no request,
   * as the fold sees it: the count, whether the worker panicked, and the
   * trace of what it did.
   */
  method RunUnstopped(config: LegacyConf.Config, S: Server, D: Server, shutdown: Shutdown.ShutdownState,
                      delete: bool, ext: Option<string>, compiles: string -> bool,
                      isMatch: (string, string) -> bool, now: nat)
    returns (n: int, panicked: bool, ghost t: EntryTrace)
    requires S != D && !shutdown.requested
    modifies S, D, shutdown
    ensures panicked <==> t.stage == BadPattern
    ensures panicked ==> ext.Some? && !compiles(ext.value)
    ensures RunChecks(shutdown.arrivals, old(shutdown.checks), t, Mark(shutdown.requested, shutdown.checks))
    ensures !panicked ==> n >= 0 && Traced(config, S, ext, isMatch, now, delete, t, n)
  {
    var entry, stage, srcDir, names, results, srcSnaps, dstSnaps := TransferFiles(config, S, D, shutdown, delete, ext, compiles, isMatch, now);
    t := EntryTrace(stage, names, results, srcSnaps, dstSnaps);
    n, panicked := 0, entry.RegexPanic?;
    if !panicked {
      n := entry.n;
    }
  }

  /**
   * One entry of the fold: check the shutdown flag and contribute 0 if it is
   * raised, else run `transfer_files`. `panicked` is a worker's panic on a
   * pattern that does not compile.
   */
  method RunEntry(config: LegacyConf.Config, S: Server, D: Server, shutdown: Shutdown.ShutdownState,
                  delete: bool, ext: Option<string>, compiles: string -> bool,
                  isMatch: (string, string) -> bool, now: nat)
    returns (n: int, stop: bool, panicked: bool, ghost t: EntryTrace)
    requires S != D
    modifies S, D, shutdown
    ensures stop <==> old(shutdown.Pending())
    ensures stop ==> n == 0 && !panicked
    ensures panicked <==> !stop && t.stage == BadPattern
    ensures panicked ==> ext.Some? && !compiles(ext.value)
    ensures EntryChecks(shutdown.arrivals, Mark(old(shutdown.requested), old(shutdown.checks)), stop, t, Mark(shutdown.requested, shutdown.checks))
    ensures !panicked ==> n >= 0 && Traced(config, S, ext, isMatch, now, delete, t, n)
  {
    stop := shutdown.IsShutdownRequested();
    n, panicked, t := 0, false, EntryTrace(ShutdownAtStart, [], [], [S.files], [D.files]);
    if !stop {
      n, panicked, t := RunUnstopped(config, S, D, shutdown, delete, ext, compiles, isMatch, now);
    }
  }

  /**
   * The fold in `main`, one entry after another: each entry first checks the
   * shutdown flag and contributes 0 if it is raised, else runs
   * `transfer_files`; the counts are added up. `pending[i]` is whether entry
   * `i` saw a request. Because the flag is never lowered, once an entry has
   * seen one every later entry sees one too and contributes nothing. Entry
   * `i` talks to the servers `pairs[i]`, and `traces[i]` is what its file
   * loop did. `marks[i]` is the flag and the number of checks made before
   * entry `i`, and `EntryChecks` ties what each entry did to the checks it
   * made: a request stops the entry or its loop at the first check that sees
   * it, and an entry that saw none ran `transfer_files`.
   */
  method TransferAll(configs: seq<LegacyConf.Config>, pairs: seq<(Server, Server)>, shutdown: Shutdown.ShutdownState,
                     delete: bool, ext: Option<string>, compiles: string -> bool,
                     isMatch: (string, string) -> bool, now: nat)
    returns (r: RunResult, ghost counts: seq<int>, ghost pending: seq<bool>, ghost traces: seq<EntryTrace>, ghost marks: seq<Mark>)
    requires |pairs| == |configs|
    requires forall i :: 0 <= i < |pairs| ==> pairs[i].0 != pairs[i].1
    modifies (set i | 0 <= i < |pairs| :: pairs[i].0), (set i | 0 <= i < |pairs| :: pairs[i].1), shutdown
    ensures |counts| == |pending| == |traces| <= |configs|
    ensures r.Total? ==> |counts| == |configs| && r.n == Sum(counts)
    ensures r.WorkerPanicked? ==> ext.Some? && !compiles(ext.value)
    ensures forall i :: 0 <= i < |counts| ==> counts[i] >= 0
    ensures forall i :: 0 <= i < |counts| && pending[i] ==> counts[i] == 0
    ensures forall i, j :: 0 <= i < j < |pending| && pending[i] ==> pending[j]
    ensures old(shutdown.Pending()) ==> forall i :: 0 <= i < |counts| ==> counts[i] == 0
    ensures forall i {:trigger traces[i]} :: 0 <= i < |traces| ==> Traced(configs[i], pairs[i].0, ext, isMatch, now, delete, traces[i], counts[i])
    ensures |marks| == |traces| + 1 && marks[0] == Mark(old(shutdown.requested), old(shutdown.checks))
    ensures r.Total? ==> marks[|traces|] == Mark(shutdown.requested, shutdown.checks)
    ensures forall i {:trigger traces[i]} :: 0 <= i < |traces| ==> EntryChecks(shutdown.arrivals, marks[i], pending[i], traces[i], marks[i + 1])
  {
    counts, pending, traces, marks := [], [], [], [Mark(shutdown.requested, shutdown.checks)];
    var total := 0;
    for k := 0 to |configs|
      invariant |counts| == |pending| == |traces| == k && total == Sum(counts)
      invariant forall i :: 0 <= i < k ==> counts[i] >= 0
      invariant forall i {:trigger traces[i]} :: 0 <= i < k ==> Traced(configs[i], pairs[i].0, ext, isMatch, now, delete, traces[i], counts[i])
      invariant |marks| == k + 1 && marks[0] == Mark(old(shutdown.requested), old(shutdown.checks))
      invariant marks[k] == Mark(shutdown.requested, shutdown.checks)
      invariant forall i {:trigger traces[i]} :: 0 <= i < k ==> EntryChecks(shutdown.arrivals, marks[i], pending[i], traces[i], marks[i + 1])
    {
      var n, stop, panicked, t := RunEntry(configs[k], pairs[k].0, pairs[k].1, shutdown, delete, ext, compiles, isMatch, now);
      if panicked {
        FoldSettled(configs, pairs, ext, isMatch, now, delete, shutdown.arrivals, counts, pending, traces, marks);
        return WorkerPanicked, counts, pending, traces, marks;
      }
      ghost var nextCounts := counts + [n];
      assert nextCounts[..k] == counts;
      TracedSnoc(configs, pairs, ext, isMatch, now, delete, traces, counts, t, n);
      ghost var after := Mark(shutdown.requested, shutdown.checks);
      ChecksSnoc(shutdown.arrivals, marks, pending, traces, stop, t, after);
      counts, pending, traces, marks := nextCounts, pending + [stop], traces + [t], marks + [after];
      total := total + n;
    }
    FoldSettled(configs, pairs, ext, isMatch, now, delete, shutdown.arrivals, counts, pending, traces, marks);
    r := Total(total);
  }
}
