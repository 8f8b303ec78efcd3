/**
 * The transfer loop of the first generation of the program (`transf.rs`):
 * plain FTP on both sides, no name or age filter, no temporary name and no
 * size check. Each listed name is removed from the target, downloaded,
 * uploaded under the same name and, if asked to, deleted from the source.
 */
module LegacyTransf {
  import opened Wrappers
  import opened Remote
  import FtpSessions
  import LegacyConf

  /** How far the setup got before the file loop. */
  datatype Stage = SourceConnectFailed | SourceCwdFailed | TargetConnectFailed | TargetCwdFailed | ListFailed | Listed

  /** How the loop body ended for one name. */
  datatype FileResult = DownloadFailed | UploadFailed | Copied(sourceDeleted: bool)

  /** `p` is either gone from `after` or exactly as it was in `before`. */
  predicate GoneOrKept(before: map<string, seq<byte>>, after: map<string, seq<byte>>, p: string) {
    p in after ==> p in before && after[p] == before[p]
  }

  /**
   * Download, upload under the same name, then delete the source if `delete`
   * is set. Only the final name on the target changes, and the source loses
   * the file only after a download and an upload that were both reported as
   * successful; what the target then holds is whatever part of the data it
   * stored.
   */
  method Relay(from: FtpSessions.FtpSession, to: FtpSessions.FtpSession, name: string, delete: bool)
    returns (r: FileResult)
    requires from.live && to.live && from.server != to.server
    modifies from.server`clock, from.server`files, to.server`clock, to.server`files
    ensures var q, p, S, D := from.PathOf(name), to.PathOf(name), from.server, to.server;
      && D.files - {p} == old(D.files) - {p}
      && (r.DownloadFailed? ==> D.files == old(D.files))
      && (r.UploadFailed? ==> q in old(S.files) && (D.files == old(D.files) || (p in D.files && D.files[p] <= old(S.files)[q])))
      && (r.Copied? ==> q in old(S.files) && p in D.files && D.files[p] <= old(S.files)[q])
      && S.files == (if r == Copied(true) then old(S.files) - {q} else old(S.files))
      && (r == Copied(true) ==> delete)
  {
    var data := from.Retr(name);
    if data.Err? {
      return DownloadFailed;
    }
    ghost var f := to.server.fault(to.server.clock);
    var put := to.PutFile(name, data.value);
    if put.Err? {
      return UploadFailed;
    }
    StoredPrefix(f, data.value);
    if delete {
      var gone := from.Rm(name);
      return Copied(gone.Ok?);
    }
    return Copied(false);
  }

  /**
   * The loop body for one name: remove the target file of that name (any
   * failure ignored), then relay the file. A failed download or upload may
   * thus leave the target without the file it had before.
   */
  method MoveFile(from: FtpSessions.FtpSession, to: FtpSessions.FtpSession, name: string, delete: bool)
    returns (r: FileResult)
    requires from.live && to.live && from.server != to.server
    modifies from.server`clock, from.server`files, to.server`clock, to.server`files
    ensures var q, p, S, D := from.PathOf(name), to.PathOf(name), from.server, to.server;
      && D.files - {p} == old(D.files) - {p}
      && (r.DownloadFailed? ==> GoneOrKept(old(D.files), D.files, p))
      && (r.UploadFailed? ==> q in old(S.files) && (GoneOrKept(old(D.files), D.files, p) || (p in D.files && D.files[p] <= old(S.files)[q])))
      && (r.Copied? ==> q in old(S.files) && p in D.files && D.files[p] <= old(S.files)[q])
      && S.files == (if r == Copied(true) then old(S.files) - {q} else old(S.files))
      && (r == Copied(true) ==> delete)
  {
    var removed := to.Rm(name);
    r := Relay(from, to, name, delete);
  }

  /** Whether a result removes the file from the source. */
  predicate SourceDeleted(r: FileResult) {
    r == Copied(true)
  }

  /** The fixed parameters of one entry's file loop: the source and target directories and the delete flag. */
  datatype Run = Run(fromDir: string, toDir: string, delete: bool)

  /**
   * What the loop body did for the listed `name`, with the source store going
   * from `s0` to `s1` and the target store from `d0` to `d1`: the facts of
   * `MoveFile`, stated on the stores themselves.
   */
  predicate CopyStep(run: Run, name: string, s0: Store, s1: Store, d0: Store, d1: Store, r: FileResult) {
    var q, p := Resolve(run.fromDir, name), Resolve(run.toDir, name);
    && d1 - {p} == d0 - {p}
    && (r.DownloadFailed? ==> GoneOrKept(d0, d1, p))
    && (r.UploadFailed? ==> q in s0 && (GoneOrKept(d0, d1, p) || (p in d1 && d1[p] <= s0[q])))
    && (r.Copied? ==> q in s0 && p in d1 && d1[p] <= s0[q])
    && s1 == (if SourceDeleted(r) then s0 - {q} else s0)
    && (SourceDeleted(r) ==> run.delete)
  }

  /**
   * The loop reached the first `|results|` names of `names`, and step `j`
   * took the stores from snapshot `j` to snapshot `j + 1`.
   */
  predicate Steps(run: Run, names: seq<string>, srcSnaps: seq<Store>, dstSnaps: seq<Store>, results: seq<FileResult>) {
    && |results| <= |names| && |srcSnaps| == |results| + 1 && |dstSnaps| == |results| + 1
    && forall j :: 0 <= j < |results| ==>
         CopyStep(run, names[j], srcSnaps[j], srcSnaps[j + 1], dstSnaps[j], dstSnaps[j + 1], results[j])
  }

  /**
   * Recording one more step: the run grows by one snapshot of each store, and
   * the source loses the step's path exactly when its result deletes it.
   */
  lemma StepRecorded(run: Run, names: seq<string>, srcSnaps: seq<Store>, dstSnaps: seq<Store>, results: seq<FileResult>,
                     S0: Store, s: Store, d: Store, r: FileResult)
    requires Steps(run, names, srcSnaps, dstSnaps, results) && |results| < |names|
    requires srcSnaps[|results|] == S0 - DeletedPaths(run.fromDir, names, results, SourceDeleted)
    requires CopyStep(run, names[|results|], srcSnaps[|results|], s, dstSnaps[|results|], d, r)
    ensures Steps(run, names, srcSnaps + [s], dstSnaps + [d], results + [r])
    ensures s == S0 - DeletedPaths(run.fromDir, names, results + [r], SourceDeleted)
  {
    var n := |results|;
    var ss, ds, rs := srcSnaps + [s], dstSnaps + [d], results + [r];
    forall j | 0 <= j < |rs|
      ensures CopyStep(run, names[j], ss[j], ss[j + 1], ds[j], ds[j + 1], rs[j])
    {
      if j < n {
        assert ss[j] == srcSnaps[j] && ss[j + 1] == srcSnaps[j + 1];
        assert ds[j] == dstSnaps[j] && ds[j + 1] == dstSnaps[j + 1] && rs[j] == results[j];
      }
    }
    assert rs[..n] == results && rs[n] == r;
    if SourceDeleted(r) {
      assert S0 - DeletedPaths(run.fromDir, names, rs, SourceDeleted) == (S0 - DeletedPaths(run.fromDir, names, results, SourceDeleted)) - {Resolve(run.fromDir, names[n])};
    }
  }

  /** Without `delete` no step removes a source file, so nothing is deleted. */
  lemma NothingDeletedWithoutDelete(run: Run, names: seq<string>, srcSnaps: seq<Store>, dstSnaps: seq<Store>, results: seq<FileResult>)
    requires Steps(run, names, srcSnaps, dstSnaps, results) && !run.delete
    ensures DeletedPaths(run.fromDir, names, results, SourceDeleted) == {}
  {
    forall j | 0 <= j < |results|
      ensures !SourceDeleted(results[j])
    {
      assert CopyStep(run, names[j], srcSnaps[j], srcSnaps[j + 1], dstSnaps[j], dstSnaps[j + 1], results[j]);
    }
    DeletedPathsNone(run.fromDir, names, results, SourceDeleted);
  }

  /** The source only loses files during the loop: what it holds at any snapshot it held, unchanged, at the start. */
  lemma SourceOnlyShrinks(run: Run, names: seq<string>, srcSnaps: seq<Store>, dstSnaps: seq<Store>,
                           results: seq<FileResult>, k: nat)
    requires Steps(run, names, srcSnaps, dstSnaps, results) && k <= |results|
    ensures forall x :: x in srcSnaps[k] ==> x in srcSnaps[0] && srcSnaps[k][x] == srcSnaps[0][x]
  {
    forall j | 0 <= j < k
      ensures KeptFrom(srcSnaps[j + 1], srcSnaps[j])
    {
      assert CopyStep(run, names[j], srcSnaps[j], srcSnaps[j + 1], dstSnaps[j], dstSnaps[j + 1], results[j]);
    }
    KeptFromStart(srcSnaps, k);
  }

  /**
   * Every copy the loop reports left at the target name, right after its
   * step, a prefix of what the source held under that name when the loop
   * began.
   */
  lemma CopiedFromStart(run: Run, names: seq<string>, srcSnaps: seq<Store>, dstSnaps: seq<Store>,
                        results: seq<FileResult>, j: nat)
    requires Steps(run, names, srcSnaps, dstSnaps, results) && j < |results| && results[j].Copied?
    ensures var q, p := Resolve(run.fromDir, names[j]), Resolve(run.toDir, names[j]);
      q in srcSnaps[0] && p in dstSnaps[j + 1] && dstSnaps[j + 1][p] <= srcSnaps[0][q]
  {
    assert CopyStep(run, names[j], srcSnaps[j], srcSnaps[j + 1], dstSnaps[j], dstSnaps[j + 1], results[j]);
    SourceOnlyShrinks(run, names, srcSnaps, dstSnaps, results, j);
  }

  /**
   * One iteration of the file loop: `MoveFile` for `names[i]`, recorded as one
   * more snapshot of each store.
   */
  method LoopBody(from: FtpSessions.FtpSession, to: FtpSessions.FtpSession, names: seq<string>, i: nat, delete: bool,
                  ghost run: Run, ghost srcSnaps: seq<Store>, ghost dstSnaps: seq<Store>, ghost results: seq<FileResult>, ghost S0: Store)
    returns (r: FileResult)
    requires from.live && to.live && from.server != to.server
    requires run == Run(from.cwd, to.cwd, delete)
    requires Steps(run, names, srcSnaps, dstSnaps, results) && |results| == i < |names|
    requires srcSnaps[i] == from.server.files && dstSnaps[i] == to.server.files
    requires from.server.files == S0 - DeletedPaths(run.fromDir, names, results, SourceDeleted)
    modifies from.server`clock, from.server`files, to.server`clock, to.server`files
    ensures Steps(run, names, srcSnaps + [from.server.files], dstSnaps + [to.server.files], results + [r])
    ensures from.server.files == S0 - DeletedPaths(run.fromDir, names, results + [r], SourceDeleted)
  {
    r := MoveFile(from, to, names[i], delete);
    StepRecorded(run, names, srcSnaps, dstSnaps, results, S0, from.server.files, to.server.files, r);
  }

  /**
   * The file loop: every listed name is attempted, in order, whatever happened
   * to the previous ones; the ghost snapshots record both stores before the
   * loop and after every step, and each step is a `CopyStep`.
   */
  method RunLoop(from: FtpSessions.FtpSession, to: FtpSessions.FtpSession, fileList: seq<string>, delete: bool)
    returns (results: seq<FileResult>, ghost srcSnaps: seq<Store>, ghost dstSnaps: seq<Store>)
    requires from.live && to.live && from.server != to.server
    modifies from.server`clock, from.server`files, to.server`clock, to.server`files
    ensures |results| == |fileList|
    ensures Steps(Run(from.cwd, to.cwd, delete), fileList, srcSnaps, dstSnaps, results)
    ensures srcSnaps[0] == old(from.server.files) && dstSnaps[0] == old(to.server.files)
    ensures srcSnaps[|results|] == from.server.files && dstSnaps[|results|] == to.server.files
    ensures from.server.files == old(from.server.files) - DeletedPaths(from.cwd, fileList, results, SourceDeleted)
    ensures !delete ==> DeletedPaths(from.cwd, fileList, results, SourceDeleted) == {}
  {
    ghost var S, D := from.server, to.server;
    ghost var S0 := S.files;
    ghost var run := Run(from.cwd, to.cwd, delete);
    results, srcSnaps, dstSnaps := [], [S.files], [D.files];
    for i := 0 to |fileList|
      invariant |results| == i
      invariant Steps(run, fileList, srcSnaps, dstSnaps, results)
      invariant srcSnaps[0] == S0 && dstSnaps[0] == old(D.files) && srcSnaps[i] == S.files && dstSnaps[i] == D.files
      invariant S.files == S0 - DeletedPaths(from.cwd, fileList, results, SourceDeleted)
    {
      var r := LoopBody(from, to, fileList, i, delete, run, srcSnaps, dstSnaps, results, S0);
      results, srcSnaps, dstSnaps := results + [r], srcSnaps + [S.files], dstSnaps + [D.files];
    }
    if !delete {
      NothingDeletedWithoutDelete(run, fileList, srcSnaps, dstSnaps, results);
    }
  }

  datatype SideFailure = ConnectFailed | CwdFailed

  /**
   * Connects to one side, logs in and changes to its directory. The login's
   * answer is not looked at: only a failed connect or directory change is a
   * failure.
   */
  method OpenSide(server: Server, login: string, password: string, path: string)
    returns (r: Result<FtpSessions.FtpSession, SideFailure>)
    modifies server`sessionsOpened, server`clock
    ensures server.files == old(server.files)
    ensures r.Ok? ==> fresh(r.value) && r.value.live && r.value.server == server && r.value.cwd == FtpSessions.CwdTarget("/", path)
  {
    var connected := FtpSessions.FtpSession.Connect(server, false, false);
    if connected.Err? {
      return Err(ConnectFailed);
    }
    var session := connected.value;
    var login := session.Login(login, password);
    var cwd := session.Cwd(path);
    if cwd.Err? {
      return Err(CwdFailed);
    }
    r := Ok(session);
  }

  /** Both sessions, and the names listed on the source. */
  datatype Sessions = Sessions(from: FtpSessions.FtpSession, to: FtpSessions.FtpSession, fileList: seq<string>)

  /**
   * The setup of an entry: open the source, then the target, then list the
   * source's directory. The first failure names the stage it happened at;
   * no file on either side changes.
   */
  method OpenBoth(config: LegacyConf.Config, S: Server, D: Server) returns (r: Result<Sessions, Stage>)
    modifies S`sessionsOpened, S`clock, D`sessionsOpened, D`clock
    ensures r.Err? ==> r.error != Listed
    ensures r.Ok? ==> var from, to := r.value.from, r.value.to;
      && fresh(from) && fresh(to) && from.live && to.live && from.server == S && to.server == D
      && from.cwd == FtpSessions.CwdTarget("/", config.pathFrom) && to.cwd == FtpSessions.CwdTarget("/", config.pathTo)
      && from.cwd in S.listings && r.value.fileList == FtpSessions.NameList(S.listings[from.cwd])
  {
    var side := OpenSide(S, config.loginFrom, config.passwordFrom, config.pathFrom);
    if side.Err? {
      return Err(if side.error == ConnectFailed then SourceConnectFailed else SourceCwdFailed);
    }
    var from := side.value;
    side := OpenSide(D, config.loginTo, config.passwordTo, config.pathTo);
    if side.Err? {
      return Err(if side.error == ConnectFailed then TargetConnectFailed else TargetCwdFailed);
    }
    var to := side.value;
    var listing := from.Nlst(None);
    if listing.Err? {
      return Err(ListFailed);
    }
    r := Ok(Sessions(from, to, listing.value));
  }

  /** The file loop an entry runs once both sides are open: each directory is where `cwd` leads from the root. */
  function EntryRun(config: LegacyConf.Config, delete: bool): Run {
    Run(FtpSessions.CwdTarget("/", config.pathFrom), FtpSessions.CwdTarget("/", config.pathTo), delete)
  }

  /**
   * `transfer_files` for one entry: connect, log in and change directory on
   * the source, then on the target, list the source and run the file loop. A
   * failed connect, directory change or listing ends the entry; a failed
   * login does not, because it is only logged. The servers stand for the
   * entry's hosts and ports; `results` is what was logged for each name, and
   * the ghost snapshots are both stores before the loop and after each step.
   */
  method TransferFiles(config: LegacyConf.Config, S: Server, D: Server, delete: bool)
    returns (ghost stage: Stage, ghost srcDir: string, ghost names: seq<string>, results: seq<FileResult>,
             ghost srcSnaps: seq<Store>, ghost dstSnaps: seq<Store>)
    requires S != D
    modifies S, D
    ensures stage != Listed ==> S.files == old(S.files) && D.files == old(D.files) && results == []
    ensures srcDir == FtpSessions.CwdTarget("/", config.pathFrom)
    ensures stage == Listed ==> srcDir in S.listings && names == FtpSessions.NameList(S.listings[srcDir])
    ensures |results| == |names|
    ensures Steps(EntryRun(config, delete), names, srcSnaps, dstSnaps, results)
    ensures srcSnaps[0] == old(S.files) && dstSnaps[0] == old(D.files)
    ensures srcSnaps[|results|] == S.files && dstSnaps[|results|] == D.files
    ensures S.files == old(S.files) - DeletedPaths(srcDir, names, results, SourceDeleted)
    ensures !delete ==> S.files == old(S.files)
  {
    srcDir := FtpSessions.CwdTarget("/", config.pathFrom);
    names, results, srcSnaps, dstSnaps := [], [], [S.files], [D.files];
    var setup := OpenBoth(config, S, D);
    if setup.Err? {
      return setup.error, srcDir, names, results, srcSnaps, dstSnaps;
    }
    var from, to, fileList := setup.value.from, setup.value.to, setup.value.fileList;
    stage, names := Listed, fileList;
    results, srcSnaps, dstSnaps := RunLoop(from, to, fileList, delete);
  }
}
