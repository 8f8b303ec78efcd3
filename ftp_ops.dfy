/**
 * The transfer pipeline for one configuration entry: connect, log in and
 * change directory on both sides, select binary mode, list the source, then
 * for each listed name check for shutdown, filter by pattern and age,
 * download, upload under a temporary name, verify the size, rename into
 * place (removing the old file and retrying once if needed), verify again,
 * and optionally delete the source.
 */
module FtpOps {
  import opened Wrappers
  import opened Remote
  import Text
  import Protocols
  import Shutdown

  /** The fields of a configuration entry that the pipeline reads; hosts and ports are the servers passed in. */
  datatype Config = Config(
    protoFrom: Protocols.Protocol, loginFrom: string, passwordFrom: string, pathFrom: string,
    protoTo: Protocols.Protocol, loginTo: string, passwordTo: string, pathTo: string,
    age: nat)

  /** How the loop body ended for one listed name. */
  datatype FileOutcome =
    | NoMatch            // the name does not match the pattern
    | MtimeUnavailable   // the modification time could not be fetched
    | PreEpoch           // the modification time is before 1970
    | FromFuture         // the modification time is after now
    | TooYoung           // younger than the configured age
    | DownloadFailed
    | UploadFailed       // the temporary file could not be written; it is removed
    | VerifyFailed       // the temporary file has the wrong size or none; it is removed
    | RenameFailed       // both renames failed; the temporary file is removed
    | FinalCheckFailed   // renamed, but the final name has the wrong size
    | Transferred(sourceDeleted: bool)
  {
    /** Outcomes that touch neither server's files. */
    predicate Skipped() {
      NoMatch? || MtimeUnavailable? || PreEpoch? || FromFuture? || TooYoung?
    }
  }

  /** `format!(".{}.{}.tmp", filename, pid)`. */
  function TmpName(name: string, pid: nat): string {
    "." + name + "." + Text.NatToString(pid) + ".tmp"
  }

  /** The temporary name is never the final name, and within one process different files get different ones. */
  lemma TmpNameDistinct(a: string, b: string, pid: nat)
    ensures TmpName(a, pid) != a
    ensures TmpName(a, pid) == TmpName(b, pid) ==> a == b
  {
    assert |TmpName(a, pid)| > |a|;
    if TmpName(a, pid) == TmpName(b, pid) {
      var tail := "." + Text.NatToString(pid) + ".tmp";
      assert TmpName(a, pid) == "." + a + tail;
      assert TmpName(b, pid) == "." + b + tail;
      assert |a| == |b|;
      assert a == TmpName(a, pid)[1..|a| + 1];
      assert b == TmpName(b, pid)[1..|b| + 1];
    }
  }

  /** The age rule: a timestamp at or after the epoch, not in the future, and at least `minAge` seconds old. */
  predicate Eligible(t: int, now: nat, minAge: nat) {
    0 <= t <= now && now - t >= minAge
  }

  /** Whether `size` on `dst` reports the stored length of `p` (an SFTP stat may carry no size, read as 0). */
  predicate TrueSize(proto: Protocols.Protocol, server: Server, p: string) {
    proto != Protocols.Protocol.Sftp || p !in server.sizeless
  }

  /** `p` is present in `after` only if it was in `before`, with the same content. */
  predicate KeptOrRemoved(before: map<string, seq<byte>>, after: map<string, seq<byte>>, p: string) {
    p in after ==> p in before && after[p] == before[p]
  }

  /** `p` is exactly as it was. */
  predicate SameAt(before: map<string, seq<byte>>, after: map<string, seq<byte>>, p: string) {
    (p in after <==> p in before) && (p in after ==> after[p] == before[p])
  }

  /** Two stores that agree away from `t` agree away from `t` and `p`, and agree at `p` itself when `p != t`. */
  lemma AgreeAway(before: map<string, seq<byte>>, after: map<string, seq<byte>>, t: string, p: string)
    requires after - {t} == before - {t}
    ensures after - {t, p} == before - {t, p}
    ensures p != t ==> SameAt(before, after, p)
  {
    assert after - {t, p} == (after - {t}) - {p};
    assert before - {t, p} == (before - {t}) - {p};
    if p != t {
      assert p in after <==> p in after - {t};
      assert p in before <==> p in before - {t};
      if p in after {
        assert after[p] == (after - {t})[p];
        assert before[p] == (before - {t})[p];
      }
    }
  }

  /**
   * What one transfer does to the destination store `before`, given the
   * temporary path `t`, the final path `p` and the outcome: nothing changes
   * away from `t` and `p`; `p` is untouched unless the rename step was
   * reached; a failed rename at most removes `p`; once renamed, `p` is
   * present and `t` gone.
   */
  ghost predicate DestinationEffect(before: map<string, seq<byte>>, after: map<string, seq<byte>>, t: string, p: string, outcome: FileOutcome) {
    && after - {t, p} == before - {t, p}
    && (outcome.DownloadFailed? || outcome.UploadFailed? || outcome.VerifyFailed? ==> SameAt(before, after, p))
    && (outcome.RenameFailed? ==> KeptOrRemoved(before, after, p))
    && (outcome.Transferred? || outcome.FinalCheckFailed? ==> p in after && t !in after)
  }

  /**
   * The filters before any transfer: the pattern, then the modification time
   * (which must be fetched, not before the epoch, not in the future) and the
   * age. `None` means the file is to be transferred.
   */
  method Screen(src: Protocols.Client, name: string, isMatch: string -> bool, minAge: nat, now: nat)
    returns (skip: Option<FileOutcome>)
    requires src.Live()
    modifies src.ServerOf()`clock
    ensures skip.Some? ==> skip.value.Skipped()
    ensures skip == Some(NoMatch) <==> !isMatch(name)
    ensures var q, S := src.PathOf(name), src.ServerOf();
      && (skip.None? ==> isMatch(name) && q in S.files && q in S.mtimes && Eligible(src.MtimeReply(S.mtimes[q]), now, minAge))
      && (skip == Some(PreEpoch) ==> q in S.mtimes && src.MtimeReply(S.mtimes[q]) < 0)
      && (skip == Some(FromFuture) ==> q in S.mtimes && src.MtimeReply(S.mtimes[q]) > now)
      && (skip == Some(TooYoung) ==> q in S.mtimes && 0 <= src.MtimeReply(S.mtimes[q]) <= now && now - src.MtimeReply(S.mtimes[q]) < minAge)
  {
    if !isMatch(name) {
      return Some(NoMatch);
    }
    var mtime := Protocols.Mdtm(src, name);
    if mtime.Err? {
      return Some(MtimeUnavailable);
    }
    var secs := mtime.value;
    if secs < 0 {
      return Some(PreEpoch);
    }
    if secs > now {
      return Some(FromFuture);
    }
    if now - secs < minAge {
      return Some(TooYoung);
    }
    return None;
  }

  /**
   * Uploads `data` under the temporary name and checks its size. On failure
   * the temporary file is removed (if that fails too it stays); on success it
   * holds a prefix of `data` whose reported size is the full length.
   */
  method Upload(dst: Protocols.Client, tmp: string, data: seq<byte>) returns (failure: Option<FileOutcome>)
    requires dst.Live()
    modifies dst.ServerOf()`clock, dst.ServerOf()`files
    ensures failure.Some? ==> failure.value.UploadFailed? || failure.value.VerifyFailed?
    ensures var t, D := dst.PathOf(tmp), dst.ServerOf();
      && D.files - {t} == old(D.files) - {t}
      && (failure.None? ==> t in D.files && D.files[t] <= data && dst.SizeReply(t) == Some(|data|))
  {
    var stored := Store(dst, tmp, data);
    if !stored {
      Discard(dst, tmp);
      return Some(UploadFailed);
    }
    var size := Protocols.Size(dst, tmp);
    if !(size.Ok? && size.value == |data|) {
      Discard(dst, tmp);
      return Some(VerifyFailed);
    }
    return None;
  }

  /** The upload itself: only the temporary path changes, and a reported upload leaves a prefix of the data there. */
  method Store(dst: Protocols.Client, tmp: string, data: seq<byte>) returns (stored: bool)
    requires dst.Live()
    modifies dst.ServerOf()`clock, dst.ServerOf()`files
    ensures var t, D := dst.PathOf(tmp), dst.ServerOf();
      && D.files - {t} == old(D.files) - {t}
      && (stored ==> t in D.files && D.files[t] <= data)
  {
    ghost var D := dst.ServerOf();
    var put := Protocols.PutFile(dst, tmp, data);
    StoredPrefix(D.fault(D.clock - 1), data);
    stored := put.Ok?;
  }

  /** The clean-up after a failed upload: removing the temporary file, whatever the answer, changes nothing else. */
  method Discard(dst: Protocols.Client, tmp: string)
    requires dst.Live()
    modifies dst.ServerOf()`clock, dst.ServerOf()`files
    ensures dst.ServerOf().files - {dst.PathOf(tmp)} == old(dst.ServerOf().files) - {dst.PathOf(tmp)}
  {
    var cleanup := Protocols.Rm(dst, tmp);
  }


  /**
   * Renames the temporary file to the final name; if that fails, removes the
   * final name (whatever the result) and tries once more. `ok` is whether one
   * of the two renames succeeded.
   */
  method RenameWithRetry(dst: Protocols.Client, tmp: string, name: string) returns (ok: bool)
    requires dst.Live()
    requires dst.PathOf(tmp) != dst.PathOf(name)
    modifies dst.ServerOf()`clock, dst.ServerOf()`files
    ensures var t, p, D := dst.PathOf(tmp), dst.PathOf(name), dst.ServerOf();
      && (ok ==> t in old(D.files) && D.files == (old(D.files) - {t})[p := old(D.files)[t]])
      && (!ok ==> D.files == old(D.files) || D.files == old(D.files) - {p})
  {
    ghost var D, t, p := dst.ServerOf(), dst.PathOf(tmp), dst.PathOf(name);
    var renamed := Protocols.Rename(dst, tmp, name);
    if renamed.Ok? {
      return true;
    }
    ghost var before := D.files;
    var removed := Protocols.Rm(dst, name);
    renamed := Protocols.Rename(dst, tmp, name);
    if renamed.Ok? {
      assert ((before - {p}) - {t})[p := before[t]] == (before - {t})[p := before[t]];
    }
    return renamed.Ok?;
  }

  /**
   * Moves a verified temporary file into place and checks the final size.
   * When both renames fail the temporary file is removed.
   */
  method Place(dst: Protocols.Client, tmp: string, name: string, fileSize: nat) returns (outcome: FileOutcome)
    requires dst.Live()
    requires dst.PathOf(tmp) != dst.PathOf(name)
    modifies dst.ServerOf()`clock, dst.ServerOf()`files
    ensures outcome.RenameFailed? || outcome.FinalCheckFailed? || outcome == Transferred(false)
    ensures var t, p, D := dst.PathOf(tmp), dst.PathOf(name), dst.ServerOf();
      && D.files - {t, p} == old(D.files) - {t, p}
      && (outcome.RenameFailed? ==> KeptOrRemoved(old(D.files), D.files, p))
      && (!outcome.RenameFailed? ==> t in old(D.files) && t !in D.files && p in D.files && D.files[p] == old(D.files)[t])
      && (outcome.Transferred? ==> dst.SizeReply(p) == Some(fileSize))
  {
    ghost var D, t, p := dst.ServerOf(), dst.PathOf(tmp), dst.PathOf(name);
    var ok := RenameWithRetry(dst, tmp, name);
    if !ok {
      var cleanup := Protocols.Rm(dst, tmp);
      return RenameFailed;
    }
    var size := Protocols.Size(dst, name);
    if !(size.Ok? && size.value == fileSize) {
      return FinalCheckFailed;
    }
    return Transferred(false);
  }

  /**
   * Everything on the destination side for one downloaded file: upload under
   * the temporary name, verify, rename into place, verify again.
   */
  method Deliver(dst: Protocols.Client, tmp: string, name: string, data: seq<byte>) returns (outcome: FileOutcome)
    requires dst.Live()
    requires dst.PathOf(tmp) != dst.PathOf(name)
    modifies dst.ServerOf()`clock, dst.ServerOf()`files
    ensures outcome.UploadFailed? || outcome.VerifyFailed? || outcome.RenameFailed? || outcome.FinalCheckFailed? || outcome == Transferred(false)
    ensures var t, p, D := dst.PathOf(tmp), dst.PathOf(name), dst.ServerOf();
      && D.files - {t, p} == old(D.files) - {t, p}
      && (outcome.UploadFailed? || outcome.VerifyFailed? ==> SameAt(old(D.files), D.files, p))
      && (outcome.RenameFailed? ==> KeptOrRemoved(old(D.files), D.files, p))
      && (outcome.Transferred? || outcome.FinalCheckFailed? ==> p in D.files && t !in D.files && D.files[p] <= data)
      && (outcome.Transferred? ==> dst.SizeReply(p) == Some(|data|))
  {
    ghost var D, t, p := dst.ServerOf(), dst.PathOf(tmp), dst.PathOf(name);
    ghost var before := D.files;
    var failure := Upload(dst, tmp, data);
    AgreeAway(before, D.files, t, p);
    if failure.Some? {
      return failure.value;
    }
    ghost var uploaded := D.files[t];
    ghost var middle := D.files;
    outcome := Place(dst, tmp, name, |data|);
    assert D.files - {t, p} == middle - {t, p};
  }

  /**
   * Download and delivery of one file that passed the filters; the source is
   * only read.
   */
  method Fetch(src: Protocols.Client, dst: Protocols.Client, name: string, pid: nat)
    returns (outcome: FileOutcome)
    requires src.Live() && dst.Live()
    requires src.ServerOf() != dst.ServerOf()
    modifies src.ServerOf()`clock, dst.ServerOf()`clock, dst.ServerOf()`files
    ensures outcome.DownloadFailed? || outcome.UploadFailed? || outcome.VerifyFailed? || outcome.RenameFailed? || outcome.FinalCheckFailed? || outcome == Transferred(false)
    ensures DestinationEffect(old(dst.ServerOf().files), dst.ServerOf().files, dst.PathOf(TmpName(name, pid)), dst.PathOf(name), outcome)
    ensures var q, p, S, D := src.PathOf(name), dst.PathOf(name), src.ServerOf(), dst.ServerOf();
      && (outcome.Transferred? ==> q in S.files && dst.SizeReply(p) == Some(|S.files[q]|))
      && (outcome.Transferred? && TrueSize(dst.ProtocolOf(), dst.ServerOf(), p) ==> D.files[p] == S.files[q])
  {
    ghost var D, p, t := dst.ServerOf(), dst.PathOf(name), dst.PathOf(TmpName(name, pid));
    TmpNameDistinct(name, name, pid);
    if t == p {
      ResolveInjective(dst.Dir(), TmpName(name, pid), name);
    }
    var tmp := TmpName(name, pid);
    var got := Protocols.Retr(src, name);
    if got.Err? {
      return DownloadFailed;
    }
    outcome := Deliver(dst, tmp, name, got.value);
    if outcome.Transferred? {
      assert D.files[p] <= got.value;
    }
  }

  /**
   * The transfer of a file that passed the filters: download, deliver under
   * the temporary name and into place, then delete the source if asked to
   * and the delivery was verified.
   */
  method TransferEligible(src: Protocols.Client, dst: Protocols.Client, name: string, pid: nat, delete: bool)
    returns (outcome: FileOutcome)
    requires src.Live() && dst.Live()
    requires src.ServerOf() != dst.ServerOf()
    modifies src.ServerOf()`clock, src.ServerOf()`files, dst.ServerOf()`clock, dst.ServerOf()`files
    ensures !outcome.Skipped()
    ensures DestinationEffect(old(dst.ServerOf().files), dst.ServerOf().files, dst.PathOf(TmpName(name, pid)), dst.PathOf(name), outcome)
    ensures var q, p, D := src.PathOf(name), dst.PathOf(name), dst.ServerOf();
      && (outcome.Transferred? ==> q in old(src.ServerOf().files) && dst.SizeReply(p) == Some(|old(src.ServerOf().files)[q]|))
      && (outcome.Transferred? && TrueSize(dst.ProtocolOf(), dst.ServerOf(), p) ==> D.files[p] == old(src.ServerOf().files)[q])
    ensures src.ServerOf().files == if outcome == Transferred(true) then old(src.ServerOf().files) - {src.PathOf(name)} else old(src.ServerOf().files)
    ensures outcome == Transferred(true) ==> delete
  {
    outcome := Fetch(src, dst, name, pid);
    if outcome.Transferred? && delete {
      var removed := Protocols.Rm(src, name);
      outcome := Transferred(removed.Ok?);
    }
  }

  /**
   * The loop body for one listed name, once the shutdown check has passed.
   * The source is read, and written only by the final delete; the destination
   * changes only at the temporary and the final name.
   */
  method TransferFile(src: Protocols.Client, dst: Protocols.Client, name: string,
                      isMatch: string -> bool, minAge: nat, now: nat, pid: nat, delete: bool)
    returns (outcome: FileOutcome)
    requires src.Live() && dst.Live()
    requires src.ServerOf() != dst.ServerOf()
    modifies src.ServerOf()`clock, src.ServerOf()`files, dst.ServerOf()`clock, dst.ServerOf()`files
    ensures outcome.NoMatch? <==> !isMatch(name)
    ensures outcome.Skipped() ==> src.ServerOf().files == old(src.ServerOf().files) && dst.ServerOf().files == old(dst.ServerOf().files)
    ensures var q, S := src.PathOf(name), src.ServerOf();
      && (!outcome.Skipped() ==> isMatch(name) && q in old(S.files) && q in S.mtimes && Eligible(src.MtimeReply(S.mtimes[q]), now, minAge))
      && (outcome.PreEpoch? ==> q in S.mtimes && src.MtimeReply(S.mtimes[q]) < 0)
      && (outcome.FromFuture? ==> q in S.mtimes && src.MtimeReply(S.mtimes[q]) > now)
      && (outcome.TooYoung? ==> q in S.mtimes && 0 <= src.MtimeReply(S.mtimes[q]) <= now && now - src.MtimeReply(S.mtimes[q]) < minAge)
    ensures DestinationEffect(old(dst.ServerOf().files), dst.ServerOf().files, dst.PathOf(TmpName(name, pid)), dst.PathOf(name), outcome)
    ensures var q, p, D := src.PathOf(name), dst.PathOf(name), dst.ServerOf();
      && (outcome.Transferred? ==> q in old(src.ServerOf().files) && dst.SizeReply(p) == Some(|old(src.ServerOf().files)[q]|))
      && (outcome.Transferred? && TrueSize(dst.ProtocolOf(), dst.ServerOf(), p) ==> D.files[p] == old(src.ServerOf().files)[q])
    ensures src.ServerOf().files == if outcome == Transferred(true) then old(src.ServerOf().files) - {src.PathOf(name)} else old(src.ServerOf().files)
    ensures outcome == Transferred(true) ==> delete
  {
    var skip := Screen(src, name, isMatch, minAge, now);
    if skip.Some? {
      return skip.value;
    }
    outcome := TransferEligible(src, dst, name, pid, delete);
  }

  /** How far an entry got before its file loop. */
  datatype Stage =
    | ShutdownAtStart
    | SourceConnectFailed | SourceLoginFailed | SourceCwdFailed
    | TargetConnectFailed | TargetLoginFailed | TargetCwdFailed
    | SourceBinaryFailed | TargetBinaryFailed
    | ListFailed
    | Listed

  /** The number of outcomes that count as successful transfers. */
  function CountTransferred(outcomes: seq<FileOutcome>): (n: nat)
    ensures n <= |outcomes|
  {
    if outcomes == [] then 0
    else CountTransferred(outcomes[..|outcomes| - 1]) + (if outcomes[|outcomes| - 1].Transferred? then 1 else 0)
  }

  /** Ends both sessions, ignoring what the servers answer. */
  method QuitBoth(src: Protocols.Client, dst: Protocols.Client)
    requires src.Live() && dst.Live()
    requires src.ServerOf() != dst.ServerOf() && src.Obj() != dst.Obj()
    modifies src.Obj(), src.ServerOf()`clock, src.ServerOf()`sessionsClosed
    modifies dst.Obj(), dst.ServerOf()`clock, dst.ServerOf()`sessionsClosed
    ensures src.ServerOf().sessionsClosed == old(src.ServerOf().sessionsClosed) + 1
    ensures dst.ServerOf().sessionsClosed == old(dst.ServerOf().sessionsClosed) + 1
  {
    var r1 := Protocols.Quit(dst);
    var r2 := Protocols.Quit(src);
  }

  datatype SideFailure = ConnectFailed | LoginFailed | CwdFailed

  /**
   * Connects to one side, logs in and changes to its directory. After a
   * failure no session of this side is left open, and a failed connect opens
   * none at all.
   */
  method OpenSide(proto: Protocols.Protocol, server: Server, login: string, password: string, path: string, insecureSkipVerify: bool)
    returns (r: Result<Protocols.Client, SideFailure>)
    modifies server`sessionsOpened, server`sessionsClosed, server`clock
    ensures server.files == old(server.files)
    ensures r.Err? ==> server.sessionsOpened - server.sessionsClosed == old(server.sessionsOpened - server.sessionsClosed)
    ensures r.Err? && r.error == ConnectFailed ==> server.sessionsOpened == old(server.sessionsOpened)
    ensures r.Ok? ==> r.value.Live() && r.value.ServerOf() == server && fresh(r.value.Obj()) && r.value.ProtocolOf() == proto
    ensures r.Ok? ==> r.value.Dir() == Protocols.CwdResultOver(proto, "/", path)
    ensures r.Ok? ==> server.sessionsOpened == old(server.sessionsOpened) + 1 && server.sessionsClosed == old(server.sessionsClosed)
  {
    var connected := Protocols.Connect(proto, server, insecureSkipVerify, Some(password), None, None);
    if connected.Err? {
      return Err(ConnectFailed);
    }
    var c := connected.value;
    var ok := Protocols.Login(c, login, password);
    if ok.Err? {
      var q := Protocols.Quit(c);
      return Err(LoginFailed);
    }
    ok := Protocols.Cwd(c, path);
    if ok.Err? {
      var q := Protocols.Quit(c);
      return Err(CwdFailed);
    }
    r := Ok(c);
  }

  /** Whether an outcome removes the file from the source. */
  predicate SourceDeleted(outcome: FileOutcome) {
    outcome == Transferred(true)
  }

  /** One side of the file loop: the protocol, the server, and the directory the listed names live in. */
  datatype Side = Side(proto: Protocols.Protocol, server: Server, dir: string)

  /** The fixed parameters of one entry's file loop. */
  datatype Run = Run(from: Side, to: Side, isMatch: string -> bool, minAge: nat, now: nat, pid: nat, delete: bool)

  function SideOf(c: Protocols.Client): Side
    reads c.Obj()
  {
    Side(c.ProtocolOf(), c.ServerOf(), c.Dir())
  }

  /**
   * What the loop body did for the listed `name`, with the source store going
   * from `s0` to `s1` and the destination store from `d0` to `d1`: the
   * per-file facts of `TransferFile`, stated on the stores themselves.
   */
  ghost predicate FileStep(run: Run, name: string, s0: Store, s1: Store, d0: Store, d1: Store, outcome: FileOutcome) {
    var q, p, t := Resolve(run.from.dir, name), Resolve(run.to.dir, name), Resolve(run.to.dir, TmpName(name, run.pid));
    var mtimes := run.from.server.mtimes;
    && (outcome.NoMatch? <==> !run.isMatch(name))
    && (outcome.Skipped() ==> s1 == s0 && d1 == d0)
    && (!outcome.Skipped() ==> q in s0 && q in mtimes && Eligible(Protocols.MtimeReplyOver(run.from.proto, mtimes[q]), run.now, run.minAge))
    && (outcome.PreEpoch? ==> q in mtimes && Protocols.MtimeReplyOver(run.from.proto, mtimes[q]) < 0)
    && (outcome.FromFuture? ==> q in mtimes && Protocols.MtimeReplyOver(run.from.proto, mtimes[q]) > run.now)
    && (outcome.TooYoung? ==> q in mtimes && 0 <= run.now - Protocols.MtimeReplyOver(run.from.proto, mtimes[q]) < run.minAge)
    && DestinationEffect(d0, d1, t, p, outcome)
    && (outcome.Transferred? ==> q in s0 && Protocols.SizeReplyOver(run.to.proto, run.to.server, d1, p) == Some(|s0[q]|))
    && (outcome.Transferred? && TrueSize(run.to.proto, run.to.server, p) ==> d1[p] == s0[q])
    && s1 == (if SourceDeleted(outcome) then s0 - {q} else s0)
    && (SourceDeleted(outcome) ==> run.delete)
  }

  /**
   * The loop reached the first `|outcomes|` names of `names`, and step `j`
   * took the stores from snapshot `j` to snapshot `j + 1`.
   */
  ghost predicate Steps(run: Run, names: seq<string>, srcSnaps: seq<Store>, dstSnaps: seq<Store>, outcomes: seq<FileOutcome>) {
    && |outcomes| <= |names| && |srcSnaps| == |outcomes| + 1 && |dstSnaps| == |outcomes| + 1
    && forall j :: 0 <= j < |outcomes| ==>
         FileStep(run, names[j], srcSnaps[j], srcSnaps[j + 1], dstSnaps[j], dstSnaps[j + 1], outcomes[j])
  }

  /** One more step extends the run by one snapshot on each side. */
  lemma StepsSnoc(run: Run, names: seq<string>, srcSnaps: seq<Store>, dstSnaps: seq<Store>, outcomes: seq<FileOutcome>,
                  s: Store, d: Store, outcome: FileOutcome)
    requires Steps(run, names, srcSnaps, dstSnaps, outcomes) && |outcomes| < |names|
    requires FileStep(run, names[|outcomes|], srcSnaps[|outcomes|], s, dstSnaps[|outcomes|], d, outcome)
    ensures Steps(run, names, srcSnaps + [s], dstSnaps + [d], outcomes + [outcome])
  {
    var ss, ds, os := srcSnaps + [s], dstSnaps + [d], outcomes + [outcome];
    forall j | 0 <= j < |os|
      ensures FileStep(run, names[j], ss[j], ss[j + 1], ds[j], ds[j + 1], os[j])
    {
      if j < |outcomes| {
        assert ss[j] == srcSnaps[j] && ss[j + 1] == srcSnaps[j + 1];
        assert ds[j] == dstSnaps[j] && ds[j + 1] == dstSnaps[j + 1] && os[j] == outcomes[j];
      }
    }
  }

  /**
   * Recording one more step: the run grows by one snapshot of each store, and
   * the source loses the step's path exactly when its outcome deletes it.
   */
  lemma StepRecorded(run: Run, names: seq<string>, srcSnaps: seq<Store>, dstSnaps: seq<Store>, outcomes: seq<FileOutcome>,
                     S0: Store, s: Store, d: Store, outcome: FileOutcome)
    requires Steps(run, names, srcSnaps, dstSnaps, outcomes) && |outcomes| < |names|
    requires srcSnaps[|outcomes|] == S0 - DeletedPaths(run.from.dir, names, outcomes, SourceDeleted)
    requires FileStep(run, names[|outcomes|], srcSnaps[|outcomes|], s, dstSnaps[|outcomes|], d, outcome)
    ensures Steps(run, names, srcSnaps + [s], dstSnaps + [d], outcomes + [outcome])
    ensures s == S0 - DeletedPaths(run.from.dir, names, outcomes + [outcome], SourceDeleted)
  {
    StepsSnoc(run, names, srcSnaps, dstSnaps, outcomes, s, d, outcome);
    var n, next := |outcomes|, outcomes + [outcome];
    assert next[..n] == outcomes && next[n] == outcome;
    if SourceDeleted(outcome) {
      assert S0 - DeletedPaths(run.from.dir, names, next, SourceDeleted) == (S0 - DeletedPaths(run.from.dir, names, outcomes, SourceDeleted)) - {Resolve(run.from.dir, names[n])};
    }
  }

  /** Without `delete` no step removes a source file, so nothing is deleted. */
  lemma NothingDeletedWithoutDelete(run: Run, names: seq<string>, srcSnaps: seq<Store>, dstSnaps: seq<Store>, outcomes: seq<FileOutcome>)
    requires Steps(run, names, srcSnaps, dstSnaps, outcomes) && !run.delete
    ensures DeletedPaths(run.from.dir, names, outcomes, SourceDeleted) == {}
  {
    forall j | 0 <= j < |outcomes|
      ensures !SourceDeleted(outcomes[j])
    {
      assert FileStep(run, names[j], srcSnaps[j], srcSnaps[j + 1], dstSnaps[j], dstSnaps[j + 1], outcomes[j]);
    }
    DeletedPathsNone(run.from.dir, names, outcomes, SourceDeleted);
  }

  /** The source only loses files during the loop: what it holds at any snapshot it held, unchanged, at the start. */
  lemma SourceOnlyShrinks(run: Run, names: seq<string>, srcSnaps: seq<Store>, dstSnaps: seq<Store>,
                           outcomes: seq<FileOutcome>, k: nat)
    requires Steps(run, names, srcSnaps, dstSnaps, outcomes) && k <= |outcomes|
    ensures forall x :: x in srcSnaps[k] ==> x in srcSnaps[0] && srcSnaps[k][x] == srcSnaps[0][x]
  {
    forall j | 0 <= j < k
      ensures KeptFrom(srcSnaps[j + 1], srcSnaps[j])
    {
      assert FileStep(run, names[j], srcSnaps[j], srcSnaps[j + 1], dstSnaps[j], dstSnaps[j + 1], outcomes[j]);
    }
    KeptFromStart(srcSnaps, k);
  }

  /**
   * Every transfer the loop counts was of a listed file that the pattern and
   * the age rule accepted, and copied the content the source held when the
   * loop began: right after its step the destination's `size` reported that
   * length at the final name, and where `size` reports the stored length the
   * destination held that content itself.
   */
  lemma TransferredFromStart(run: Run, names: seq<string>, srcSnaps: seq<Store>, dstSnaps: seq<Store>,
                             outcomes: seq<FileOutcome>, j: nat)
    requires Steps(run, names, srcSnaps, dstSnaps, outcomes) && j < |outcomes| && outcomes[j].Transferred?
    ensures var q, p := Resolve(run.from.dir, names[j]), Resolve(run.to.dir, names[j]);
      && run.isMatch(names[j]) && q in srcSnaps[0] && q in run.from.server.mtimes
      && Eligible(Protocols.MtimeReplyOver(run.from.proto, run.from.server.mtimes[q]), run.now, run.minAge)
      && p in dstSnaps[j + 1]
      && Protocols.SizeReplyOver(run.to.proto, run.to.server, dstSnaps[j + 1], p) == Some(|srcSnaps[0][q]|)
      && (TrueSize(run.to.proto, run.to.server, p) ==> dstSnaps[j + 1][p] == srcSnaps[0][q])
  {
    assert FileStep(run, names[j], srcSnaps[j], srcSnaps[j + 1], dstSnaps[j], dstSnaps[j + 1], outcomes[j]);
    SourceOnlyShrinks(run, names, srcSnaps, dstSnaps, outcomes, j);
  }

  /** One pass of the loop body, its effect stated on the stores before and after it. */
  method Step(src: Protocols.Client, dst: Protocols.Client, name: string,
              isMatch: string -> bool, minAge: nat, now: nat, pid: nat, delete: bool)
    returns (outcome: FileOutcome)
    requires src.Live() && dst.Live()
    requires src.ServerOf() != dst.ServerOf()
    modifies src.ServerOf()`clock, src.ServerOf()`files, dst.ServerOf()`clock, dst.ServerOf()`files
    ensures FileStep(Run(SideOf(src), SideOf(dst), isMatch, minAge, now, pid, delete), name,
                     old(src.ServerOf().files), src.ServerOf().files, old(dst.ServerOf().files), dst.ServerOf().files, outcome)
  {
    outcome := TransferFile(src, dst, name, isMatch, minAge, now, pid, delete);
  }

  /**
   * What the file loop has recorded after its first `|outcomes|` names: the
   * snapshots run from `S0` and `D0` to what the stores hold now, each step
   * is a `FileStep`, `count` is the number of transferred outcomes, and the
   * source has lost exactly the deleted paths.
   */
  ghost predicate Recorded(run: Run, S: Server, D: Server, names: seq<string>, S0: Store, D0: Store,
                           count: int, outcomes: seq<FileOutcome>, srcSnaps: seq<Store>, dstSnaps: seq<Store>)
    reads S, D
  {
    && Steps(run, names, srcSnaps, dstSnaps, outcomes)
    && srcSnaps[0] == S0 && dstSnaps[0] == D0
    && srcSnaps[|outcomes|] == S.files && dstSnaps[|outcomes|] == D.files
    && count == CountTransferred(outcomes)
    && S.files == S0 - DeletedPaths(run.from.dir, names, outcomes, SourceDeleted)
  }

  /**
   * One iteration of the file loop past the shutdown check: the step for the
   * next name, recorded as one more snapshot of each store and counted when
   * it transferred.
   */
  method LoopBody(src: Protocols.Client, dst: Protocols.Client, names: seq<string>, i: nat,
                  isMatch: string -> bool, minAge: nat, now: nat, pid: nat, delete: bool,
                  ghost run: Run, ghost S0: Store, ghost D0: Store, count: int,
                  ghost outcomes: seq<FileOutcome>, ghost srcSnaps: seq<Store>, ghost dstSnaps: seq<Store>)
    returns (count': int, ghost outcomes': seq<FileOutcome>, ghost srcSnaps': seq<Store>, ghost dstSnaps': seq<Store>)
    requires src.Live() && dst.Live()
    requires src.ServerOf() != dst.ServerOf()
    requires run == Run(SideOf(src), SideOf(dst), isMatch, minAge, now, pid, delete)
    requires Recorded(run, src.ServerOf(), dst.ServerOf(), names, S0, D0, count, outcomes, srcSnaps, dstSnaps)
    requires |outcomes| == i < |names|
    modifies src.ServerOf()`clock, src.ServerOf()`files, dst.ServerOf()`clock, dst.ServerOf()`files
    ensures src.Live() && dst.Live() && run == Run(SideOf(src), SideOf(dst), isMatch, minAge, now, pid, delete)
    ensures Recorded(run, src.ServerOf(), dst.ServerOf(), names, S0, D0, count', outcomes', srcSnaps', dstSnaps')
    ensures |outcomes'| == |outcomes| + 1
  {
    var outcome := Step(src, dst, names[i], isMatch, minAge, now, pid, delete);
    StepRecorded(run, names, srcSnaps, dstSnaps, outcomes, S0, src.ServerOf().files, dst.ServerOf().files, outcome);
    outcomes', srcSnaps', dstSnaps' := outcomes + [outcome], srcSnaps + [src.ServerOf().files], dstSnaps + [dst.ServerOf().files];
    count' := if outcome.Transferred? then count + 1 else count;
  }

  /**
   * One pass of the file loop: the shutdown check, then, when it sees no
   * request, the step for `names[i]`.
   */
  method Iterate(src: Protocols.Client, dst: Protocols.Client, names: seq<string>, i: nat, shutdown: Shutdown.ShutdownState,
                 isMatch: string -> bool, minAge: nat, now: nat, pid: nat, delete: bool,
                 ghost run: Run, ghost S0: Store, ghost D0: Store, ghost raised0: bool, ghost checks0: nat, count: int,
                 ghost outcomes: seq<FileOutcome>, ghost srcSnaps: seq<Store>, ghost dstSnaps: seq<Store>)
    returns (stop: bool, count': int, ghost outcomes': seq<FileOutcome>, ghost srcSnaps': seq<Store>, ghost dstSnaps': seq<Store>)
    requires src.Live() && dst.Live()
    requires src.ServerOf() != dst.ServerOf() && src.Obj() != shutdown && dst.Obj() != shutdown
    requires run == Run(SideOf(src), SideOf(dst), isMatch, minAge, now, pid, delete)
    requires Recorded(run, src.ServerOf(), dst.ServerOf(), names, S0, D0, count, outcomes, srcSnaps, dstSnaps)
    requires |outcomes| == i < |names| && shutdown.Passed(raised0, checks0, |names|, i)
    modifies src.ServerOf()`clock, src.ServerOf()`files, dst.ServerOf()`clock, dst.ServerOf()`files
    modifies shutdown`requested, shutdown`signalType, shutdown`checks
    ensures src.Live() && dst.Live() && run == Run(SideOf(src), SideOf(dst), isMatch, minAge, now, pid, delete)
    ensures Recorded(run, src.ServerOf(), dst.ServerOf(), names, S0, D0, count', outcomes', srcSnaps', dstSnaps')
    ensures stop ==> shutdown.Stopped(raised0, checks0, |names|, i) && outcomes' == outcomes
    ensures !stop ==> shutdown.Passed(raised0, checks0, |names|, i + 1) && |outcomes'| == i + 1
  {
    stop := shutdown.CheckBeforeItem(raised0, checks0, |names|, i);
    if stop {
      return stop, count, outcomes, srcSnaps, dstSnaps;
    }
    count', outcomes', srcSnaps', dstSnaps' := LoopBody(src, dst, names, i, isMatch, minAge, now, pid, delete, run, S0, D0, count, outcomes, srcSnaps, dstSnaps);
  }

  /**
   * The file loop: before each name the shutdown flag is checked and a raised
   * flag ends the loop; otherwise the name is transferred. The loop goes on
   * to exactly the names `Quiet` counts: all of them, or those before the
   * first check that sees a request. The ghost snapshots record both stores
   * before the loop and after every step, and each step is a `FileStep`; the
   * result counts the transferred outcomes, and the source loses exactly the
   * paths of the names transferred with a successful delete.
   */
  method RunLoop(src: Protocols.Client, dst: Protocols.Client, fileList: seq<string>, shutdown: Shutdown.ShutdownState,
                 isMatch: string -> bool, minAge: nat, now: nat, pid: nat, delete: bool, ghost run: Run)
    returns (count: int, ghost outcomes: seq<FileOutcome>, ghost srcSnaps: seq<Store>, ghost dstSnaps: seq<Store>)
    requires src.Live() && dst.Live()
    requires src.ServerOf() != dst.ServerOf()
    requires run == Run(SideOf(src), SideOf(dst), isMatch, minAge, now, pid, delete)
    modifies src.ServerOf()`clock, src.ServerOf()`files, dst.ServerOf()`clock, dst.ServerOf()`files, shutdown
    ensures Steps(run, fileList, srcSnaps, dstSnaps, outcomes)
    ensures srcSnaps[0] == old(src.ServerOf().files) && dstSnaps[0] == old(dst.ServerOf().files)
    ensures srcSnaps[|outcomes|] == src.ServerOf().files && dstSnaps[|outcomes|] == dst.ServerOf().files
    ensures count == CountTransferred(outcomes)
    ensures shutdown.Ended(old(shutdown.requested), old(shutdown.checks), |fileList|, |outcomes|)
    ensures src.ServerOf().files == old(src.ServerOf().files) - DeletedPaths(run.from.dir, fileList, outcomes, SourceDeleted)
    ensures !delete ==> DeletedPaths(run.from.dir, fileList, outcomes, SourceDeleted) == {}
  {
    ghost var S, D := src.ServerOf(), dst.ServerOf();
    ghost var S0, D0 := S.files, D.files;
    ghost var raised0, checks0 := shutdown.requested, shutdown.checks;
    count, outcomes, srcSnaps, dstSnaps := 0, [], [S.files], [D.files];
    assert src.Obj() != shutdown && dst.Obj() != shutdown;
    var i, stop := 0, false;
    while i < |fileList| && !stop
      invariant i <= |fileList| && |outcomes| == i
      invariant src.Obj() != shutdown && dst.Obj() != shutdown
      invariant src.Live() && dst.Live() && run == Run(SideOf(src), SideOf(dst), isMatch, minAge, now, pid, delete)
      invariant Recorded(run, S, D, fileList, S0, D0, count, outcomes, srcSnaps, dstSnaps)
      invariant !stop ==> shutdown.Passed(raised0, checks0, |fileList|, i)
      invariant stop ==> shutdown.Stopped(raised0, checks0, |fileList|, i)
      decreases |fileList| - i, !stop
    {
      stop, count, outcomes, srcSnaps, dstSnaps := Iterate(src, dst, fileList, i, shutdown, isMatch, minAge, now, pid, delete,
                                                           run, S0, D0, raised0, checks0, count, outcomes, srcSnaps, dstSnaps);
      if !stop {
        i := i + 1;
      }
    }
    assert raised0 == old(shutdown.requested) && checks0 == old(shutdown.checks) && i == |outcomes|;
    shutdown.Finished(raised0, checks0, |fileList|, i, stop);
    if !delete {
      NothingDeletedWithoutDelete(run, fileList, srcSnaps, dstSnaps, outcomes);
    }
  }

  /**
   * Binary mode on the source, then on the target, then the listing of the
   * source directory; the first failure names the stage.
   */
  method Prepare(src: Protocols.Client, dst: Protocols.Client) returns (r: Result<seq<string>, Stage>)
    requires src.Live() && dst.Live()
    requires src.ServerOf() != dst.ServerOf() && src.Obj() != dst.Obj()
    modifies src.Obj(), src.ServerOf()`clock, dst.Obj(), dst.ServerOf()`clock
    ensures src.Live() && dst.Live() && src.Dir() == old(src.Dir()) && dst.Dir() == old(dst.Dir())
    ensures r.Err? ==> r.error == SourceBinaryFailed || r.error == TargetBinaryFailed || r.error == ListFailed
    ensures r.Ok? ==> src.Dir() in src.ServerOf().listings && r.value == src.ListingNames(src.ServerOf().listings[src.Dir()])
  {
    var ok := Protocols.TransferType(src, Protocols.Binary);
    if ok.Err? {
      return Err(SourceBinaryFailed);
    }
    ok := Protocols.TransferType(dst, Protocols.Binary);
    if ok.Err? {
      return Err(TargetBinaryFailed);
    }
    var listing := Protocols.Nlst(src);
    if listing.Err? {
      return Err(ListFailed);
    }
    return Ok(listing.value);
  }

  /**
   * With both sides open: binary mode on both, the source listing, the file
   * loop, and then both sessions are ended, on every path. The loop runs over
   * the names of the source directory's listing.
   */
  method RunOpen(src: Protocols.Client, dst: Protocols.Client, shutdown: Shutdown.ShutdownState,
                 isMatch: string -> bool, minAge: nat, now: nat, pid: nat, delete: bool, ghost srcDir: string, ghost dstDir: string)
    returns (count: int, ghost stage: Stage, ghost names: seq<string>, ghost outcomes: seq<FileOutcome>,
             ghost srcSnaps: seq<Store>, ghost dstSnaps: seq<Store>)
    requires src.Live() && dst.Live() && src.Dir() == srcDir && dst.Dir() == dstDir
    requires src.ServerOf() != dst.ServerOf() && src.Obj() != dst.Obj()
    modifies src.Obj(), src.ServerOf()`clock, src.ServerOf()`files, src.ServerOf()`sessionsClosed
    modifies dst.Obj(), dst.ServerOf()`clock, dst.ServerOf()`files, dst.ServerOf()`sessionsClosed, shutdown
    ensures src.ServerOf().sessionsClosed == old(src.ServerOf().sessionsClosed) + 1
    ensures dst.ServerOf().sessionsClosed == old(dst.ServerOf().sessionsClosed) + 1
    ensures stage == Listed || stage == SourceBinaryFailed || stage == TargetBinaryFailed || stage == ListFailed
    ensures stage != Listed ==> count == 0 && outcomes == [] && src.ServerOf().files == old(src.ServerOf().files) && dst.ServerOf().files == old(dst.ServerOf().files)
    ensures stage == Listed ==> srcDir in src.ServerOf().listings && names == Protocols.ListingNamesOver(src.ProtocolOf(), src.ServerOf().listings[srcDir])
    ensures Steps(Run(Side(src.ProtocolOf(), src.ServerOf(), srcDir), Side(dst.ProtocolOf(), dst.ServerOf(), dstDir), isMatch, minAge, now, pid, delete),
                  names, srcSnaps, dstSnaps, outcomes)
    ensures srcSnaps[0] == old(src.ServerOf().files) && dstSnaps[0] == old(dst.ServerOf().files)
    ensures srcSnaps[|outcomes|] == src.ServerOf().files && dstSnaps[|outcomes|] == dst.ServerOf().files
    ensures count == CountTransferred(outcomes)
    ensures stage == Listed ==> shutdown.Ended(old(shutdown.requested), old(shutdown.checks), |names|, |outcomes|)
    ensures stage != Listed ==> unchanged(shutdown)
    ensures src.ServerOf().files == old(src.ServerOf().files) - DeletedPaths(srcDir, names, outcomes, SourceDeleted)
    ensures !delete ==> DeletedPaths(srcDir, names, outcomes, SourceDeleted) == {}
  {
    names, outcomes := [], [];
    srcSnaps, dstSnaps := [src.ServerOf().files], [dst.ServerOf().files];
    var listing := Prepare(src, dst);
    if listing.Err? {
      QuitBoth(src, dst);
      return 0, listing.error, names, outcomes, srcSnaps, dstSnaps;
    }
    var fileList := listing.value;
    stage, names := Listed, fileList;
    ghost var run := Run(Side(src.ProtocolOf(), src.ServerOf(), srcDir), Side(dst.ProtocolOf(), dst.ServerOf(), dstDir), isMatch, minAge, now, pid, delete);
    count, outcomes, srcSnaps, dstSnaps := RunLoop(src, dst, fileList, shutdown, isMatch, minAge, now, pid, delete, run);
    QuitBoth(src, dst);
  }

  /** The side an entry opens on `server`: its directory is where `cwd(path)` leads from the root. */
  function EntrySide(proto: Protocols.Protocol, server: Server, path: string): Side {
    Side(proto, server, Protocols.CwdResultOver(proto, "/", path))
  }

  /** The file loop an entry runs once both sides are open. */
  function EntryRun(config: Config, S: Server, D: Server, isMatch: string -> bool, now: nat, pid: nat, delete: bool): Run {
    Run(EntrySide(config.protoFrom, S, config.pathFrom), EntrySide(config.protoTo, D, config.pathTo), isMatch, config.age, now, pid, delete)
  }

  /**
   * Opens the source side, then the target side. A failed target ends the
   * source session again; a failure names its side and stage.
   */
  method OpenBoth(config: Config, S: Server, D: Server, insecureSkipVerify: bool)
    returns (r: Result<(Protocols.Client, Protocols.Client), Stage>)
    requires S != D
    modifies S`sessionsOpened, S`sessionsClosed, S`clock, D`sessionsOpened, D`sessionsClosed, D`clock
    ensures S.files == old(S.files) && D.files == old(D.files)
    ensures r.Err? ==> r.error != ShutdownAtStart && r.error != Listed
    ensures r.Err? ==> S.sessionsOpened - S.sessionsClosed == old(S.sessionsOpened - S.sessionsClosed)
    ensures r.Err? ==> D.sessionsOpened - D.sessionsClosed == old(D.sessionsOpened - D.sessionsClosed)
    ensures r.Err? && r.error == SourceConnectFailed ==> S.sessionsOpened == old(S.sessionsOpened) && D.sessionsOpened == old(D.sessionsOpened)
    ensures r.Ok? ==> var src, dst := r.value.0, r.value.1;
      && src.Live() && dst.Live() && fresh(src.Obj()) && fresh(dst.Obj()) && src.Obj() != dst.Obj()
      && src.ServerOf() == S && dst.ServerOf() == D
      && src.ProtocolOf() == config.protoFrom && dst.ProtocolOf() == config.protoTo
      && src.Dir() == Protocols.CwdResultOver(config.protoFrom, "/", config.pathFrom)
      && dst.Dir() == Protocols.CwdResultOver(config.protoTo, "/", config.pathTo)
      && S.sessionsOpened == old(S.sessionsOpened) + 1 && S.sessionsClosed == old(S.sessionsClosed)
      && D.sessionsOpened == old(D.sessionsOpened) + 1 && D.sessionsClosed == old(D.sessionsClosed)
  {
    var from := OpenSide(config.protoFrom, S, config.loginFrom, config.passwordFrom, config.pathFrom, insecureSkipVerify);
    if from.Err? {
      return Err(match from.error case ConnectFailed => SourceConnectFailed case LoginFailed => SourceLoginFailed case CwdFailed => SourceCwdFailed);
    }
    var src := from.value;
    var to := OpenSide(config.protoTo, D, config.loginTo, config.passwordTo, config.pathTo, insecureSkipVerify);
    if to.Err? {
      var q := Protocols.Quit(src);
      return Err(match to.error case ConnectFailed => TargetConnectFailed case LoginFailed => TargetLoginFailed case CwdFailed => TargetCwdFailed);
    }
    r := Ok((src, to.value));
  }

  /**
   * `transfer_files` for one configuration entry. Returns the number of files
   * transferred and verified; the ghost results say how far the setup got,
   * which directory the source names live in, which names were listed, how
   * each name that the loop reached ended, and what both stores held before
   * the loop and after each step.
   */
  method TransferFiles(config: Config, S: Server, D: Server, shutdown: Shutdown.ShutdownState,
                       delete: bool, insecureSkipVerify: bool, isMatch: string -> bool, now: nat, pid: nat)
    returns (count: int, ghost stage: Stage, ghost srcDir: string, ghost names: seq<string>, ghost outcomes: seq<FileOutcome>,
             ghost srcSnaps: seq<Store>, ghost dstSnaps: seq<Store>)
    requires S != D
    modifies S, D, shutdown
    ensures stage == ShutdownAtStart <==> old(shutdown.Pending())
    ensures stage == ShutdownAtStart ==> S.sessionsOpened == old(S.sessionsOpened) && D.sessionsOpened == old(D.sessionsOpened)
    ensures stage == SourceConnectFailed ==> S.sessionsOpened == old(S.sessionsOpened) && D.sessionsOpened == old(D.sessionsOpened)
    ensures S.sessionsOpened - S.sessionsClosed == old(S.sessionsOpened - S.sessionsClosed)
    ensures D.sessionsOpened - D.sessionsClosed == old(D.sessionsOpened - D.sessionsClosed)
    ensures stage != Listed ==> count == 0 && S.files == old(S.files) && D.files == old(D.files) && outcomes == []
    ensures srcDir == Protocols.CwdResultOver(config.protoFrom, "/", config.pathFrom)
    ensures stage == Listed ==> srcDir in S.listings && names == Protocols.ListingNamesOver(config.protoFrom, S.listings[srcDir])
    ensures Steps(EntryRun(config, S, D, isMatch, now, pid, delete), names, srcSnaps, dstSnaps, outcomes)
    ensures srcSnaps[0] == old(S.files) && dstSnaps[0] == old(D.files)
    ensures srcSnaps[|outcomes|] == S.files && dstSnaps[|outcomes|] == D.files
    ensures count == CountTransferred(outcomes) && 0 <= count <= |names|
    ensures stage == ShutdownAtStart ==> shutdown.checks == old(shutdown.checks) + 1 && shutdown.requested
    ensures stage == Listed ==> shutdown.Ended(false, old(shutdown.checks) + 1, |names|, |outcomes|)
    ensures stage != ShutdownAtStart && stage != Listed ==> shutdown.checks == old(shutdown.checks) + 1 && !shutdown.requested
    ensures S.files == old(S.files) - DeletedPaths(srcDir, names, outcomes, SourceDeleted)
    ensures !delete ==> S.files == old(S.files)
  {
    srcDir := Protocols.CwdResultOver(config.protoFrom, "/", config.pathFrom);
    count, names, outcomes, srcSnaps, dstSnaps := 0, [], [], [S.files], [D.files];
    var stop := shutdown.IsShutdownRequested();
    if stop {
      return 0, ShutdownAtStart, srcDir, names, outcomes, srcSnaps, dstSnaps;
    }
    var sides := OpenBoth(config, S, D, insecureSkipVerify);
    if sides.Err? {
      return 0, sides.error, srcDir, names, outcomes, srcSnaps, dstSnaps;
    }
    var src, dst := sides.value.0, sides.value.1;
    assert EntryRun(config, S, D, isMatch, now, pid, delete) ==
           Run(Side(src.ProtocolOf(), src.ServerOf(), src.Dir()), Side(dst.ProtocolOf(), dst.ServerOf(), dst.Dir()), isMatch, config.age, now, pid, delete);
    count, stage, names, outcomes, srcSnaps, dstSnaps := RunOpen(src, dst, shutdown, isMatch, config.age, now, pid, delete, src.Dir(), dst.Dir());
  }
}
