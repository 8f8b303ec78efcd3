/**
 * A remote file server as the clients see it: a store of files keyed by full
 * path, the directories that exist, the listings `readdir`/`NLST` report, the
 * accounts it accepts and how connection attempts to each of its addresses end.
 * Whether a request is answered is decided by `fault`, an oracle indexed by a
 * request counter, so that every client call may fail while the model stays
 * deterministic.
 */
module Remote {
  import opened Wrappers
  import Text

  type byte = x: int | 0 <= x < 256
  type Addr = nat

  /** The contents of a server's store: file bytes keyed by full path. */
  type Store = map<string, seq<byte>>

  /** The `std::io::ErrorKind` values the clients produce. */
  datatype IoErrorKind = NotFound | InvalidInput | InvalidData | PermissionDenied | ConnectionRefused | Other | TimedOut

  /** `suppaftp::FtpError`, reduced to what the program distinguishes. */
  datatype FtpError = ConnectionError(kind: IoErrorKind) | UnexpectedResponse

  datatype Credential = Password(password: string) | Keyfile(path: string, passphrase: Option<string>)

  /** How one connection attempt to one address ends. */
  datatype Attempt =
    | TcpFailed(kind: IoErrorKind)          // TCP connect failed or timed out
    | SocketSetupFailed(kind: IoErrorKind)  // setting the socket's read/write timeout failed
    | SessionFailed                         // the SSH session object could not be created
    | HandshakeFailed                       // the SSH handshake failed
    | ChannelFailed                         // the SFTP channel could not be opened
    | Established

  /** The server's answer to one request. */
  datatype Fault =
    | Proceed
    | Refuse
      /**
       * An upload of which only the first `keep` bytes are stored; `acknowledged`
       * says whether the client still sees success, and `kind` is the I/O error
       * the transfer reports when it does not.
       */
    | StoreShort(keep: nat, acknowledged: bool, kind: IoErrorKind)

  predicate Admits(f: Fault) { !f.Refuse? }

  datatype DirEntry = DirEntry(name: Option<string>, isDir: bool)
  datatype FileStat = FileStat(isDir: bool, size: Option<nat>, mtime: Option<int>)

  /** The full path of `name` inside `dir`: trailing slashes of `dir` dropped, one `/`, then `name`. */
  function Resolve(dir: string, name: string): string {
    Text.TrimEndMatches(dir, '/') + "/" + name
  }

  /** What an upload leaves stored when the server answers `f`. */
  function Stored(f: Fault, data: seq<byte>): seq<byte> {
    match f
    case StoreShort(keep, _, _) => if keep < |data| then data[..keep] else data
    case _ => data
  }

  /** The store after an upload of `data` to `path` answered with `f`. */
  function AfterWrite(files: map<string, seq<byte>>, f: Fault, path: string, data: seq<byte>): map<string, seq<byte>> {
    if Admits(f) then files[path := Stored(f, data)] else files
  }

  /** Whether the client is told that an upload answered with `f` succeeded. */
  predicate WriteReported(f: Fault) {
    f.Proceed? || (f.StoreShort? && f.acknowledged)
  }

  /** Whatever an upload stores is a prefix of what was sent, so a stored copy of full length is the data itself. */
  lemma StoredPrefix(f: Fault, data: seq<byte>)
    ensures Stored(f, data) <= data
    ensures |Stored(f, data)| == |data| ==> Stored(f, data) == data
  {
  }

  class Server {
    var files: map<string, seq<byte>>
    const dirs: set<string>
    /**
     * Modification times in seconds relative to the epoch, negative before it;
     * a path without one has no mtime attribute.
     */
    const mtimes: map<string, int>
    /** Files whose stat carries no size attribute. */
    const sizeless: set<string>
    const listings: map<string, seq<DirEntry>>
    const accounts: set<(string, Credential)>
    /** The result of resolving the host name: `None` when resolution fails. */
    const addresses: Result<seq<Addr>, IoErrorKind>
    const attempt: Addr -> Attempt
    /** Whether a rename onto an existing file replaces it. */
    const renameReplaces: bool
    const fault: nat -> Fault
    var clock: nat
    ghost var sessionsOpened: nat
    ghost var sessionsClosed: nat

    constructor (files: map<string, seq<byte>>, dirs: set<string>, mtimes: map<string, int>,
                 sizeless: set<string>, listings: map<string, seq<DirEntry>>,
                 accounts: set<(string, Credential)>, addresses: Result<seq<Addr>, IoErrorKind>,
                 attempt: Addr -> Attempt, renameReplaces: bool, fault: nat -> Fault)
      ensures this.files == files && this.dirs == dirs && this.mtimes == mtimes
      ensures this.sizeless == sizeless && this.listings == listings && this.accounts == accounts
      ensures this.addresses == addresses && this.attempt == attempt
      ensures this.renameReplaces == renameReplaces && this.fault == fault
      ensures clock == 0 && sessionsOpened == 0 && sessionsClosed == 0
    {
      this.files, this.dirs, this.mtimes, this.sizeless := files, dirs, mtimes, sizeless;
      this.listings, this.accounts, this.addresses, this.attempt := listings, accounts, addresses, attempt;
      this.renameReplaces, this.fault := renameReplaces, fault;
      clock, sessionsOpened, sessionsClosed := 0, 0, 0;
    }

    /** What `stat` reports for `path`, when the request is answered. */
    function StatOf(path: string): Option<FileStat>
      reads this
    {
      StatIn(files, path)
    }

    /** What `stat` would report for `path` were the store `files`. */
    function StatIn(store: map<string, seq<byte>>, path: string): Option<FileStat> {
      if path in store then
        Some(FileStat(false, if path in sizeless then None else Some(|store[path]|), if path in mtimes then Some(mtimes[path]) else None))
      else if path in dirs then Some(FileStat(true, None, None))
      else None
    }

    /** Whether renaming `src` to `dst` is allowed in the current store. */
    predicate CanRename(src: string, dst: string)
      reads this
    {
      src in files && (renameReplaces || dst !in files || dst == src)
    }

    /** Takes the answer to the next request. */
    method Next() returns (f: Fault)
      modifies this`clock
      ensures f == fault(old(clock)) && clock == old(clock) + 1
    {
      f := fault(clock);
      clock := clock + 1;
    }

    /** A request with no effect on the store (such as `TYPE I`); `ok` is whether it was answered. */
    method Command() returns (ok: bool)
      modifies this`clock
      ensures clock == old(clock) + 1 && ok == Admits(fault(old(clock)))
    {
      var f := Next();
      ok := Admits(f);
    }

    method Authenticate(user: string, cred: Credential) returns (ok: bool)
      modifies this`clock
      ensures clock == old(clock) + 1
      ensures ok <==> Admits(fault(old(clock))) && (user, cred) in accounts
    {
      var f := Next();
      ok := Admits(f) && (user, cred) in accounts;
    }

    method Stat(path: string) returns (r: Option<FileStat>)
      modifies this`clock
      ensures clock == old(clock) + 1
      ensures r == if Admits(fault(old(clock))) then StatOf(path) else None
    {
      var f := Next();
      r := if Admits(f) then StatOf(path) else None;
    }

    method ReadDir(path: string) returns (r: Option<seq<DirEntry>>)
      modifies this`clock
      ensures clock == old(clock) + 1
      ensures r == if Admits(fault(old(clock))) && path in listings then Some(listings[path]) else None
    {
      var f := Next();
      r := if Admits(f) && path in listings then Some(listings[path]) else None;
    }

    method Read(path: string) returns (r: Option<seq<byte>>)
      modifies this`clock
      ensures clock == old(clock) + 1
      ensures r == if Admits(fault(old(clock))) && path in files then Some(files[path]) else None
    {
      var f := Next();
      r := if Admits(f) && path in files then Some(files[path]) else None;
    }

    /**
     * Creates or replaces `path` with `data`. A refused request stores nothing;
     * a short store keeps a prefix of `data` and may or may not report success.
     * On success the number of bytes the client sent is reported.
     */
    method Write(path: string, data: seq<byte>) returns (r: Option<nat>)
      modifies this`clock, this`files
      ensures clock == old(clock) + 1
      ensures files == AfterWrite(old(files), fault(old(clock)), path, data)
      ensures r == if WriteReported(fault(old(clock))) then Some(|data|) else None
    {
      var f := Next();
      files := AfterWrite(files, f, path, data);
      r := if WriteReported(f) then Some(|data|) else None;
    }

    method Rename(src: string, dst: string) returns (ok: bool)
      modifies this`clock, this`files
      ensures clock == old(clock) + 1
      ensures ok <==> Admits(fault(old(clock))) && old(CanRename(src, dst))
      ensures files == if ok then (old(files) - {src})[dst := old(files)[src]] else old(files)
    {
      var f := Next();
      ok := Admits(f) && CanRename(src, dst);
      if ok {
        files := (files - {src})[dst := files[src]];
      }
    }

    method Unlink(path: string) returns (ok: bool)
      modifies this`clock, this`files
      ensures clock == old(clock) + 1
      ensures ok <==> Admits(fault(old(clock))) && path in old(files)
      ensures files == if ok then old(files) - {path} else old(files)
    {
      var f := Next();
      ok := Admits(f) && path in files;
      if ok {
        files := files - {path};
      }
    }
  }

  /**
   * What `Resolve` builds: `dir` with its whole run of trailing slashes removed
   * (and nothing else), one `/`, then `name`.
   */
  lemma ResolveShape(dir: string, name: string)
    ensures exists d ::
              && d <= dir && Resolve(dir, name) == d + "/" + name
              && (forall k :: |d| <= k < |dir| ==> dir[k] == '/')
              && (d == [] || d[|d| - 1] != '/')
  {
    var d := Text.TrimEndMatches(dir, '/');
    assert d <= dir;
    var n := Text.TrailingRun(dir, '/');
    if d != [] {
      assert d[|d| - 1] == dir[|dir| - n - 1];
    }
  }

  /** In the root directory a name resolves to `"/" + name`, with no doubled slash. */
  lemma ResolveAtRoot(name: string)
    ensures Resolve("/", name) == "/" + name
  {
    assert Text.TrailingRun("/", '/') == 1;
  }

  /** Within one directory, different names resolve to different paths. */
  lemma ResolveInjective(dir: string, a: string, b: string)
    requires Resolve(dir, a) == Resolve(dir, b)
    ensures a == b
  {
    var p := Text.TrimEndMatches(dir, '/') + "/";
    assert Resolve(dir, a) == p + a && Resolve(dir, b) == p + b;
    assert a == (p + a)[|p|..];
    assert b == (p + b)[|p|..];
  }

  /**
   * The source paths a transfer loop over `names` in `dir` removes: those of the
   * names whose result (one per name attempted, in order) satisfies `removes`.
   */
  function DeletedPaths<R>(dir: string, names: seq<string>, results: seq<R>, removes: R -> bool): set<string>
    requires |results| <= |names|
  {
    if results == [] then {}
    else
      var n := |results| - 1;
      DeletedPaths(dir, names, results[..n], removes) + (if removes(results[n]) then {Resolve(dir, names[n])} else {})
  }

  /** `later` holds only files that `earlier` held, each with the same content. */
  predicate KeptFrom(later: Store, earlier: Store) {
    forall x :: x in later ==> x in earlier && later[x] == earlier[x]
  }

  /** Stores that each keep only what the one before held keep only what the first held. */
  lemma {:induction false} KeptFromStart(snaps: seq<Store>, k: nat)
    requires k < |snaps|
    requires forall j :: 0 <= j < k ==> KeptFrom(snaps[j + 1], snaps[j])
    ensures KeptFrom(snaps[k], snaps[0])
    decreases k
  {
    if k > 0 {
      KeptFromStart(snaps, k - 1);
    }
  }

  /** A path is deleted exactly when some name resolving to it had a result that removes the source. */
  lemma {:induction false} DeletedPathsIff<R>(dir: string, names: seq<string>, results: seq<R>, removes: R -> bool, p: string)
    requires |results| <= |names|
    ensures p in DeletedPaths(dir, names, results, removes) <==>
      exists j :: 0 <= j < |results| && removes(results[j]) && Resolve(dir, names[j]) == p
  {
    if results != [] {
      var n := |results| - 1;
      DeletedPathsIff(dir, names, results[..n], removes, p);
      if exists j :: 0 <= j < n && removes(results[..n][j]) && Resolve(dir, names[j]) == p {
        var j :| 0 <= j < n && removes(results[..n][j]) && Resolve(dir, names[j]) == p;
        assert results[j] == results[..n][j];
      }
      if exists j :: 0 <= j < |results| && removes(results[j]) && Resolve(dir, names[j]) == p {
        var j :| 0 <= j < |results| && removes(results[j]) && Resolve(dir, names[j]) == p;
        if j < n {
          assert results[..n][j] == results[j];
        }
      }
    }
  }

  /** Nothing is deleted by a run in which no result removes its source. */
  lemma {:induction false} DeletedPathsNone<R>(dir: string, names: seq<string>, results: seq<R>, removes: R -> bool)
    requires |results| <= |names|
    requires forall j :: 0 <= j < |results| ==> !removes(results[j])
    ensures DeletedPaths(dir, names, results, removes) == {}
  {
    if results != [] {
      var n := |results| - 1;
      assert forall j :: 0 <= j < n ==> results[..n][j] == results[j];
      DeletedPathsNone(dir, names, results[..n], removes);
    }
  }
}
