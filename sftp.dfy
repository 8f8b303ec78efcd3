/**
 * The SFTP client: authentication chosen at connect time and used at login,
 * the address-by-address connect loop, and a working directory that the client
 * keeps itself, because SFTP has none, and prefixes to every file name.
 */
module Sftp {
  import opened Wrappers
  import opened Remote
  import Text

  const TWO_63: int := 0x8000_0000_0000_0000
  const TWO_64: int := 0x1_0000_0000_0000_0000

  /**
   * The credential `connect` stores for `login`: a password wins over a keyfile,
   * a keyfile keeps its optional passphrase, and having neither is an
   * `InvalidInput` error.
   */
  function SelectAuth(password: Option<string>, keyfile: Option<string>, passphrase: Option<string>): Result<Credential, FtpError> {
    match (password, keyfile)
    case (Some(p), _) => Ok(Password(p))
    case (None, Some(k)) => Ok(Keyfile(k, passphrase))
    case (None, None) => Err(ConnectionError(InvalidInput))
  }

  /** The error an address attempt that cannot be retried ends `connect` with. */
  function SetupError(a: Attempt): FtpError
    requires !a.TcpFailed? && !a.Established?
  {
    match a
    case SocketSetupFailed(k) => ConnectionError(k)
    case SessionFailed => ConnectionError(Other)
    case HandshakeFailed => ConnectionError(ConnectionRefused)
    case ChannelFailed => ConnectionError(ConnectionRefused)
  }

  /**
   * The address loop of `connect` from `addrs` on, with `lastError` the error of
   * the last failed TCP connect: a TCP failure moves on to the next address, any
   * later failure ends the loop at once, and running out of addresses reports
   * the last TCP error.
   */
  function ScanAddresses(addrs: seq<Addr>, attempt: Addr -> Attempt, lastError: Option<FtpError>): Result<Addr, FtpError> {
    if addrs == [] then Err(lastError.GetOr(ConnectionError(NotFound)))
    else
      match attempt(addrs[0])
      case TcpFailed(k) => ScanAddresses(addrs[1..], attempt, Some(ConnectionError(k)))
      case Established => Ok(addrs[0])
      case _ => Err(SetupError(attempt(addrs[0])))
  }

  /** The loop itself, over the resolved addresses. */
  method ConnectAddresses(addrs: seq<Addr>, attempt: Addr -> Attempt) returns (r: Result<Addr, FtpError>)
    ensures r == ScanAddresses(addrs, attempt, None)
  {
    var lastError: Option<FtpError> := None;
    var i := 0;
    while i < |addrs|
      invariant 0 <= i <= |addrs|
      invariant ScanAddresses(addrs, attempt, None) == ScanAddresses(addrs[i..], attempt, lastError)
    {
      var a := addrs[i];
      match attempt(a)
      case TcpFailed(k) =>
        lastError := Some(ConnectionError(k));
        i := i + 1;
        continue;
      case Established =>
        return Ok(a);
      case _ =>
        return Err(SetupError(attempt(a)));
    }
    r := Err(lastError.GetOr(ConnectionError(NotFound)));
  }

  /**
   * The loop reaches the first address whose TCP connect succeeds, and that
   * address decides the outcome: success when it is fully established,
   * otherwise its setup error.
   */
  lemma {:induction false} ScanReachesFirstTcpSuccess(addrs: seq<Addr>, attempt: Addr -> Attempt, last: Option<FtpError>, i: nat)
    requires i < |addrs|
    requires forall j :: 0 <= j < i ==> attempt(addrs[j]).TcpFailed?
    requires !attempt(addrs[i]).TcpFailed?
    ensures attempt(addrs[i]).Established? ==> ScanAddresses(addrs, attempt, last) == Ok(addrs[i])
    ensures !attempt(addrs[i]).Established? ==> ScanAddresses(addrs, attempt, last) == Err(SetupError(attempt(addrs[i])))
  {
    if i > 0 {
      ScanReachesFirstTcpSuccess(addrs[1..], attempt, Some(ConnectionError(attempt(addrs[0]).kind)), i - 1);
    }
  }

  /** When every TCP connect fails, the error is the last address's. */
  lemma {:induction false} ScanAllTcpFailed(addrs: seq<Addr>, attempt: Addr -> Attempt, last: Option<FtpError>)
    requires |addrs| > 0
    requires forall j :: 0 <= j < |addrs| ==> attempt(addrs[j]).TcpFailed?
    ensures ScanAddresses(addrs, attempt, last) == Err(ConnectionError(attempt(addrs[|addrs| - 1]).kind))
  {
    if |addrs| > 1 {
      ScanAllTcpFailed(addrs[1..], attempt, Some(ConnectionError(attempt(addrs[0]).kind)));
    }
  }

  /** A successful scan returns one of the addresses, and only a fully established one. */
  lemma {:induction false} ScanOkEstablished(addrs: seq<Addr>, attempt: Addr -> Attempt, last: Option<FtpError>)
    requires ScanAddresses(addrs, attempt, last).Ok?
    ensures ScanAddresses(addrs, attempt, last).value in addrs
    ensures attempt(ScanAddresses(addrs, attempt, last).value).Established?
  {
    if attempt(addrs[0]).TcpFailed? {
      ScanOkEstablished(addrs[1..], attempt, Some(ConnectionError(attempt(addrs[0]).kind)));
    }
  }

  /**
   * The names `nlst` returns from a directory's entries: directories and the
   * names `.` and `..` are dropped, as are entries whose file name is not
   * valid text; order is kept.
   */
  function FileNames(entries: seq<DirEntry>): (names: seq<string>)
    ensures |names| <= |entries|
  {
    if entries == [] then []
    else
      var e := entries[0];
      var keep := !e.isDir && e.name.GetOr("") != "." && e.name.GetOr("") != "..";
      (if keep && e.name.Some? then [e.name.value] else []) + FileNames(entries[1..])
  }

  predicate Listed(e: DirEntry) {
    !e.isDir && e.name.Some? && e.name.value != "." && e.name.value != ".."
  }

  /** A name is returned exactly when some entry that is not a directory carries it, and it is not `.` or `..`. */
  lemma {:induction false} FileNamesIff(entries: seq<DirEntry>, n: string)
    ensures n in FileNames(entries) <==> exists i :: 0 <= i < |entries| && Listed(entries[i]) && entries[i].name.value == n
  {
    if entries != [] {
      FileNamesIff(entries[1..], n);
      if n in FileNames(entries[1..]) {
        var i :| 1 <= i + 1 < |entries| && Listed(entries[1..][i]) && entries[1..][i].name.value == n;
        assert entries[i + 1] == entries[1..][i];
      }
      if exists i :: 0 <= i < |entries| && Listed(entries[i]) && entries[i].name.value == n {
        var i :| 0 <= i < |entries| && Listed(entries[i]) && entries[i].name.value == n;
        if i > 0 {
          assert entries[1..][i - 1] == entries[i];
        }
      }
    }
  }

  /** `u64 as i64`: the two's-complement reinterpretation of the low 64 bits of `m`. */
  function AsI64(m: int): (r: int)
    ensures -TWO_63 <= r < TWO_63
    ensures (m - r) % TWO_64 == 0
  {
    var w := m % TWO_64;
    if w < TWO_63 then w else w - TWO_64
  }

  /**
   * The error kind of an upload the server answers with `f` and does not
   * acknowledge: a refused request is a `create` that failed, reported as
   * `Other`; a short store is a copy that failed, reported with its own kind.
   */
  function UploadErrorKind(f: Fault): (k: IoErrorKind)
    requires !WriteReported(f)
    ensures f.Refuse? ==> k == Other
    ensures f.StoreShort? ==> k == f.kind
  {
    if f.StoreShort? then f.kind else Other
  }

  class SftpClient {
    const server: Server
    var currentDir: string
    const auth: Credential
    /** False once `quit` has consumed the client. */
    ghost var live: bool

    constructor Open(server: Server, auth: Credential)
      ensures this.server == server && this.auth == auth && currentDir == "/" && live
    {
      this.server := server;
      this.auth := auth;
      currentDir := "/";
      live := true;
    }

    /** `full_path`: a file name inside the current directory. */
    function FullPath(filename: string): string
      reads this
    {
      Resolve(currentDir, filename)
    }

    /**
     * `connect`: selects the credential, resolves the host and runs the address
     * loop. A failure opens no session; success opens one, in `/`.
     */
    static method Connect(server: Server, password: Option<string>, keyfile: Option<string>, passphrase: Option<string>)
      returns (r: Result<SftpClient, FtpError>)
      modifies server`sessionsOpened
      ensures SelectAuth(password, keyfile, passphrase).Err? ==> r == Err(ConnectionError(InvalidInput))
      ensures server.addresses.Err? && SelectAuth(password, keyfile, passphrase).Ok? ==> r == Err(ConnectionError(server.addresses.error))
      ensures server.addresses == Ok([]) && SelectAuth(password, keyfile, passphrase).Ok? ==> r == Err(ConnectionError(NotFound))
      ensures server.addresses.Ok? && server.addresses.value != [] && SelectAuth(password, keyfile, passphrase).Ok? ==>
        (ScanAddresses(server.addresses.value, server.attempt, None).Err? <==> r.Err?) &&
        (r.Err? ==> r.error == ScanAddresses(server.addresses.value, server.attempt, None).error)
      ensures r.Ok? ==> fresh(r.value) && r.value.server == server && r.value.currentDir == "/" && r.value.live
      ensures r.Ok? ==> r.value.auth == SelectAuth(password, keyfile, passphrase).value
      ensures server.sessionsOpened == old(server.sessionsOpened) + (if r.Ok? then 1 else 0)
    {
      var auth := SelectAuth(password, keyfile, passphrase);
      if auth.Err? {
        return Err(auth.error);
      }
      if server.addresses.Err? {
        return Err(ConnectionError(server.addresses.error));
      }
      var addrs := server.addresses.value;
      if addrs == [] {
        return Err(ConnectionError(NotFound));
      }
      var found := ConnectAddresses(addrs, server.attempt);
      if found.Err? {
        return Err(found.error);
      }
      var c := new SftpClient.Open(server, auth.value);
      server.sessionsOpened := server.sessionsOpened + 1;
      r := Ok(c);
    }

    /** `login`: authenticates with the credential chosen at connect; the password argument is not used. */
    method Login(user: string, password: string) returns (r: Result<(), FtpError>)
      requires live
      modifies server`clock
      ensures server.clock == old(server.clock) + 1
      ensures r.Ok? <==> Admits(server.fault(old(server.clock))) && (user, auth) in server.accounts
      ensures r.Err? ==> r.error == ConnectionError(PermissionDenied)
    {
      var ok := server.Authenticate(user, auth);
      r := if ok then Ok(()) else Err(ConnectionError(PermissionDenied));
    }

    /** `cwd`: the path becomes the current directory, exactly as given, once `stat` on it succeeds. */
    method Cwd(path: string) returns (r: Result<(), FtpError>)
      requires live
      modifies this`currentDir, server`clock
      ensures server.clock == old(server.clock) + 1
      ensures r.Ok? <==> Admits(server.fault(old(server.clock))) && server.StatOf(path).Some?
      ensures currentDir == if r.Ok? then path else old(currentDir)
      ensures r.Err? ==> r.error == ConnectionError(NotFound)
    {
      var st := server.Stat(path);
      if st.None? {
        return Err(ConnectionError(NotFound));
      }
      currentDir := path;
      r := Ok(());
    }

    /** `transfer_type`: SFTP is always binary, so this sends nothing and succeeds. */
    method TransferType() returns (r: Result<(), FtpError>)
      requires live
      ensures r == Ok(())
    {
      r := Ok(());
    }

    /** `nlst`: lists the given directory, or the current one. */
    method Nlst(path: Option<string>) returns (r: Result<seq<string>, FtpError>)
      requires live
      modifies server`clock
      ensures server.clock == old(server.clock) + 1
      ensures var dir := path.GetOr(currentDir);
        r == if Admits(server.fault(old(server.clock))) && dir in server.listings
             then Ok(FileNames(server.listings[dir])) else Err(ConnectionError(Other))
    {
      var dir := path.GetOr(currentDir);
      var entries := server.ReadDir(dir);
      if entries.None? {
        return Err(ConnectionError(Other));
      }
      r := Ok(FileNames(entries.value));
    }

    /** `mdtm`: the file's mtime, reinterpreted as a signed 64-bit count of seconds. */
    method Mdtm(filename: string) returns (r: Result<int, FtpError>)
      requires live
      modifies server`clock
      ensures server.clock == old(server.clock) + 1
      ensures var st := if Admits(server.fault(old(server.clock))) then server.StatOf(FullPath(filename)) else None;
        r == if st.None? then Err(ConnectionError(NotFound))
             else if st.value.mtime.None? then Err(ConnectionError(InvalidData))
             else Ok(AsI64(st.value.mtime.value))
    {
      var st := server.Stat(FullPath(filename));
      if st.None? {
        return Err(ConnectionError(NotFound));
      }
      if st.value.mtime.None? {
        return Err(ConnectionError(InvalidData));
      }
      r := Ok(AsI64(st.value.mtime.value));
    }

    /** `size`: the size `stat` reports, or 0 when it reports none. */
    method Size(filename: string) returns (r: Result<nat, FtpError>)
      requires live
      modifies server`clock
      ensures server.clock == old(server.clock) + 1
      ensures var st := if Admits(server.fault(old(server.clock))) then server.StatOf(FullPath(filename)) else None;
        r == if st.None? then Err(ConnectionError(NotFound)) else Ok(st.value.size.GetOr(0))
    {
      var st := server.Stat(FullPath(filename));
      if st.None? {
        return Err(ConnectionError(NotFound));
      }
      r := Ok(st.value.size.GetOr(0));
    }

    /** `retr`, with the callback that reads the whole file: the file's bytes. */
    method Retr(filename: string) returns (r: Result<seq<byte>, FtpError>)
      requires live
      modifies server`clock
      ensures server.clock == old(server.clock) + 1
      ensures var p := FullPath(filename);
        r == if Admits(server.fault(old(server.clock))) && p in server.files then Ok(server.files[p]) else Err(ConnectionError(NotFound))
    {
      var data := server.Read(FullPath(filename));
      if data.None? {
        return Err(ConnectionError(NotFound));
      }
      r := Ok(data.value);
    }

    /** `put_file`: creates the file and copies `data` into it; returns the bytes copied. */
    method PutFile(filename: string, data: seq<byte>) returns (r: Result<nat, FtpError>)
      requires live
      modifies server`clock, server`files
      ensures server.clock == old(server.clock) + 1
      ensures server.files == AfterWrite(old(server.files), server.fault(old(server.clock)), FullPath(filename), data)
      ensures r == if WriteReported(server.fault(old(server.clock))) then Ok(|data|) else Err(ConnectionError(UploadErrorKind(server.fault(old(server.clock)))))
    {
      var f := server.fault(server.clock);
      var n := server.Write(FullPath(filename), data);
      if n.None? {
        return Err(ConnectionError(UploadErrorKind(f)));
      }
      r := Ok(n.value);
    }

    /** `rename`: both names are taken inside the current directory. */
    method Rename(src: string, dst: string) returns (r: Result<(), FtpError>)
      requires live
      modifies server`clock, server`files
      ensures server.clock == old(server.clock) + 1
      ensures r.Ok? <==> Admits(server.fault(old(server.clock))) && old(server.CanRename(FullPath(src), FullPath(dst)))
      ensures server.files == if r.Ok? then (old(server.files) - {FullPath(src)})[FullPath(dst) := old(server.files)[FullPath(src)]] else old(server.files)
      ensures r.Err? ==> r.error == ConnectionError(Other)
    {
      var ok := server.Rename(FullPath(src), FullPath(dst));
      r := if ok then Ok(()) else Err(ConnectionError(Other));
    }

    /** `rm`: unlinks the file inside the current directory. */
    method Rm(filename: string) returns (r: Result<(), FtpError>)
      requires live
      modifies server`clock, server`files
      ensures server.clock == old(server.clock) + 1
      ensures r.Ok? <==> Admits(server.fault(old(server.clock))) && FullPath(filename) in old(server.files)
      ensures server.files == if r.Ok? then old(server.files) - {FullPath(filename)} else old(server.files)
      ensures r.Err? ==> r.error == ConnectionError(Other)
    {
      var ok := server.Unlink(FullPath(filename));
      r := if ok then Ok(()) else Err(ConnectionError(Other));
    }

    /** `quit`: drops the session; always succeeds, and the client cannot be used again. */
    method Quit() returns (r: Result<(), FtpError>)
      requires live
      modifies this`live, server`sessionsClosed
      ensures !live && r == Ok(())
      ensures server.sessionsClosed == old(server.sessionsClosed) + 1
    {
      live := false;
      server.sessionsClosed := server.sessionsClosed + 1;
      r := Ok(());
    }
  }
}
