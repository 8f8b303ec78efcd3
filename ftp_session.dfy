/**
 * An FTP control connection, plain or over TLS, as the FTP and FTPS clients
 * use it: the server keeps the working directory, so file names are resolved
 * against it on the server side.
 */
module FtpSessions {
  import opened Wrappers
  import opened Remote
  import Text

  /**
   * The FTP client's connect loop: addresses are tried in order, the first one
   * that connects is used, and otherwise the error of the last one is
   * reported.
   */
  function FtpScan(addrs: seq<Addr>, attempt: Addr -> Attempt, lastError: Option<FtpError>): Result<Addr, FtpError> {
    if addrs == [] then Err(lastError.GetOr(ConnectionError(NotFound)))
    else if attempt(addrs[0]).Established? then Ok(addrs[0])
    else
      var e := if attempt(addrs[0]).TcpFailed? || attempt(addrs[0]).SocketSetupFailed? then ConnectionError(attempt(addrs[0]).kind) else UnexpectedResponse;
      FtpScan(addrs[1..], attempt, Some(e))
  }

  /** Unlike the SFTP loop, the FTP loop reaches an established address whatever failed before it. */
  lemma {:induction false} FtpScanFindsEstablished(addrs: seq<Addr>, attempt: Addr -> Attempt, last: Option<FtpError>)
    ensures FtpScan(addrs, attempt, last).Ok? <==> exists i :: 0 <= i < |addrs| && attempt(addrs[i]).Established?
  {
    if addrs != [] && !attempt(addrs[0]).Established? {
      var e := if attempt(addrs[0]).TcpFailed? || attempt(addrs[0]).SocketSetupFailed? then ConnectionError(attempt(addrs[0]).kind) else UnexpectedResponse;
      FtpScanFindsEstablished(addrs[1..], attempt, Some(e));
      if exists i :: 0 <= i < |addrs| && attempt(addrs[i]).Established? {
        var i :| 0 <= i < |addrs| && attempt(addrs[i]).Established?;
        assert addrs[1..][i - 1] == addrs[i];
      }
      if exists i :: 0 <= i < |addrs[1..]| && attempt(addrs[1..][i]).Established? {
        var i :| 0 <= i < |addrs[1..]| && attempt(addrs[1..][i]).Established?;
        assert addrs[i + 1] == addrs[1..][i];
      }
    }
  }

  /** The names an `NLST` reply carries: every named entry, directories included. */
  function NameList(entries: seq<DirEntry>): (names: seq<string>)
    ensures |names| <= |entries|
    ensures forall n :: n in names ==> exists i :: 0 <= i < |entries| && entries[i].name == Some(n)
  {
    if entries == [] then []
    else
      var rest := NameList(entries[1..]);
      assert forall n :: n in rest ==> exists i :: 0 <= i < |entries| && entries[i].name == Some(n) by {
        forall n | n in rest ensures exists i :: 0 <= i < |entries| && entries[i].name == Some(n) {
          var j :| 0 <= j < |entries[1..]| && entries[1..][j].name == Some(n);
          assert entries[j + 1] == entries[1..][j];
        }
      }
      (if entries[0].name.Some? then [entries[0].name.value] else []) + rest
  }

  /** `suppaftp::types::FormatControl`. */
  datatype FormatControl = Default | NonPrint | Telnet | Asa

  /** `suppaftp::types::FileType`, the argument of `TYPE`. */
  datatype FileType = Ascii(format: FormatControl) | Ebcdic(format: FormatControl) | Image | Binary | Local(bits: nat)

  /** Where a `CWD` argument leads: an absolute path as given, a relative one inside the current directory. */
  function CwdTarget(cwd: string, path: string): string {
    if Text.StartsWith(path, "/") then path else Resolve(cwd, path)
  }

  class FtpSession {
    const server: Server
    /** Whether the control connection runs over TLS (FTPS). */
    const secure: bool
    /** Whether TLS certificate checks are skipped. */
    const skipVerify: bool
    var cwd: string
    /** The representation type the last accepted `TYPE` command selected. */
    var fileType: FileType
    ghost var live: bool

    constructor Open(server: Server, secure: bool, skipVerify: bool)
      ensures this.server == server && this.secure == secure && this.skipVerify == skipVerify
      ensures cwd == "/" && live
    {
      this.server := server;
      this.secure := secure;
      this.skipVerify := skipVerify;
      cwd := "/";
      fileType := Ascii(NonPrint);
      live := true;
    }

    /** Where the server finds `filename`. */
    function PathOf(filename: string): string
      reads this
    {
      Resolve(cwd, filename)
    }

    static method Connect(server: Server, secure: bool, skipVerify: bool) returns (r: Result<FtpSession, FtpError>)
      modifies server`sessionsOpened
      ensures server.addresses.Err? ==> r == Err(ConnectionError(server.addresses.error))
      ensures server.addresses == Ok([]) ==> r == Err(ConnectionError(NotFound))
      ensures server.addresses.Ok? ==> (r.Ok? <==> FtpScan(server.addresses.value, server.attempt, None).Ok?)
      ensures r.Ok? ==> fresh(r.value) && r.value.server == server && r.value.live && r.value.cwd == "/"
      ensures r.Ok? ==> r.value.secure == secure && r.value.skipVerify == skipVerify
      ensures server.sessionsOpened == old(server.sessionsOpened) + (if r.Ok? then 1 else 0)
    {
      if server.addresses.Err? {
        return Err(ConnectionError(server.addresses.error));
      }
      var found := FtpScan(server.addresses.value, server.attempt, None);
      if found.Err? {
        return Err(found.error);
      }
      var s := new FtpSession.Open(server, secure, skipVerify);
      server.sessionsOpened := server.sessionsOpened + 1;
      r := Ok(s);
    }

    method Login(user: string, password: string) returns (r: Result<(), FtpError>)
      requires live
      modifies server`clock
      ensures server.clock == old(server.clock) + 1
      ensures r.Ok? <==> Admits(server.fault(old(server.clock))) && (user, Password(password)) in server.accounts
    {
      var ok := server.Authenticate(user, Password(password));
      r := if ok then Ok(()) else Err(UnexpectedResponse);
    }

    /** `CWD`: succeeds only into an existing directory. */
    method Cwd(path: string) returns (r: Result<(), FtpError>)
      requires live
      modifies this`cwd, server`clock
      ensures server.clock == old(server.clock) + 1
      ensures var t := CwdTarget(old(cwd), path);
        && (r.Ok? <==> Admits(server.fault(old(server.clock))) && t !in server.files && t in server.dirs)
        && cwd == (if r.Ok? then t else old(cwd))
    {
      var t := CwdTarget(cwd, path);
      var st := server.Stat(t);
      if st.None? || !st.value.isDir {
        return Err(UnexpectedResponse);
      }
      cwd := t;
      r := Ok(());
    }

    /** `TYPE`: one command the server may refuse; when accepted, `t` is the type from then on. */
    method TransferType(t: FileType) returns (r: Result<(), FtpError>)
      requires live
      modifies this`fileType, server`clock
      ensures server.clock == old(server.clock) + 1
      ensures r.Ok? <==> Admits(server.fault(old(server.clock)))
      ensures fileType == if r.Ok? then t else old(fileType)
    {
      var ok := server.Command();
      if ok {
        fileType := t;
      }
      r := if ok then Ok(()) else Err(UnexpectedResponse);
    }

    method Nlst(path: Option<string>) returns (r: Result<seq<string>, FtpError>)
      requires live
      modifies server`clock
      ensures server.clock == old(server.clock) + 1
      ensures var dir := if path.Some? then CwdTarget(cwd, path.value) else cwd;
        r == if Admits(server.fault(old(server.clock))) && dir in server.listings
             then Ok(NameList(server.listings[dir])) else Err(UnexpectedResponse)
    {
      var dir := if path.Some? then CwdTarget(cwd, path.value) else cwd;
      var entries := server.ReadDir(dir);
      if entries.None? {
        return Err(UnexpectedResponse);
      }
      r := Ok(NameList(entries.value));
    }

    /** `MDTM`: the modification time of an existing file that has one. */
    method Mdtm(filename: string) returns (r: Result<int, FtpError>)
      requires live
      modifies server`clock
      ensures server.clock == old(server.clock) + 1
      ensures var p := PathOf(filename);
        r == if Admits(server.fault(old(server.clock))) && p in server.files && p in server.mtimes
             then Ok(server.mtimes[p]) else Err(UnexpectedResponse)
    {
      var st := server.Stat(PathOf(filename));
      if st.None? || st.value.isDir || st.value.mtime.None? {
        return Err(UnexpectedResponse);
      }
      r := Ok(st.value.mtime.value);
    }

    /** `SIZE`: the length of an existing file. */
    method Size(filename: string) returns (r: Result<nat, FtpError>)
      requires live
      modifies server`clock
      ensures server.clock == old(server.clock) + 1
      ensures var p := PathOf(filename);
        r == if Admits(server.fault(old(server.clock))) && p in server.files
             then Ok(|server.files[p]|) else Err(UnexpectedResponse)
    {
      var data := server.Read(PathOf(filename));
      if data.None? {
        return Err(UnexpectedResponse);
      }
      r := Ok(|data.value|);
    }

    method Retr(filename: string) returns (r: Result<seq<byte>, FtpError>)
      requires live
      modifies server`clock
      ensures server.clock == old(server.clock) + 1
      ensures var p := PathOf(filename);
        r == if Admits(server.fault(old(server.clock))) && p in server.files then Ok(server.files[p]) else Err(UnexpectedResponse)
    {
      var data := server.Read(PathOf(filename));
      if data.None? {
        return Err(UnexpectedResponse);
      }
      r := Ok(data.value);
    }

    /** `STOR`: stores `data` under `filename`; returns the bytes sent. */
    method PutFile(filename: string, data: seq<byte>) returns (r: Result<nat, FtpError>)
      requires live
      modifies server`clock, server`files
      ensures server.clock == old(server.clock) + 1
      ensures server.files == AfterWrite(old(server.files), server.fault(old(server.clock)), PathOf(filename), data)
      ensures r == if WriteReported(server.fault(old(server.clock))) then Ok(|data|) else Err(UnexpectedResponse)
    {
      var n := server.Write(PathOf(filename), data);
      if n.None? {
        return Err(UnexpectedResponse);
      }
      r := Ok(n.value);
    }

    /** `RNFR`/`RNTO`. */
    method Rename(src: string, dst: string) returns (r: Result<(), FtpError>)
      requires live
      modifies server`clock, server`files
      ensures server.clock == old(server.clock) + 1
      ensures r.Ok? <==> Admits(server.fault(old(server.clock))) && old(server.CanRename(PathOf(src), PathOf(dst)))
      ensures server.files == if r.Ok? then (old(server.files) - {PathOf(src)})[PathOf(dst) := old(server.files)[PathOf(src)]] else old(server.files)
    {
      var ok := server.Rename(PathOf(src), PathOf(dst));
      r := if ok then Ok(()) else Err(UnexpectedResponse);
    }

    /** `DELE`. */
    method Rm(filename: string) returns (r: Result<(), FtpError>)
      requires live
      modifies server`clock, server`files
      ensures server.clock == old(server.clock) + 1
      ensures r.Ok? <==> Admits(server.fault(old(server.clock))) && PathOf(filename) in old(server.files)
      ensures server.files == if r.Ok? then old(server.files) - {PathOf(filename)} else old(server.files)
    {
      var ok := server.Unlink(PathOf(filename));
      r := if ok then Ok(()) else Err(UnexpectedResponse);
    }

    /** `QUIT`: the session ends whatever the server answers. */
    method Quit() returns (r: Result<(), FtpError>)
      requires live
      modifies this`live, server`clock, server`sessionsClosed
      ensures !live && server.clock == old(server.clock) + 1
      ensures r.Ok? <==> Admits(server.fault(old(server.clock)))
      ensures server.sessionsClosed == old(server.sessionsClosed) + 1
    {
      var ok := server.Command();
      live := false;
      server.sessionsClosed := server.sessionsClosed + 1;
      r := if ok then Ok(()) else Err(UnexpectedResponse);
    }
  }
}
