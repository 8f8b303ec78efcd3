/**
 * The protocol-independent client: one enum over the FTP, FTPS and SFTP
 * clients, whose every operation forwards to the client inside. The contracts
 * here are the common interface the transfer pipeline is written against.
 */
module Protocols {
  import opened Wrappers
  import opened Remote
  import FtpSessions
  import Sftp

  datatype Protocol = Ftp | Ftps | Sftp

  datatype TransferMode = Binary | ASCII

  /** `From<TransferMode> for FileType`. */
  function FileTypeOf(mode: TransferMode): FtpSessions.FileType {
    match mode
    case Binary => FtpSessions.Binary
    case ASCII => FtpSessions.Ascii(FtpSessions.NonPrint)
  }

  /** Binary mode selects the binary type, text mode ASCII with non-print format control, and the two never coincide. */
  lemma FileTypeOfModes()
    ensures FileTypeOf(Binary) == FtpSessions.Binary
    ensures FileTypeOf(ASCII) == FtpSessions.Ascii(FtpSessions.NonPrint)
    ensures forall m1, m2 :: FileTypeOf(m1) == FileTypeOf(m2) ==> m1 == m2
  {
  }

  /** `ProtocolConfig`. */
  datatype ProtocolConfig = ProtocolConfig(insecureSkipVerify: bool)

  datatype Client =
    | Ftp(ftp: FtpSessions.FtpSession)
    | Ftps(ftps: FtpSessions.FtpSession)
    | Sftp(sftp: Sftp.SftpClient)
  {
    function ProtocolOf(): Protocol {
      match this
      case Ftp(_) => Protocol.Ftp
      case Ftps(_) => Protocol.Ftps
      case Sftp(_) => Protocol.Sftp
    }

    function ServerOf(): Server {
      match this
      case Ftp(s) => s.server
      case Ftps(s) => s.server
      case Sftp(s) => s.server
    }

    function Obj(): object {
      match this
      case Ftp(s) => s
      case Ftps(s) => s
      case Sftp(s) => s
    }

    ghost predicate Live()
      reads Obj()
    {
      match this
      case Ftp(s) => s.live
      case Ftps(s) => s.live
      case Sftp(s) => s.live
    }

    /** The directory file names are taken in. */
    function Dir(): string
      reads Obj()
    {
      match this
      case Ftp(s) => s.cwd
      case Ftps(s) => s.cwd
      case Sftp(s) => s.currentDir
    }

    /** The server path a file name refers to. */
    function PathOf(name: string): string
      reads Obj()
    {
      Resolve(Dir(), name)
    }

    /** The credential `login` presents. */
    function CredentialOf(password: string): Credential {
      match this
      case Sftp(s) => s.auth
      case _ => Password(password)
    }

    /** Whether `cwd(path)` is accepted from the current state by a server that answers. */
    predicate CwdAccepted(path: string)
      reads Obj(), ServerOf()
    {
      match this
      case Sftp(s) => s.server.StatOf(path).Some?
      case _ =>
        var t := FtpSessions.CwdTarget(Dir(), path);
        t !in ServerOf().files && t in ServerOf().dirs
    }

    /** The directory `cwd(path)` moves to. */
    function CwdResult(path: string): string
      reads Obj()
    {
      CwdResultOver(ProtocolOf(), Dir(), path)
    }

    /** The names a listing reply carries. */
    function ListingNames(entries: seq<DirEntry>): seq<string> {
      ListingNamesOver(ProtocolOf(), entries)
    }

    /** The timestamp `mdtm` reports for a stored mtime. */
    function MtimeReply(m: int): int {
      MtimeReplyOver(ProtocolOf(), m)
    }

    /** What `size` reports for `path`, if anything. */
    function SizeReply(path: string): Option<nat>
      reads ServerOf()
    {
      SizeReplyOver(ProtocolOf(), ServerOf(), ServerOf().files, path)
    }
  }

  /** The directory `cwd(path)` over `proto` moves to from `dir`; SFTP takes `path` as it is. */
  function CwdResultOver(proto: Protocol, dir: string, path: string): string {
    if proto == Protocol.Sftp then path else FtpSessions.CwdTarget(dir, path)
  }

  /** The names a listing reply over `proto` carries. */
  function ListingNamesOver(proto: Protocol, entries: seq<DirEntry>): seq<string> {
    if proto == Protocol.Sftp then Sftp.FileNames(entries) else FtpSessions.NameList(entries)
  }

  /** The timestamp `mdtm` over `proto` reports for a stored mtime; SFTP reinterprets it as signed. */
  function MtimeReplyOver(proto: Protocol, m: int): int {
    if proto == Protocol.Sftp then Sftp.AsI64(m) else m
  }

  /** What `size` over `proto` reports for `path` on `server` while its store is `store`. */
  function SizeReplyOver(proto: Protocol, server: Server, store: map<string, seq<byte>>, path: string): Option<nat> {
    if proto == Protocol.Sftp then
      match server.StatIn(store, path)
      case None => None
      case Some(st) => Some(st.size.GetOr(0))
    else if path in store then Some(|store[path]|)
    else None
  }

  /**
   * `Client::connect`: the variant is the one `proto` names, the FTP clients
   * receive the certificate flag unchanged, and the SFTP client receives the
   * credentials.
   */
  method Connect(proto: Protocol, server: Server, insecureSkipVerify: bool,
                 password: Option<string>, keyfile: Option<string>, passphrase: Option<string>)
    returns (r: Result<Client, FtpError>)
    modifies server`sessionsOpened
    ensures r.Ok? ==> r.value.ProtocolOf() == proto && r.value.ServerOf() == server
    ensures r.Ok? ==> fresh(r.value.Obj()) && r.value.Live() && r.value.Dir() == "/"
    ensures r.Ok? && r.value.Ftp? ==> !r.value.ftp.secure && r.value.ftp.skipVerify == insecureSkipVerify
    ensures r.Ok? && r.value.Ftps? ==> r.value.ftps.secure && r.value.ftps.skipVerify == insecureSkipVerify
    ensures r.Ok? && r.value.Sftp? ==> Sftp.SelectAuth(password, keyfile, passphrase) == Ok(r.value.sftp.auth)
    ensures server.sessionsOpened == old(server.sessionsOpened) + (if r.Ok? then 1 else 0)
  {
    var config := ProtocolConfig(insecureSkipVerify);
    match proto
    case Ftp =>
      var s := FtpSessions.FtpSession.Connect(server, false, config.insecureSkipVerify);
      r := if s.Ok? then Ok(Client.Ftp(s.value)) else Err(s.error);
    case Ftps =>
      var s := FtpSessions.FtpSession.Connect(server, true, config.insecureSkipVerify);
      r := if s.Ok? then Ok(Client.Ftps(s.value)) else Err(s.error);
    case Sftp =>
      var s := Sftp.SftpClient.Connect(server, password, keyfile, passphrase);
      r := if s.Ok? then Ok(Client.Sftp(s.value)) else Err(s.error);
  }

  method Login(c: Client, user: string, password: string) returns (r: Result<(), FtpError>)
    requires c.Live()
    modifies c.ServerOf()`clock
    ensures c.ServerOf().clock == old(c.ServerOf().clock) + 1
    ensures r.Ok? <==> Admits(c.ServerOf().fault(old(c.ServerOf().clock))) && (user, c.CredentialOf(password)) in c.ServerOf().accounts
  {
    match c
    case Ftp(s) => r := s.Login(user, password);
    case Ftps(s) => r := s.Login(user, password);
    case Sftp(s) => r := s.Login(user, password);
  }

  method Cwd(c: Client, path: string) returns (r: Result<(), FtpError>)
    requires c.Live()
    modifies c.Obj(), c.ServerOf()`clock
    ensures c.Live()
    ensures c.ServerOf().clock == old(c.ServerOf().clock) + 1
    ensures r.Ok? <==> Admits(c.ServerOf().fault(old(c.ServerOf().clock))) && old(c.CwdAccepted(path))
    ensures c.Dir() == if r.Ok? then old(c.CwdResult(path)) else old(c.Dir())
    ensures c.Ftp? ==> c.ftp.fileType == old(c.ftp.fileType)
    ensures c.Ftps? ==> c.ftps.fileType == old(c.ftps.fileType)
  {
    match c
    case Ftp(s) => r := s.Cwd(path);
    case Ftps(s) => r := s.Cwd(path);
    case Sftp(s) => r := s.Cwd(path);
  }

  /** `transfer_type`: an FTP server is sent the converted type; an SFTP client does nothing. */
  method TransferType(c: Client, mode: TransferMode) returns (r: Result<(), FtpError>)
    requires c.Live()
    modifies c.Obj(), c.ServerOf()`clock
    ensures c.Live() && c.Dir() == old(c.Dir())
    ensures c.Sftp? ==> r == Ok(()) && c.ServerOf().clock == old(c.ServerOf().clock)
    ensures !c.Sftp? ==> c.ServerOf().clock == old(c.ServerOf().clock) + 1
    ensures !c.Sftp? ==> (r.Ok? <==> Admits(c.ServerOf().fault(old(c.ServerOf().clock))))
    ensures c.Ftp? && r.Ok? ==> c.ftp.fileType == FileTypeOf(mode)
    ensures c.Ftps? && r.Ok? ==> c.ftps.fileType == FileTypeOf(mode)
  {
    match c
    case Ftp(s) => r := s.TransferType(FileTypeOf(mode));
    case Ftps(s) => r := s.TransferType(FileTypeOf(mode));
    case Sftp(s) => r := s.TransferType();
  }

  /** `nlst(None)`: the current directory's listing. */
  method Nlst(c: Client) returns (r: Result<seq<string>, FtpError>)
    requires c.Live()
    modifies c.ServerOf()`clock
    ensures c.ServerOf().clock == old(c.ServerOf().clock) + 1
    ensures r.Ok? <==> Admits(c.ServerOf().fault(old(c.ServerOf().clock))) && c.Dir() in c.ServerOf().listings
    ensures r.Ok? ==> r.value == c.ListingNames(c.ServerOf().listings[c.Dir()])
  {
    match c
    case Ftp(s) => r := s.Nlst(None);
    case Ftps(s) => r := s.Nlst(None);
    case Sftp(s) => r := s.Nlst(None);
  }

  method Mdtm(c: Client, name: string) returns (r: Result<int, FtpError>)
    requires c.Live()
    modifies c.ServerOf()`clock
    ensures c.ServerOf().clock == old(c.ServerOf().clock) + 1
    ensures r.Ok? <==> Admits(c.ServerOf().fault(old(c.ServerOf().clock))) && c.PathOf(name) in c.ServerOf().files && c.PathOf(name) in c.ServerOf().mtimes
    ensures r.Ok? ==> r.value == c.MtimeReply(c.ServerOf().mtimes[c.PathOf(name)])
  {
    match c
    case Ftp(s) => r := s.Mdtm(name);
    case Ftps(s) => r := s.Mdtm(name);
    case Sftp(s) => r := s.Mdtm(name);
  }

  method Size(c: Client, name: string) returns (r: Result<nat, FtpError>)
    requires c.Live()
    modifies c.ServerOf()`clock
    ensures c.ServerOf().clock == old(c.ServerOf().clock) + 1
    ensures r.Ok? <==> Admits(c.ServerOf().fault(old(c.ServerOf().clock))) && c.SizeReply(c.PathOf(name)).Some?
    ensures r.Ok? ==> r.value == c.SizeReply(c.PathOf(name)).value
  {
    match c
    case Ftp(s) => r := s.Size(name);
    case Ftps(s) => r := s.Size(name);
    case Sftp(s) => r := s.Size(name);
  }

  method Retr(c: Client, name: string) returns (r: Result<seq<byte>, FtpError>)
    requires c.Live()
    modifies c.ServerOf()`clock
    ensures c.ServerOf().clock == old(c.ServerOf().clock) + 1
    ensures r.Ok? <==> Admits(c.ServerOf().fault(old(c.ServerOf().clock))) && c.PathOf(name) in c.ServerOf().files
    ensures r.Ok? ==> r.value == c.ServerOf().files[c.PathOf(name)]
  {
    match c
    case Ftp(s) => r := s.Retr(name);
    case Ftps(s) => r := s.Retr(name);
    case Sftp(s) => r := s.Retr(name);
  }

  method PutFile(c: Client, name: string, data: seq<byte>) returns (r: Result<nat, FtpError>)
    requires c.Live()
    modifies c.ServerOf()`clock, c.ServerOf()`files
    ensures c.ServerOf().clock == old(c.ServerOf().clock) + 1
    ensures c.ServerOf().files == AfterWrite(old(c.ServerOf().files), c.ServerOf().fault(old(c.ServerOf().clock)), c.PathOf(name), data)
    ensures r.Ok? <==> WriteReported(c.ServerOf().fault(old(c.ServerOf().clock)))
    ensures r.Ok? ==> r.value == |data|
  {
    match c
    case Ftp(s) => r := s.PutFile(name, data);
    case Ftps(s) => r := s.PutFile(name, data);
    case Sftp(s) => r := s.PutFile(name, data);
  }

  method Rename(c: Client, src: string, dst: string) returns (r: Result<(), FtpError>)
    requires c.Live()
    modifies c.ServerOf()`clock, c.ServerOf()`files
    ensures c.ServerOf().clock == old(c.ServerOf().clock) + 1
    ensures r.Ok? <==> Admits(c.ServerOf().fault(old(c.ServerOf().clock))) && old(c.ServerOf().CanRename(c.PathOf(src), c.PathOf(dst)))
    ensures c.ServerOf().files == if r.Ok? then (old(c.ServerOf().files) - {c.PathOf(src)})[c.PathOf(dst) := old(c.ServerOf().files)[c.PathOf(src)]] else old(c.ServerOf().files)
  {
    match c
    case Ftp(s) => r := s.Rename(src, dst);
    case Ftps(s) => r := s.Rename(src, dst);
    case Sftp(s) => r := s.Rename(src, dst);
  }

  method Rm(c: Client, name: string) returns (r: Result<(), FtpError>)
    requires c.Live()
    modifies c.ServerOf()`clock, c.ServerOf()`files
    ensures c.ServerOf().clock == old(c.ServerOf().clock) + 1
    ensures r.Ok? <==> Admits(c.ServerOf().fault(old(c.ServerOf().clock))) && c.PathOf(name) in old(c.ServerOf().files)
    ensures c.ServerOf().files == if r.Ok? then old(c.ServerOf().files) - {c.PathOf(name)} else old(c.ServerOf().files)
  {
    match c
    case Ftp(s) => r := s.Rm(name);
    case Ftps(s) => r := s.Rm(name);
    case Sftp(s) => r := s.Rm(name);
  }

  /** `quit` consumes the client: afterwards no operation's precondition holds. */
  method Quit(c: Client) returns (r: Result<(), FtpError>)
    requires c.Live()
    modifies c.Obj(), c.ServerOf()`clock, c.ServerOf()`sessionsClosed
    ensures !c.Live()
    ensures c.ServerOf().sessionsClosed == old(c.ServerOf().sessionsClosed) + 1
    ensures c.Sftp? ==> r == Ok(())
  {
    match c
    case Ftp(s) => r := s.Quit();
    case Ftps(s) => r := s.Quit();
    case Sftp(s) => r := s.Quit();
  }
}
