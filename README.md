# iftpfm2 in Dafny

A model of iftpfm2, a tool that moves files between FTP, FTPS and SFTP
servers on a schedule, and of the earlier generation of the same tool. One
configuration entry names a source and a target (protocol, host, port,
login, password, directory), a minimum age in seconds and a file name
pattern. For every entry the tool connects to both sides and lists the
source directory. For each listed name it checks for a shutdown request,
then matches the pattern and checks the age. It then downloads the file and
uploads it to the target under a temporary name, checks the size, renames
the file into place and checks the size again. If asked to, it finally
deletes the source file.

## Layout

| file | module | what it holds |
|---|---|---|
| wrappers.dfy | Wrappers | `Option` and `Result` |
| seqs.dfy | Seqs | small facts about sequences used by the proofs |
| text.dfy | Text | the Rust string and integer-parsing pieces the program uses: `split(',')`, `trim`, `starts_with`, `trim_end_matches('/')`, unsigned `FromStr`, decimal formatting |
| remote.dfy | Remote | the environment: a remote server as a class holding the files (`map<string, seq<byte>>`), modification times, directories, listings, accounts and connection outcomes; every request may fail, as decided by a fault oracle indexed by a request counter |
| sftp.dfy | Sftp | the SFTP client: authentication choice, the address-by-address connect loop, the client-side working directory and `full_path` |
| ftp_session.dfy | FtpSessions | an FTP or FTPS control connection, the server-side working directory, as the FTP and FTPS clients and the legacy `FtpStream` use it |
| protocols.dfy | Protocols | the protocol-independent `Client` that forwards every call to the client it wraps |
| shutdown.dfy | Shutdown | the shutdown request flag and signal number, as a class |
| ftp_ops.dfy | FtpOps | the per-entry transfer pipeline `transfer_files` |
| cli.dfy | Cli | the command-line parser of the current program |
| legacy_args.dfy | LegacyArgs | the legacy command-line parser `args.rs` |
| legacy_conf.dfy | LegacyConf | the legacy CSV configuration reader `conf.rs` |
| legacy_transf.dfy | LegacyTransf | the legacy transfer loop `transf.rs` |
| legacy_main.dfy | LegacyMain | the legacy single-file program `main.rs`: its parser, transfer loop and `main` |
| migrate.dfy | Migrate | the converter from the CSV configuration to JSON lines |

Servers, clocks, the process id, the pattern engine and the signal handler
are parameters. `now` is a natural number of seconds. The pattern is a
predicate `isMatch`, and whether a pattern compiles is a predicate
`compiles`. The pid is a natural number. Signal arrivals are a function from
the check number to the signal stored before that check. The servers an
entry talks to are passed in, and they stand for its host and port. They
are distinct objects.

The main safety property of the pipeline is in `FtpOps.TransferEligible`
and `FtpOps.TransferFile`. The source file is removed only when four things
hold:
- the transfer was verified;
- `delete` is set;
- the delete call succeeded;
- the target holds the final name with the downloaded length.

Where sizes are reported truly, the target also holds the whole content of
the source file. `FtpOps.TransferFiles` states what the file loop did over
the names of the source directory's listing: ghost snapshots of both stores
before the loop and after every step, and for each step `j` the predicate
`FtpOps.FileStep`, the per-file facts of `FtpOps.TransferFile` stated on
snapshots `j` and `j + 1`. `FtpOps.TransferredFromStart` turns these into
facts about the stores the loop began with: every counted transfer was of a
name that matched and was old enough, and left at its final path a file
reporting the size the source file had at the start. The source loses
exactly the paths of the names that were transferred and deleted
(`Remote.DeletedPathsIff`), and nothing without `delete`. The legacy loops
get the same record (`LegacyTransf.CopyStep`, `LegacyMain.FileStep`), with
a prefix of the source's starting content at the target for every counted
copy (`LegacyTransf.CopiedFromStart`, `LegacyMain.CountedFromStart`).

Every call of `is_shutdown_requested` is one check, and the model counts
them. `Shutdown.Quiet` counts the items a loop that checks before each item
goes on to, from the flag and the arrivals at those checks. The loops of
`ftp_ops.rs` and `main.rs` go on to exactly that many names and make exactly
one check per name plus the one that stopped them. The legacy `main` records,
for every entry, the flag and check count before and after it
(`LegacyMain.EntryChecks`): an entry is skipped exactly when its own check
sees a request, and then it makes no further check.

The legacy `main.rs` contains its own copy of the CSV reader
(`src/main.rs:153-254`). Apart from trailing commas it is the same text as
`src/conf.rs:20-60`, so `LegacyConf.ParseConfig` models both.

## Model

| member | source | states |
|---|---|---|
| Text.Split | src/conf.rs:31 | splitting on a separator always yields at least one field |
| Text.SplitFieldsFree | src/conf.rs:31 | no field produced by a split contains the separator |
| Text.JoinSplit | src/conf.rs:31 | joining the fields of a split with the separator gives back the line |
| Text.SplitJoin | src/conf.rs:31 | splitting a join of separator-free fields gives back exactly those fields |
| Text.SplitNoSep | migrate_csv_to_jsonl.rs:60 | text without the separator splits into one field, itself |
| Text.SplitAfterSep | migrate_csv_to_jsonl.rs:60 | a separator after a separator-free field ends that field and the rest is split on its own |
| Text.LeadingWhitespace | migrate_csv_to_jsonl.rs:51 | the whitespace run that trimming removes at the front is maximal |
| Text.TrailingWhitespace | migrate_csv_to_jsonl.rs:51 | the whitespace run that trimming removes at the end is maximal |
| Text.TrimShape | migrate_csv_to_jsonl.rs:51 | a trimmed line is a contiguous slice of the line, with whitespace only outside it and none at its own ends |
| Text.TrimEmptyIff | src/conf.rs:27 | a line trims to nothing exactly when every character is whitespace |
| Text.TrimNoEdges | migrate_csv_to_jsonl.rs:51 | trimming text with no whitespace at either end changes nothing |
| Text.TrailingRun | src/protocols/sftp.rs:38 | the run of a character that `trim_end_matches` removes is maximal |
| Text.ScanDigits | src/conf.rs:33 | a successful decimal scan stays within the type's maximum |
| Text.ParseUnsigned | src/conf.rs:33 | a successful unsigned parse stays within the type's maximum |
| Text.ScanDigitsIff | src/conf.rs:33 | the scan succeeds exactly on all-digit text whose value fits, and yields that value |
| Text.ParseUnsignedIff | src/conf.rs:33 | `from_str` on an unsigned type succeeds exactly on one optional `+` then digits whose value fits, and yields that value |
| Text.NatToString | src/conf.rs:33 | decimal text of a number is non-empty, all digits, and denotes that number |
| Text.ParseFormatted | src/conf.rs:33 | parsing the decimal text of a value that fits gives back the value |
| Shutdown.ShutdownState.constructor | src/shutdown.rs:8-13 | the cells start with no request and no signal, so `get_signal_type` is `None` |
| Shutdown.ShutdownState.GetSignalType | src/shutdown.rs:52-59 | `None` exactly when the stored signal number is 0, otherwise that number |
| Shutdown.ShutdownState.RequestShutdown | src/shutdown.rs:30-32 | raises the flag and leaves the signal number unchanged |
| Shutdown.ShutdownState.RequestShutdownWithSignal | src/shutdown.rs:41-44 | stores the signal number and raises the flag |
| Shutdown.ShutdownState.IsShutdownRequested | src/shutdown.rs:22-24 | returns the flag after any signal that arrived before this check; a raised flag stays raised; true exactly when a request was pending |
| Shutdown.ShutdownState.ResetForTests | src/shutdown.rs:66-69 | lowers the flag and clears the signal number |
| Shutdown.Quiet | src/ftp_ops.rs:217-221 | the number of items a loop that checks the flag before each item goes on to: at most the number of items |
| Shutdown.QuietSawNothing | src/ftp_ops.rs:217-221 | a loop that went on to any item started with the flag lowered, and no check before one of those items saw a signal |
| Shutdown.QuietStopsAtRequest | src/ftp_ops.rs:217-221 | a loop that stopped short stopped at a check that saw a request: the flag raised at the start or a signal at that check |
| Shutdown.ShutdownState.CheckBeforeItem | src/ftp_ops.rs:219-221 | the check before item `i` is one more check; it stops the loop exactly when `Quiet` ends at `i`, and the flag is then raised |
| Shutdown.ShutdownState.Finished | src/ftp_ops.rs:217-221 | a loop that stopped at a check or ran out of items went on to exactly `Quiet` items, made one check per item plus the one that stopped it, and left the flag raised exactly when it stopped early or it was raised at the start |
| Remote.StoredPrefix | src/protocols/sftp.rs:287 | whatever an upload stores is a prefix of the data sent, and a stored copy of full length is the data itself |
| Remote.ResolveShape | src/protocols/sftp.rs:37-39 | a full path is the directory with its whole run of trailing slashes removed, one `/`, then the name |
| Remote.ResolveAtRoot | src/protocols/sftp.rs:136-138 | in the login directory `/` a name resolves to `/name`, with no doubled slash |
| Remote.ResolveInjective | src/protocols/sftp.rs:37-39 | within one directory, different names resolve to different full paths |
| Remote.DeletedPathsIff | src/ftp_ops.rs:416-502 | a path is in the deleted set exactly when some step whose result removes its file had a name resolving to that path |
| Remote.KeptFromStart | src/ftp_ops.rs:416-502 | when each step keeps every file the store still holds as it was before that step, a file held at any snapshot was held, with the same content, at the first |
| Remote.DeletedPathsNone | src/ftp_ops.rs:416 | when no step's result removes a file, the deleted set is empty |
| Sftp.ConnectAddresses | src/protocols/sftp.rs:85-146 | the address loop returns the first address whose TCP connect succeeds when its session setup completes, fails at once with that setup's error otherwise, and after only TCP failures returns the last one (or `NotFound` when there was none) |
| Sftp.ScanReachesFirstTcpSuccess | src/protocols/sftp.rs:87-139 | addresses whose TCP connect fails are passed over; the first that connects decides the outcome, success or its setup error |
| Sftp.ScanAllTcpFailed | src/protocols/sftp.rs:89-95 | when every TCP connect fails, the error is the last address's |
| Sftp.ScanOkEstablished | src/protocols/sftp.rs:133-138 | a connect that succeeds is to one of the resolved addresses, and its setup completed |
| Sftp.FileNames | src/protocols/sftp.rs:206-217 | the listing has no more names than the directory has entries |
| Sftp.FileNamesIff | src/protocols/sftp.rs:205-217 | a name is listed exactly when some entry has it, is not a directory, and is neither `.` nor `..` |
| Sftp.AsI64 | src/protocols/sftp.rs:231-236 | `u64 as i64` gives the value in the signed 64-bit range congruent to the input modulo 2^64 |
| Sftp.SftpClient.Open | src/protocols/sftp.rs:133-138 | a new client keeps the server and the credential and starts in `/` |
| Sftp.SftpClient.Connect | src/protocols/sftp.rs:43-147 | neither password nor keyfile gives `InvalidInput`; a failed resolution gives its error; no addresses gives `NotFound`; otherwise the address loop decides; success opens exactly one session, in `/`, with the selected credential |
| Sftp.SftpClient.Login | src/protocols/sftp.rs:149-175 | succeeds exactly when the server admits the stored credential for the user; a failure is `PermissionDenied` |
| Sftp.SftpClient.Cwd | src/protocols/sftp.rs:177-188 | succeeds exactly when the path can be stat-ed, and only then becomes the current directory; a failure is `NotFound` |
| Sftp.SftpClient.TransferType | src/protocols/sftp.rs:190-193 | always succeeds and changes nothing |
| Sftp.SftpClient.Nlst | src/protocols/sftp.rs:195-218 | lists the given directory, or the current one, as the names of its non-directory entries; a failed read gives `Other` |
| Sftp.SftpClient.Mdtm | src/protocols/sftp.rs:220-246 | a failed stat is `NotFound`, a missing mtime `InvalidData`; otherwise the mtime reinterpreted as `i64` |
| Sftp.SftpClient.Size | src/protocols/sftp.rs:248-257 | a failed stat is `NotFound`; otherwise the size, or 0 when the stat carries none |
| Sftp.SftpClient.Retr | src/protocols/sftp.rs:259-272 | returns the file's bytes at its full path, `NotFound` when it cannot be opened |
| Sftp.SftpClient.PutFile | src/protocols/sftp.rs:274-288 | writes the data at the full path as the server stores it and reports the byte count; a refused `create` is `Other`, a failed copy keeps its own I/O error kind (`Sftp.UploadErrorKind`) |
| Sftp.UploadErrorKind | src/protocols/sftp.rs:279-286 | the error of a failed upload: `Other` when the `create` was refused, the copy's own I/O error kind when the copy failed |
| Sftp.SftpClient.Rename | src/protocols/sftp.rs:290-299 | moves the file between the two full paths exactly when the server allows it, otherwise nothing changes and the error is `Other` |
| Sftp.SftpClient.Rm | src/protocols/sftp.rs:301-309 | deletes the file at its full path exactly when it exists and the request is answered; a failure is `Other` and changes nothing |
| Sftp.SftpClient.Quit | src/protocols/sftp.rs:311-314 | always succeeds, ends the client and closes one session |
| FtpSessions.FtpScanFindsEstablished | src/protocols/ftp.rs:41-55 | the FTP connect loop succeeds exactly when some resolved address connects, whatever failed before it |
| FtpSessions.NameList | src/protocols/ftp.rs:70-72 | an `NLST` reply carries at most one name per entry, each the name of some entry |
| FtpSessions.FtpSession.Open | src/protocols/ftp.rs:45 | a new session keeps the server and the TLS settings and starts in `/` |
| FtpSessions.FtpSession.Connect | src/protocols/ftp.rs:19-56 | a failed resolution gives its error, no addresses `NotFound`; otherwise it succeeds exactly when the address loop does, opening one session in `/` |
| FtpSessions.FtpSession.Login | src/protocols/ftp.rs:58-60 | succeeds exactly when the server answers and accepts the user with that password |
| FtpSessions.FtpSession.Cwd | src/protocols/ftp.rs:62-64 | succeeds exactly into an existing directory (absolute, or relative to the current one), which becomes the current directory |
| FtpSessions.FtpSession.TransferType | src/protocols/ftp.rs:66-68 | one command; when accepted the requested type is in force from then on, otherwise nothing changes |
| FtpSessions.FtpSession.Nlst | src/protocols/ftp.rs:70-72 | the names of the listed directory's entries, or an error when it cannot be read |
| FtpSessions.FtpSession.Mdtm | src/protocols/ftp.rs:74-76 | the modification time of an existing file that has one, before the epoch included, otherwise an error |
| FtpSessions.FtpSession.Size | src/protocols/ftp.rs:78-80 | the length of an existing file, otherwise an error |
| FtpSessions.FtpSession.Retr | src/protocols/ftp.rs:82-87 | the bytes of an existing file, otherwise an error |
| FtpSessions.FtpSession.PutFile | src/protocols/ftp.rs:89-95 | stores the data as the server keeps it and reports the bytes sent, or an error |
| FtpSessions.FtpSession.Rename | src/protocols/ftp.rs:97-99 | moves the file exactly when the server allows it; otherwise nothing changes |
| FtpSessions.FtpSession.Rm | src/protocols/ftp.rs:101-103 | deletes an existing file when answered; otherwise nothing changes |
| FtpSessions.FtpSession.Quit | src/protocols/ftp.rs:105-107 | ends the session, closing it whatever the server answers |
| Protocols.FileTypeOfModes | src/protocols/mod.rs:111-118 | binary mode selects the binary type, ASCII mode ASCII with non-print format control, and the two never coincide |
| Protocols.Connect | src/protocols/mod.rs:147-167 | the client's variant is the one the protocol names; the FTP clients get the certificate flag (FTPS over TLS), the SFTP client the selected credential; success opens one session in `/` |
| Protocols.Login | src/protocols/mod.rs:169-172 | succeeds exactly when the server answers and accepts the user with the credential of that variant |
| Protocols.Cwd | src/protocols/mod.rs:174-177 | succeeds exactly when the variant's directory check passes, and then moves to the variant's target directory; the transfer type is kept |
| Protocols.TransferType | src/protocols/mod.rs:179-182 | an FTP variant sends the converted type and keeps it when accepted; SFTP sends nothing and succeeds |
| Protocols.Nlst | src/protocols/mod.rs:184-187 | the current directory's names as that variant lists them, or an error |
| Protocols.Mdtm | src/protocols/mod.rs:189-192 | the stored mtime of an existing file, as the variant reports it, or an error |
| Protocols.Size | src/protocols/mod.rs:194-197 | the size the variant reports for the file, or an error |
| Protocols.Retr | src/protocols/mod.rs:199-205 | the bytes of an existing file, or an error |
| Protocols.PutFile | src/protocols/mod.rs:207-214 | stores the data as the server keeps it and reports the byte count on success |
| Protocols.Rename | src/protocols/mod.rs:216-219 | moves the file exactly when the server allows it; otherwise nothing changes |
| Protocols.Rm | src/protocols/mod.rs:221-224 | deletes an existing file when answered; otherwise nothing changes |
| Protocols.Quit | src/protocols/mod.rs:226-229 | ends the client and closes its session |
| Cli.Step | src/cli.rs:119-218 | each step of the pass either ends it or consumes at least one word |
| Cli.ParseArgs | src/cli.rs:102-248 | the loop over the words computes exactly the reference parse: the word-by-word pass, then the configuration-file check, then the `-s`/`-l` check |
| Cli.DefaultsWithConfigOnly | src/cli.rs:103-114 | a lone non-option word gives every default (parallel 1, grace 30 seconds, no timeout) with that word as the configuration file |
| Cli.StepAppend | src/cli.rs:119-218 | a step that goes on over some words goes on the same way when more words follow |
| Cli.ScanAppend | src/cli.rs:119-218 | once a prefix of the words is read through without an error, the rest is read from the options it left |
| Cli.StopAfterPrefix | src/cli.rs:121-128 | a help or version word ends the pass after any prefix read through without an error, whatever follows |
| Cli.ParseStops | src/cli.rs:121-128 | `-h` gives `HelpRequested` and `-v` gives `VersionRequested` after any prefix read through without an error (options with values and the configuration file included); later words are not examined |
| Cli.DanglingValue | src/cli.rs:131-136 | a value-taking option as the last word, after any prefix read through without an error, is a `MissingArgument` for that option |
| Cli.NoDigitsNoNumber | src/cli.rs:145-149 | a word with no digit never parses as an unsigned number |
| Cli.NonNumericValue | src/cli.rs:145-174 | a numeric option (`-p`, `-g`, `-t`, `--ram-threshold`) whose value has no digit is an `InvalidArgument`, whatever follows |
| Cli.TimeoutValue | src/cli.rs:164-182 | `-t 0` is rejected; `-t n` for a positive `n` sets the timeout to `n` and the pass continues |
| Cli.RamThresholdValue | src/cli.rs:197-208 | `--ram-threshold n` is accepted for every `n`, zero included |
| Cli.FreeWord | src/cli.rs:209-217 | the first free word becomes the configuration file; a second one is an `UnexpectedArgument` |
| Cli.ConfigBeforeExclusivity | src/cli.rs:221-232 | for every word list the pass accepts: no configuration file gives `MissingArgument` whatever the `-s`/`-l` options; with one, `MutuallyExclusiveFlags` is the result exactly when both `-s` and `-l` were given |
| Cli.ScanTimeoutPositive | src/cli.rs:175-181 | the pass never leaves a zero timeout |
| Cli.ParseSuccess | src/cli.rs:221-247 | a successful parse names a configuration file, never has both `-s` and `-l`, and never has a zero timeout |
| Cli.SetValueWithDelete | src/cli.rs:129 | a value-taking option acts the same whether or not `delete` is set |
| Cli.StepWithDelete | src/cli.rs:129 | one step from options with `delete` set is the same step with `delete` set |
| Cli.DeleteIndependent | src/cli.rs:129 | starting the pass with `delete` set gives the same pass with `delete` set, errors included |
| Cli.LeadingDelete | src/cli.rs:129 | a leading `-d` gives the parse of the remaining words with `delete` set |
| LegacyArgs.Step | src/args.rs:21-38 | each pass of the loop either stops the process or consumes at least one word |
| LegacyArgs.ParseArgs | src/args.rs:11-51 | the loop computes exactly the reference parse: the walk over the words, then the missing-file exit and the pattern default |
| LegacyArgs.StepAppend | src/args.rs:21-38 | a step that continues on some words continues the same way when more words follow |
| LegacyArgs.WalkAppend | src/args.rs:21-38 | once a prefix of the words has been walked through, the rest is walked from the state it left |
| LegacyArgs.HelpAndVersionExit | src/args.rs:23-30 | `-h` and `-v` end the process with status 0 at once, whatever follows |
| LegacyArgs.DanglingValue | src/args.rs:32-33 | `-l` or `-x` as the last word panics with that option's message |
| LegacyArgs.LastPositionalWins | src/args.rs:34-36 | every positional word replaces the configuration file name, so the last one is used |
| LegacyArgs.OnlyDeleteFlags | src/args.rs:31 | a run of `-d` words never names a configuration file |
| LegacyArgs.NoConfigExits | src/args.rs:40-44 | without a configuration file the process prints the usage and exits with status 1 |
| LegacyArgs.PatternDefault | src/args.rs:46-48 | for every word list that walks cleanly and names a configuration file, the parse keeps the walk's options and the pattern given, or `*.xml` when none was; a parse of words without `-x` always has `*.xml` |
| LegacyArgs.PatternGiven | src/args.rs:33 | after any cleanly walked prefix, `-x e` followed by words without `-x` sets the pattern of a successful parse to `e` |
| LegacyArgs.WalkStopsUnparsed | src/args.rs:21-38 | a walk ends early only with an exit or a panic, never with a parse result |
| LegacyArgs.WalkKeepsExt | src/args.rs:33 | a walk over words without `-x` keeps the pattern it started with |
| LegacyConf.NoProblemFrom | src/conf.rs:31-42 | a line has no problem from field `k` on exactly when every field from `k` on is present and, where numeric, parses |
| LegacyConf.Number | src/conf.rs:33 | a parsed port or age stays within its type's maximum |
| LegacyConf.ConfigsAppend | src/conf.rs:25-58 | reading two runs of lines one after the other: the first error wins, otherwise the entries are concatenated |
| LegacyConf.NumberField | src/conf.rs:33 | a numeric field that parses stays within its type's maximum |
| LegacyConf.ParseLine | src/conf.rs:31-55 | reading the fields of one line gives exactly the reference entry: the first missing or malformed field's error, or the eleven values |
| LegacyConf.ParseConfig | src/conf.rs:20-58 | the loop over the lines gives exactly the reference reading: comment and blank lines skipped, the first bad line's error returned at once, else the entries in order |
| LegacyConf.FirstProblemIsFirst | src/conf.rs:31-42 | the error of a line is that of its first unacceptable field |
| LegacyConf.EntryFailsAtFirst | src/conf.rs:31-42 | a line whose first unacceptable field is at position `bad` fails with that field's error |
| LegacyConf.TooFewFields | src/conf.rs:31-42 | a line whose fields all parse but are too few fails naming the first field that is missing |
| LegacyConf.EntryAccepted | src/conf.rs:31-55 | a line is accepted exactly when it has eleven fields whose ports fit `u16` and age fits `u64`, and then the entry holds those values |
| LegacyConf.FirstProblemPrefix | src/conf.rs:31-42 | fields past the eleventh never change where a line's first problem is |
| LegacyConf.ExtraFieldsIgnored | src/conf.rs:31-42 | fields past the eleventh are ignored: a line with more fields reads as its first eleven |
| LegacyConf.Kept | src/conf.rs:27-29 | the lines read as entries are a subsequence of the file's lines |
| LegacyConf.ConfigsOfKept | src/conf.rs:25-58 | a file reads without error exactly when every line not skipped is an entry, and then gives those entries, one per kept line, in order |
| LegacyConf.IndentedComment | src/conf.rs:27 | `#` counts only in the first column: an indented comment line without a comma is read as an entry and fails on its missing port |
| LegacyConf.FieldsOf | src/conf.rs:6-18 | an entry is written as exactly eleven fields |
| LegacyConf.FormatNotSkipped | src/conf.rs:27 | the line written for a writable entry is not skipped on reading |
| LegacyConf.FormatRoundTrip | src/conf.rs:31-55 | reading the line written for a writable entry gives back that entry |
| LegacyConf.FormatAll | src/conf.rs:25-58 | one line is written per entry |
| LegacyConf.ConfigsRoundTrip | src/conf.rs:20-58 | a file written from writable entries, one line each, reads back as exactly those entries in order |
| Migrate.HexValue | migrate_csv_to_jsonl.rs:74 | a hexadecimal digit has a value below 16 |
| Migrate.Hex4 | migrate_csv_to_jsonl.rs:74 | four hexadecimal digits denote a value below 0x10000 |
| Migrate.DecodeEscapeChar | migrate_csv_to_jsonl.rs:74-89 | a JSON reader turns one escaped character back into that character and reads the rest as before |
| Migrate.EscapeRoundTrip | migrate_csv_to_jsonl.rs:74-89 | every string, once escaped, is read back by a JSON reader as exactly that string |
| Migrate.EscapePlain | migrate_csv_to_jsonl.rs:75-89 | a string with no quote, backslash or control character is escaped as itself |
| Migrate.AsWrittenRegexpInvalid | migrate_csv_to_jsonl.rs:75-89 | as written, the pattern `.*\.xml` is placed verbatim between quotes, and that string body is not valid JSON |
| Migrate.ConvertReadsBack | migrate_csv_to_jsonl.rs:75-89 | with escaping, every quoted field of the object reads back as exactly the field |
| Migrate.ConvertPlain | migrate_csv_to_jsonl.rs:75-89 | where no quoted field needs escaping, the corrected line is exactly the line as written |
| Migrate.Run | migrate_csv_to_jsonl.rs:11-111 | anything but an input and an output name gives the usage exit; otherwise the loop yields the reference output lines, the warnings, and as the count the number of output lines |
| Migrate.OneLine | migrate_csv_to_jsonl.rs:51-91 | a blank or comment line is copied untrimmed; a line of other than twelve fields gives a warning with line number 1 and its field count; a twelve-field line gives its object |
| Migrate.OutputAppend | migrate_csv_to_jsonl.rs:42-92 | the output for two runs of lines is the output of each, in order |
| Migrate.EveryLineAccounted | migrate_csv_to_jsonl.rs:42-92 | every input line gives exactly one output line or one warning |
| Migrate.WarningsNumbered | migrate_csv_to_jsonl.rs:62-70 | each warning names, counting from 1, an input line that was dropped with that field count, and the warnings come in increasing line order |
| LegacyTransf.Relay | src/transf.rs:68-94 | only the target file of that name changes; a failed download changes nothing on the target; a reported upload leaves a prefix of the source file there; the source loses exactly that file, and only after a reported download and upload with `delete` set |
| LegacyTransf.MoveFile | src/transf.rs:62-94 | the target file is removed first, so after a failed download or upload it is either gone or as before; a copy leaves a prefix of the source file on the target; the source file is deleted only after a copy with `delete` set |
| LegacyTransf.StepRecorded | src/transf.rs:62-95 | recording a step keeps the run and the source equal to its start less the deleted paths |
| LegacyTransf.NothingDeletedWithoutDelete | src/transf.rs:85-94 | without `delete` no recorded step removes a source file |
| LegacyTransf.SourceOnlyShrinks | src/transf.rs:85-94 | every file the source holds at any snapshot it held, with the same content, when the loop began |
| LegacyTransf.CopiedFromStart | src/transf.rs:68-94 | each reported copy left at the target name, right after its step, a prefix of what the source held under that name at the start |
| LegacyTransf.LoopBody | src/transf.rs:62-94 | one iteration extends the snapshot record by one `CopyStep` and keeps the source equal to its start less the deleted paths |
| LegacyTransf.RunLoop | src/transf.rs:62-95 | every listed name is attempted in order, each a `CopyStep` between consecutive snapshots from the stores before the loop to the stores after it; the source then lacks exactly the deleted paths; without `delete` nothing is deleted |
| LegacyTransf.OpenSide | src/transf.rs:10-28 | connecting, logging in and changing directory touch no file; only a failed connect or directory change fails, a failed login is logged and passed over; success leaves the session in the directory the change leads to from `/` |
| LegacyTransf.OpenBoth | src/transf.rs:10-59 | source, then target, then the listing; a failure names the stage it happened at; success gives live sessions on the two servers, in the directories `cwd` leads to from `/`, and the names the source directory lists |
| LegacyTransf.TransferFiles | src/transf.rs:8-96 | a failed setup changes no file; otherwise every name the source directory lists is attempted, each a `CopyStep` of the entry's directories between snapshots from the stores before the call to the stores after it, and the source loses exactly the files copied and deleted, none without `delete` |
| LegacyMain.Step | src/main.rs:70-88 | a step that goes on consumes at least one word, so the walk over the words ends |
| LegacyMain.ParseArgs | src/main.rs:59-102 | the loop over the words gives exactly the outcome of the walk-then-finish definition: exit 0 on `-h`/`-v`, a panic on a missing or non-numeric value, exit 1 without a configuration file, `.*\.xml` as the default pattern |
| LegacyMain.StepAppend | src/main.rs:70-88 | one step over a prefix that walks cleanly does not look at the words after it |
| LegacyMain.WalkAppend | src/main.rs:70-89 | walking `a + b` is walking `b` from the state the walk over `a` reached |
| LegacyMain.LastPositionalWins | src/main.rs:85-87 | after any cleanly walked prefix, a final positional word is taken as the configuration file |
| LegacyMain.ParallelValue | src/main.rs:64-99 | a lone configuration file gives no deletion, no log file, pattern `.*\.xml`, one thread, no shuffling; a `-p` value that is not a number panics |
| LegacyMain.DanglingValue | src/main.rs:81-83 | `-l`, `-x` or `-p` as the last word panics |
| LegacyMain.HelpAndVersionExit | src/main.rs:72-79 | `-h` or `-v` after a cleanly walked prefix exits with status 0, whatever follows |
| LegacyMain.Screen | src/main.rs:572-641 | a name is skipped as not matching exactly when the pattern rejects it; a name let through exists with a modification time that is not in the future and at least the configured age old; the future and too-young skips see exactly those times |
| LegacyMain.SetBinary | src/main.rs:651-669 | binary mode is asked of the source, then of the target; success leaves both in binary mode, a failure names the side |
| LegacyMain.TransferFile | src/main.rs:572-709 | skipped names touch neither server; the filters, the target removal, binary mode and the relay in that order; a counted file leaves a prefix of the source data on the target in binary mode; the source loses the file only after a copy with `delete` set |
| LegacyMain.StepRecorded | src/main.rs:564-710 | recording a step keeps the run and the source equal to its start less the deleted paths |
| LegacyMain.NothingDeletedWithoutDelete | src/main.rs:699-709 | without `delete` no recorded step removes a source file |
| LegacyMain.SourceOnlyShrinks | src/main.rs:699-709 | every file the source holds at any snapshot it held, with the same content, when the loop began |
| LegacyMain.CountedFromStart | src/main.rs:572-709 | each counted upload was of a name the pattern matched and old enough by its modification time, and left at the target name, right after its step, a prefix of what the source held under that name at the start |
| LegacyMain.LoopBody | src/main.rs:572-709 | one iteration extends the snapshot record by one `FileStep`, reports a non-match exactly when the pattern rejects the name, and keeps the source equal to its start less the deleted paths |
| LegacyMain.Iterate | src/main.rs:566-709 | the check before name `i` either stops the loop with the record unchanged, or passes and the record grows by that name's `FileStep` |
| LegacyMain.CountCopied | src/main.rs:675 | the number of counted results is at most the number of names attempted |
| LegacyMain.RunLoop | src/main.rs:564-710 | names are attempted in order, exactly as many as `Quiet` counts for the checks made from the loop's start: all of them, or those before the first check that sees a request; one check per attempted name plus the one that stopped the loop, and the flag raised at the end exactly when it was at the start or the loop stopped early; every attempted name is a `FileStep` between consecutive snapshots from the stores before the loop to the stores after it; the count is the number of counted results; non-matching names are exactly those the pattern rejects; the source loses exactly the deleted paths, none without `delete` |
| LegacyMain.TransferFiles | src/main.rs:445-718 | a request pending at the start returns 0 after that one check, with the flag raised; any other stage before the loop made that one check only, with the flag lowered; a loop that ran made its checks as `RunLoop` states, from the one after; a failed setup or a missing pattern returns 0 with no file changed; a pattern that does not compile panics; otherwise the loop ran over the source directory's listed names with the entry's pattern and age, each step a `FileStep` between snapshots from the stores before the call to the stores after it, and returns their counted results, at most the number of listed names; the source loses exactly the deleted paths |
| LegacyMain.SumZeroTail | src/main.rs:983-996 | zero counts at the end leave the total as it was before them |
| LegacyMain.SumNonNegative | src/main.rs:995 | a total of counts that are never negative is not negative |
| LegacyMain.TotalAfterShutdown | src/main.rs:987-995 | once an entry has seen a shutdown request, the total is what the entries before it transferred |
| LegacyMain.RunUnstopped | src/main.rs:445-718 | `transfer_files` after a check that saw no request: it panics exactly at the stage of a pattern that does not compile; the checks it made are those `RunChecks` states; otherwise its count is non-negative and that of its traced file loop |
| LegacyMain.RunEntry | src/main.rs:987-993 | the entry stops exactly when a request is pending at its check, and then gives 0, does not panic and makes no further check; otherwise it runs `transfer_files`, whose count and trace are those of its file loop, or the panic on a pattern that does not compile; the checks it made are those `EntryChecks` states |
| LegacyMain.ChecksSnoc | src/main.rs:983-996 | recording an entry's checks after those of the entries before it keeps every entry's checks recorded |
| LegacyMain.PendingPersists | src/main.rs:987-993 | once an entry's check has seen a request, every later entry's check sees one too |
| LegacyMain.FoldSettled | src/main.rs:983-996 | from the recorded checks: an entry that saw a request contributes 0, every later entry sees one too, and a request pending at the start makes every count 0 |
| LegacyMain.TransferAll | src/main.rs:983-996 | every entry's count is non-negative; an entry that saw a request contributes 0 and so does every later one; a request pending at the start makes every count 0; every entry's count is that of its traced file loop over its source's listing; the checks each entry made, from the flag and the check count before it to those after it, are those `EntryChecks` states, so `pending[i]` is whether a request was pending at entry `i`'s check; the result is the sum, or the worker's panic on a pattern that does not compile |
| FtpOps.TmpNameDistinct | src/ftp_ops.rs:299 | the temporary name `.name.pid.tmp` is never the final name, and two files of one process never share a temporary name |
| FtpOps.AgreeAway | src/ftp_ops.rs:321-537 | a store changed only at the temporary path is unchanged at every other path, the final one included |
| FtpOps.Screen | src/ftp_ops.rs:227-296 | a name is skipped as not matching exactly when the pattern rejects it; a name let through matches, exists and has a modification time at or after the epoch, not in the future and at least the configured age old; each age skip sees exactly the time that causes it |
| FtpOps.Upload | src/ftp_ops.rs:321-538 | only the temporary path changes; a pass leaves a prefix of the data there whose reported size is the full length; a failure is an upload or a verification failure |
| FtpOps.Store | src/ftp_ops.rs:321 | `put_file` to the temporary name changes only that path, and a reported upload leaves a prefix of the data there |
| FtpOps.Discard | src/ftp_ops.rs:537 | removing the temporary file, whatever the answer, changes no other path |
| FtpOps.RenameWithRetry | src/ftp_ops.rs:378-447 | success moves the temporary file to the final name and removes the temporary path; failure leaves the store as it was or without the final name |
| FtpOps.Place | src/ftp_ops.rs:375-518 | nothing changes away from the two paths; after a failed rename the final name is gone or as before; otherwise the temporary content is at the final name and the temporary path is gone; a transfer reports the expected size at the final name |
| FtpOps.Deliver | src/ftp_ops.rs:312-539 | nothing changes away from the two paths; upload and verification failures leave the final name as it was; a completed rename leaves a prefix of the data at the final name and no temporary file; a transfer reports the full size there |
| FtpOps.Fetch | src/ftp_ops.rs:298-550 | the destination changes only as the outcome allows; a transfer's final file reports the source file's size and, where sizes are reported truly, holds exactly the source file's content |
| FtpOps.TransferEligible | src/ftp_ops.rs:298-550 | as Fetch, and the source loses its file exactly when the transfer was verified, `delete` is set and the delete succeeded |
| FtpOps.TransferFile | src/ftp_ops.rs:227-550 | the filters, then the transfer: skipped names change neither server; attempted names passed every filter; the destination changes only at the two names; the source loses the file only after a verified transfer with `delete` set |
| FtpOps.CountTransferred | src/ftp_ops.rs:414-485 | the number of `Transferred` outcomes is at most the number of names attempted |
| FtpOps.QuitBoth | src/ftp_ops.rs:552-553 | each server sees its session end once |
| FtpOps.OpenSide | src/ftp_ops.rs:66-165 | no file changes; a failed login or directory change ends the session it opened, a failed connect opens none; success gives a live client of the asked protocol on that server with one more session open, in the directory the change leads to from `/` |
| FtpOps.OpenBoth | src/ftp_ops.rs:66-165 | the source side, then the target side; a failed target ends the source session again; no file changes; failures name their side and stage; success gives two live clients of the configured protocols on the two servers, in the directories `cwd` leads to from `/`, with one more session open on each |
| FtpOps.Step | src/ftp_ops.rs:227-550 | one iteration is a `FileStep` from the stores before it to the stores after it: the match, the filters, the destination's change, the reported size of each transfer, the true content where sizes are true, and the source's loss of the file exactly when it was transferred and deleted |
| FtpOps.StepsSnoc | src/ftp_ops.rs:217-551 | a run of recorded steps followed by one more step is a run one step longer |
| FtpOps.StepRecorded | src/ftp_ops.rs:217-551 | recording a step keeps the run and the source equal to its start less the deleted paths |
| FtpOps.NothingDeletedWithoutDelete | src/ftp_ops.rs:417-502 | without `delete` no recorded step removes a source file |
| FtpOps.SourceOnlyShrinks | src/ftp_ops.rs:417-502 | every file the source holds at any snapshot it held, with the same content, when the loop began |
| FtpOps.TransferredFromStart | src/ftp_ops.rs:298-485 | each `Transferred` step was of a matching name old enough by its modification time whose file the source held at the start, and left at the final path a file reporting that starting size, and holding that content where sizes are true |
| FtpOps.LoopBody | src/ftp_ops.rs:227-550 | one iteration extends the snapshot record by one `FileStep` and keeps the source equal to its start less the deleted paths |
| FtpOps.Iterate | src/ftp_ops.rs:218-550 | the check before name `i` either stops the loop with the record unchanged, or passes and the record grows by that name's `FileStep`; both sessions stay open |
| FtpOps.RunLoop | src/ftp_ops.rs:217-551 | names are attempted in order, exactly as many as `Quiet` counts for the checks made from the loop's start: all of them, or those before the first check that sees a request; one check per attempted name plus the one that stopped the loop, and the flag raised at the end exactly when it was at the start or the loop stopped early; every attempted name has its `FileStep` between consecutive snapshots, the first being the stores before the loop and the last the stores after it; the count is the number of `Transferred` outcomes; the source loses exactly the deleted paths, none without `delete` |
| FtpOps.Prepare | src/ftp_ops.rs:167-203 | binary mode on the source, then the target, then the listing, with both directories kept; the first failure names its stage; success gives the names of the source directory's listing |
| FtpOps.RunOpen | src/ftp_ops.rs:167-561 | both sessions are ended on every path; a failed preparation returns 0 with no file changed and no shutdown check made; after a listing, the loop's names are the listing's names and its steps, count and deletions are those of `RunLoop` in the two open directories |
| FtpOps.TransferFiles | src/ftp_ops.rs:35-562 | a request pending at the start returns 0 and opens nothing, after that one check, with the flag raised; any other stage before the loop made that one check only, with the flag lowered; a loop that ran made its checks as `RunLoop` states, from the one after; every session opened is ended on every path; a failed setup returns 0 with no file changed; the source directory is where `cwd` leads from `/`; after a listing, the loop ran over that directory's listed names, each step a `FileStep` of the entry's run between snapshots that start at the stores before the call and end at the stores after it; the count is that of `Transferred` steps, at most the number of listed names; the source loses exactly the deleted paths, none without `delete` |

## Left out

- Network, TLS and SSH: the TCP connect, the TLS handshake (and the certificate verifier that accepts everything), the SSH handshake and the timeouts. A server's connection outcomes and its fault oracle stand for them.
- Regex compilation and matching, chrono date handling and `SystemTime::now`. They are foreign code, so the model takes a match predicate, an integer modification time and a `now` parameter. The pattern is matched against the listed name as given.
- Logging (`log_with_thread`, `log`, `set_log_file`, the log mutex): output only, and no result depends on it.
- The single-instance machinery (`instance.rs`, `src/main.rs:763-929`: lock file, Unix socket, `lsof`, `kill`): process and operating-system I/O.
- `config.rs` (the JSON-lines configuration, read by serde_json, with the pattern checked by the regex crate): foreign code. `FtpOps.Config` holds only the fields the pipeline reads.
- The rayon thread pool, its size `max(parallel, 1)` and the `-r` shuffle in the legacy `main`: concurrency. `LegacyMain.TransferAll` runs the entries one after another in the given order.
- Process exit, `print_usage` and the version text: an `Exit` outcome with a code and a message tag stands for them.
- The legacy `main` glue: setting the log file, the instance check, and the `unwrap` of the configuration parse (`src/main.rs:946-964`). The aggregation it feeds is `LegacyMain.TransferAll`.
- The `Ok(None)` answer to MDTM in the legacy loop (`src/main.rs:587`, a panic) and the parse of the time string (`src/main.rs:600-614`): the legacy client's MDTM is taken as answering an integer modification time or an error.
- The instants at which signals arrive: a function from check number to signal stands for them. A request can thus appear between any two checks, but not inside a single server call.
- Session ends in the legacy programs: `transf.rs` and the legacy `main.rs` never call `quit`, so their models open sessions and leave them open.
- The source and target of an entry are distinct server objects; the same server on both sides (aliasing) is not modelled.
- Counts are unbounded integers. The source's `i32` counter would wrap only past 2^31 files.
- The temporary name is unique within one process (`FtpOps.TmpNameDistinct`). A clash with a file that happens to be called `.name.pid.tmp` on the target is not ruled out, because the source does not rule it out either.
- SFTP paths: `full_path` is modelled as string composition. Relative directories and `..` are not normalised, as in the source.
- Sftp.SftpClient.Size: a stat without a size is reported as 0, as in the source. Servers mark such files in `sizeless`, and `FtpOps.TrueSize` makes the final-content promise conditional on it.
- The SFTP modification time arrives as `u64` and is reinterpreted as `i64` (`Sftp.AsI64`). The chrono conversion that fails for out-of-range timestamps is taken to succeed.
- The FTP client library internals (suppaftp for the current code, the `ftp` crate for the legacy code): `FtpSessions.FtpSession` stands for both. Each command is one request to the server that either succeeds as the server says or fails.
- ftps.rs: its TLS configuration is not modelled. `FtpSessions.FtpSession` carries only a `secure` flag and the `skipVerify` setting.
- `ram_threshold` and `temp_dir` are parsed by `Cli.ParseArgs` but nothing else uses them; no RAM-or-disk buffering is modelled, because none exists in the code.
- Migrate.Run: the files, `env::args()[0]` and the reader's line splitting stay outside. The tool's input is its lines and its output the lines to write. Line endings and read errors are not modelled.
- `Migrate.Run` uses the corrected, escaping conversion `Migrate.Convert`. The conversion as written is `Migrate.ConvertAsWritten`, and the finding below compares the two.
- Migrate.DecodeEscapeChar: a `\u` escape of a lone surrogate is not decoded, so the JSON reading side accepts only what the corrected writer emits together with plain characters.
- LegacyConf.ParseConfig: takes the file as its sequence of lines. Opening the file (`File::open`, src/conf.rs:21) and its error, a line that fails to read or is not UTF-8 (`line?`, src/conf.rs:26) and its error, and the splitting into lines by `BufReader::lines`, which drops each `\n` or `\r\n`, stay outside: they are file I/O, so every line the model reads has been read and has no line ending.
- LegacyConf.ExtraFieldsIgnored: stated on the list of fields that the reader takes in order (`LegacyConf.Entry`), not on a line's text, so it says: eleven or more fields followed by any more give the same entry.
- Shutdown.ShutdownState: the legacy `main.rs` has its own flag (`src/main.rs:741-760`) without a signal number. The legacy modules reuse `Shutdown.ShutdownState` and read only its flag.
- Signature drift: `transfer_files` calls `Client::connect` with five arguments (`src/ftp_ops.rs:66-72`), but `src/protocols/mod.rs:147-157` declares nine. The model follows the declaration: `FtpOps.OpenSide` passes the entry's password and no key file to `Protocols.Connect`. Host, port and timeout are carried by the server object.

## Findings

| source | as written | input that shows it | evidently intended | confidence | as-written member | corrected member |
|---|---|---|---|---|---|---|
| migrate_csv_to_jsonl.rs:75-89 | the string fields are placed verbatim between double quotes, with no JSON escaping | a line whose twelfth field is the default pattern `.*\.xml`: the output holds the string `".*\.xml"`, and `\.` is not a valid JSON escape | every string field written as a JSON string that reads back as the field | not executed | Migrate.AsWrittenRegexpInvalid | Migrate.EscapeRoundTrip |
