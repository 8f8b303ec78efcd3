/**
 * The CSV configuration reader of the first generation of the program: one
 * transfer entry per line, eleven comma-separated fields, read in a fixed
 * order with the two ports as `u16` and the minimum age as `u64`. The same
 * reader appears twice, in `conf.rs` and again inside the legacy `main.rs`.
 */
module LegacyConf {
  import opened Wrappers
  import Text
  import Seqs

  /** One transfer entry: the source side, the target side and the minimum file age in seconds. */
  datatype Config = Config(
    ipAddressFrom: string, portFrom: Text.u16, loginFrom: string, passwordFrom: string, pathFrom: string,
    ipAddressTo: string, portTo: Text.u16, loginTo: string, passwordTo: string, pathTo: string,
    age: Text.u64)

  /** The fields of a line, in the order they are read. */
  datatype Field =
    | IpAddressFrom | PortFrom | LoginFrom | PasswordFrom | PathFrom
    | IpAddressTo | PortTo | LoginTo | PasswordTo | PathTo
    | Age

  const FIELD_COUNT: nat := 11
  const FieldOrder: seq<Field> := [IpAddressFrom, PortFrom, LoginFrom, PasswordFrom, PathFrom,
                                   IpAddressTo, PortTo, LoginTo, PasswordTo, PathTo, Age]

  /**
   * Why a line is rejected; both are `ErrorKind::InvalidInput`. A missing field
   * is named; a bad number carries only the integer parse error.
   */
  datatype ConfError = MissingField(field: Field) | InvalidNumber(kind: Text.IntErrorKind)

  function FieldName(f: Field): string {
    match f
    case IpAddressFrom => "ip_address_from"
    case PortFrom => "port_from"
    case LoginFrom => "login_from"
    case PasswordFrom => "password_from"
    case PathFrom => "path_from"
    case IpAddressTo => "ip_address_to"
    case PortTo => "port_to"
    case LoginTo => "login_to"
    case PasswordTo => "password_to"
    case PathTo => "path_to"
    case Age => "age"
  }

  /** The message of the error; a bad number shows the text of `ParseIntError`. */
  function Display(e: ConfError): string {
    match e
    case MissingField(f) => "missing field: " + FieldName(f)
    case InvalidNumber(Empty) => "cannot parse integer from empty string"
    case InvalidNumber(InvalidDigit) => "invalid digit found in string"
    case InvalidNumber(PosOverflow) => "number too large to fit in target type"
  }

  /** The largest value of the field at position `k` when it is numeric: the ports are `u16`, the age `u64`. */
  function LimitAt(k: nat): Option<nat> {
    if k == 1 || k == 6 then Some(Text.U16_MAX)
    else if k == 10 then Some(Text.U64_MAX)
    else None
  }

  /** A line the reader passes over: `#` in the very first column, or nothing but whitespace. */
  predicate Skipped(line: string) {
    Text.StartsWith(line, "#") || Text.Trim(line) == []
  }

  // ---------------------------------------------------------------- reference definition

  /** Whether the field at position `k` is acceptable: present, and a number that fits if it is numeric. */
  predicate FieldOk(fields: seq<string>, k: nat) {
    k < |fields| && (LimitAt(k).None? || Text.ParseUnsigned(fields[k], LimitAt(k).value).Ok?)
  }

  /** The first of the positions `k` to 10 whose field is missing or not a number that fits, as the error it causes. */
  function FirstProblem(fields: seq<string>, k: nat): Option<ConfError>
    requires k <= FIELD_COUNT
    decreases FIELD_COUNT - k
  {
    if k == FIELD_COUNT then None
    else if k >= |fields| then Some(MissingField(FieldOrder[k]))
    else if LimitAt(k).Some? && Text.ParseUnsigned(fields[k], LimitAt(k).value).Err? then
      Some(InvalidNumber(Text.ParseUnsigned(fields[k], LimitAt(k).value).error))
    else FirstProblem(fields, k + 1)
  }

  /** Fields that make an entry: all eleven present, and the ports and the age numbers that fit. */
  predicate WellFormed(fields: seq<string>) {
    forall k :: 0 <= k < FIELD_COUNT ==> FieldOk(fields, k)
  }

  /** There is no problem from `k` on exactly when every field from `k` on is acceptable. */
  lemma {:induction false} NoProblemFrom(fields: seq<string>, k: nat)
    requires k <= FIELD_COUNT
    ensures FirstProblem(fields, k).None? <==> forall j :: k <= j < FIELD_COUNT ==> FieldOk(fields, j)
    decreases FIELD_COUNT - k
  {
    if k < FIELD_COUNT {
      NoProblemFrom(fields, k + 1);
      if forall j :: k <= j < FIELD_COUNT ==> FieldOk(fields, j) {
        assert FieldOk(fields, k);
      }
    }
  }

  /** The entry that well-formed fields describe. */
  function Record(fields: seq<string>): Config
    requires FirstProblem(fields, 0).None?
  {
    NoProblemFrom(fields, 0);
    assert FieldOk(fields, 1) && FieldOk(fields, 6) && FieldOk(fields, 10);
    Config(fields[0], Number(fields[1], Text.U16_MAX), fields[2], fields[3], fields[4],
           fields[5], Number(fields[6], Text.U16_MAX), fields[7], fields[8], fields[9],
           Number(fields[10], Text.U64_MAX))
  }

  function Number(s: string, max: nat): (n: nat)
    requires Text.ParseUnsigned(s, max).Ok?
    ensures n <= max
  {
    Text.ParseUnsigned(s, max).value
  }

  /** What one line's fields give: the first problem, or the entry. */
  function Entry(fields: seq<string>): Result<Config, ConfError> {
    if FirstProblem(fields, 0).Some? then Err(FirstProblem(fields, 0).value) else Ok(Record(fields))
  }

  /** The result of reading `lines`: the entries of the lines not skipped, in order, or the first line's error. */
  function Configs(lines: seq<string>): Result<seq<Config>, ConfError> {
    if lines == [] then Ok([])
    else
      match Configs(lines[..|lines| - 1])
      case Err(e) => Err(e)
      case Ok(cs) =>
        var line := lines[|lines| - 1];
        if Skipped(line) then Ok(cs)
        else
          match Entry(Text.Split(line, ','))
          case Err(e) => Err(e)
          case Ok(c) => Ok(cs + [c])
  }

  /** Reading two runs of lines one after the other: the first error wins, otherwise the entries are concatenated. */
  lemma {:induction false} ConfigsAppend(a: seq<string>, b: seq<string>)
    ensures Configs(a + b) == match Configs(a)
      case Err(e) => Err(e)
      case Ok(x) => (match Configs(b) case Err(e) => Err(e) case Ok(y) => Ok(x + y))
  {
    if b == [] {
      assert a + b == a;
      if Configs(a).Ok? {
        assert Configs(a).value + [] == Configs(a).value;
      }
    } else {
      var n := |b| - 1;
      ConfigsAppend(a, b[..n]);
      assert (a + b)[..|a + b| - 1] == a + b[..n];
      assert (a + b)[|a + b| - 1] == b[n];
      if Configs(a).Ok? && Configs(b[..n]).Ok? {
        var x, y := Configs(a).value, Configs(b[..n]).value;
        forall c: Config ensures x + (y + [c]) == (x + y) + [c] {
        }
      }
    }
  }

  // ---------------------------------------------------------------- the reader

  /** `fields.next().ok_or(missing field)` for the field at position `k`. */
  function TextField(fields: seq<string>, k: nat): (r: Result<string, ConfError>)
    requires k < FIELD_COUNT
  {
    if k < |fields| then Ok(fields[k]) else Err(MissingField(FieldOrder[k]))
  }

  /** The same followed by `uN::from_str` and `map_err`, for a numeric position `k`. */
  function NumberField(fields: seq<string>, k: nat): (r: Result<nat, ConfError>)
    requires k < FIELD_COUNT && LimitAt(k).Some?
    ensures r.Ok? ==> r.value <= LimitAt(k).value
  {
    if k >= |fields| then Err(MissingField(FieldOrder[k]))
    else
      match Text.ParseUnsigned(fields[k], LimitAt(k).value)
      case Err(e) => Err(InvalidNumber(e))
      case Ok(n) => Ok(n)
  }

  /** One line that is not skipped: split on `,` and read the eleven fields in order; the first failure is returned. */
  method ParseLine(line: string) returns (r: Result<Config, ConfError>)
    ensures r == Entry(Text.Split(line, ','))
  {
    var fields := Text.Split(line, ',');
    NoProblemFrom(fields, 0);
    // `split` always yields a first field, so this `next()` cannot fail
    var ipAddressFrom := fields[0];
    assert FirstProblem(fields, 0) == FirstProblem(fields, 1);
    var portFrom :- NumberField(fields, 1);
    assert FirstProblem(fields, 1) == FirstProblem(fields, 2);
    var loginFrom :- TextField(fields, 2);
    assert FirstProblem(fields, 2) == FirstProblem(fields, 3);
    var passwordFrom :- TextField(fields, 3);
    assert FirstProblem(fields, 3) == FirstProblem(fields, 4);
    var pathFrom :- TextField(fields, 4);
    assert FirstProblem(fields, 4) == FirstProblem(fields, 5);
    var ipAddressTo :- TextField(fields, 5);
    assert FirstProblem(fields, 5) == FirstProblem(fields, 6);
    var portTo :- NumberField(fields, 6);
    assert FirstProblem(fields, 6) == FirstProblem(fields, 7);
    var loginTo :- TextField(fields, 7);
    assert FirstProblem(fields, 7) == FirstProblem(fields, 8);
    var passwordTo :- TextField(fields, 8);
    assert FirstProblem(fields, 8) == FirstProblem(fields, 9);
    var pathTo :- TextField(fields, 9);
    assert FirstProblem(fields, 9) == FirstProblem(fields, 10);
    var age :- NumberField(fields, 10);
    assert FirstProblem(fields, 10) == None;
    r := Ok(Config(ipAddressFrom, portFrom, loginFrom, passwordFrom, pathFrom,
                   ipAddressTo, portTo, loginTo, passwordTo, pathTo, age));
  }

  /**
   * `parse_config` on the lines of the file: skipped lines are passed over,
   * every other line adds its entry, and the first bad line ends the read
   * with its error.
   */
  method ParseConfig(lines: seq<string>) returns (r: Result<seq<Config>, ConfError>)
    ensures r == Configs(lines)
  {
    var configs: seq<Config> := [];
    for i := 0 to |lines|
      invariant Configs(lines[..i]) == Ok(configs)
    {
      var line := lines[i];
      Seqs.PrefixSnoc(lines, i);
      LastLine(lines[..i], line);
      if Text.StartsWith(line, "#") || Text.Trim(line) == [] {
        continue;
      }
      var entry := ParseLine(line);
      if entry.Err? {
        ConfigsAppend(lines[..i + 1], lines[i + 1..]);
        Seqs.SplitAt(lines, i + 1);
        return Err(entry.error);
      }
      ConfigsLast(lines[..i], line, entry.value);
      configs := configs + [entry.value];
    }
    Seqs.Whole(lines);
    r := Ok(configs);
  }

  // ---------------------------------------------------------------- properties

  /** The error the field at position `k` causes when it is not acceptable. */
  function ErrorAt(fields: seq<string>, k: nat): ConfError
    requires k < FIELD_COUNT && !FieldOk(fields, k)
  {
    if k >= |fields| then MissingField(FieldOrder[k])
    else InvalidNumber(Text.ParseUnsigned(fields[k], LimitAt(k).value).error)
  }

  /** The error of a line is that of its first unacceptable field, found from position `k` on. */
  lemma {:induction false} FirstProblemIsFirst(fields: seq<string>, k: nat, bad: nat)
    requires k <= bad < FIELD_COUNT && !FieldOk(fields, bad)
    requires forall j :: k <= j < bad ==> FieldOk(fields, j)
    ensures FirstProblem(fields, k) == Some(ErrorAt(fields, bad))
    decreases bad - k
  {
    if k < bad {
      assert FieldOk(fields, k);
      FirstProblemIsFirst(fields, k + 1, bad);
    }
  }

  /**
   * A line fails with the error of its first unacceptable field: a missing
   * field is named, a present numeric field that does not fit its type gives
   * the integer parse error, and fields after it are never looked at.
   */
  lemma EntryFailsAtFirst(fields: seq<string>, bad: nat)
    requires bad < FIELD_COUNT && !FieldOk(fields, bad)
    requires forall j :: 0 <= j < bad ==> FieldOk(fields, j)
    ensures Entry(fields) == Err(ErrorAt(fields, bad))
  {
    FirstProblemIsFirst(fields, 0, bad);
  }

  /** A line with too few fields, all of them acceptable, fails naming the first field it lacks. */
  lemma TooFewFields(fields: seq<string>)
    requires |fields| < FIELD_COUNT
    requires forall j :: 0 <= j < |fields| ==> FieldOk(fields, j)
    ensures Entry(fields) == Err(MissingField(FieldOrder[|fields|]))
  {
    EntryFailsAtFirst(fields, |fields|);
  }

  /**
   * A line is accepted exactly when it has at least eleven fields, both ports
   * are decimal numbers up to 65535 and the age one up to u64::MAX (an
   * optional leading `+`, nothing else, no trimming); the text fields are
   * taken verbatim.
   */
  lemma EntryAccepted(fields: seq<string>)
    ensures Entry(fields).Ok? <==>
      && |fields| >= FIELD_COUNT
      && Text.ParseUnsigned(fields[1], Text.U16_MAX).Ok?
      && Text.ParseUnsigned(fields[6], Text.U16_MAX).Ok?
      && Text.ParseUnsigned(fields[10], Text.U64_MAX).Ok?
    ensures Entry(fields).Ok? ==>
      var c := Entry(fields).value;
      && c.ipAddressFrom == fields[0] && c.loginFrom == fields[2] && c.passwordFrom == fields[3] && c.pathFrom == fields[4]
      && c.ipAddressTo == fields[5] && c.loginTo == fields[7] && c.passwordTo == fields[8] && c.pathTo == fields[9]
      && Text.AllDigits(Text.UnsignedBody(fields[1])) && c.portFrom == Text.DigitsValue(Text.UnsignedBody(fields[1]))
      && Text.AllDigits(Text.UnsignedBody(fields[6])) && c.portTo == Text.DigitsValue(Text.UnsignedBody(fields[6]))
      && Text.AllDigits(Text.UnsignedBody(fields[10])) && c.age == Text.DigitsValue(Text.UnsignedBody(fields[10]))
  {
    NoProblemFrom(fields, 0);
    if |fields| >= FIELD_COUNT {
      Text.ParseUnsignedIff(fields[1], Text.U16_MAX);
      Text.ParseUnsignedIff(fields[6], Text.U16_MAX);
      Text.ParseUnsignedIff(fields[10], Text.U64_MAX);
      if !WellFormed(fields) {
        var k :| 0 <= k < FIELD_COUNT && !FieldOk(fields, k);
        assert k == 1 || k == 6 || k == 10;
      }
    } else {
      assert !FieldOk(fields, |fields|);
    }
  }

  lemma {:induction false} FirstProblemPrefix(fields: seq<string>, more: seq<string>, k: nat)
    requires |fields| >= FIELD_COUNT && k <= FIELD_COUNT
    ensures FirstProblem(fields + more, k) == FirstProblem(fields, k)
    decreases FIELD_COUNT - k
  {
    if k < FIELD_COUNT {
      assert (fields + more)[k] == fields[k];
      FirstProblemPrefix(fields, more, k + 1);
    }
  }

  /** Fields after the eleventh are never looked at: more fields at the end change nothing. */
  lemma ExtraFieldsIgnored(fields: seq<string>, more: seq<string>)
    requires |fields| >= FIELD_COUNT
    ensures Entry(fields + more) == Entry(fields)
  {
    FirstProblemPrefix(fields, more, 0);
    if FirstProblem(fields, 0).None? {
      NoProblemFrom(fields, 0);
      assert forall k :: 0 <= k < FIELD_COUNT ==> (fields + more)[k] == fields[k];
    }
  }

  /** The lines that are read, in order. */
  function Kept(lines: seq<string>): (kept: seq<string>)
    ensures |kept| <= |lines|
  {
    if lines == [] then []
    else
      var line := lines[|lines| - 1];
      Kept(lines[..|lines| - 1]) + (if Skipped(line) then [] else [line])
  }

  /**
   * The read of `lines` in terms of the lines kept: it succeeds exactly when
   * every kept line gives an entry, and then lists those entries in line
   * order.
   */
  ghost predicate ReadAsKept(lines: seq<string>) {
    ReadsAs(Configs(lines), Kept(lines), LineEntry)
  }

  /** One kept line read as an entry. */
  function LineEntry(line: string): Result<Config, ConfError> {
    Entry(Text.Split(line, ','))
  }

  /** `r` is what reading the lines `kept` with `read` gives: every line's entry if each is one, else an error. */
  ghost predicate ReadsAs(r: Result<seq<Config>, ConfError>, kept: seq<string>, read: string -> Result<Config, ConfError>) {
    && (r.Ok? <==> forall i :: 0 <= i < |kept| ==> read(kept[i]).Ok?)
    && (r.Ok? ==>
         && |r.value| == |kept|
         && forall i :: 0 <= i < |kept| ==> r.value[i] == read(kept[i]).value)
  }

  /** Every file is read as its kept lines: see `ReadAsKept`. */
  lemma {:induction false} ConfigsOfKept(lines: seq<string>)
    ensures ReadAsKept(lines)
  {
    if lines != [] {
      var p, line := lines[..|lines| - 1], lines[|lines| - 1];
      ConfigsOfKept(p);
      assert lines == p + [line];
      LastLine(p, line);
      if Skipped(line) {
        assert Kept(p + [line]) == Kept(p);
        assert Configs(p + [line]) == Configs(p);
      } else if Configs(p).Err? {
        assert Configs(p + [line]) == Configs(p);
        ReadsAsAfterError(Configs(p), Kept(p), line, LineEntry);
      } else {
        var cs := Configs(p).value;
        match Entry(Text.Split(line, ','))
        case Err(e) =>
          assert Configs(p + [line]) == Err(e);
          ReadsAsLineError(cs, Kept(p), line, e, LineEntry);
        case Ok(c) =>
          assert Configs(p + [line]) == Ok(cs + [c]);
          ReadsAsEntry(cs, Kept(p), line, c, LineEntry);
      }
    }
  }

  /** A line read as entry `c` after lines read without error adds `c` at the end. */
  lemma ConfigsLast(p: seq<string>, line: string, c: Config)
    requires Configs(p).Ok? && !Skipped(line) && LineEntry(line) == Ok(c)
    ensures Configs(p + [line]) == Ok(Configs(p).value + [c])
  {
    LastLine(p, line);
  }

  lemma LastLine(p: seq<string>, line: string)
    ensures (p + [line])[..|p|] == p && (p + [line])[|p|] == line
    ensures Kept(p + [line]) == Kept(p) + (if Skipped(line) then [] else [line])
  {
    assert (p + [line])[..|p|] == p;
  }

  /** Once reading has failed, one more kept line keeps it failed. */
  lemma ReadsAsAfterError(r: Result<seq<Config>, ConfError>, kept: seq<string>, line: string, read: string -> Result<Config, ConfError>)
    requires ReadsAs(r, kept, read) && r.Err?
    ensures ReadsAs(r, kept + [line], read)
  {
    var i :| 0 <= i < |kept| && !read(kept[i]).Ok?;
    assert (kept + [line])[i] == kept[i];
  }

  /** A kept line that is not an entry makes the reading fail. */
  lemma ReadsAsLineError(cs: seq<Config>, kept: seq<string>, line: string, e: ConfError, read: string -> Result<Config, ConfError>)
    requires ReadsAs(Ok(cs), kept, read) && read(line) == Err(e)
    ensures ReadsAs(Err(e), kept + [line], read)
  {
    assert (kept + [line])[|kept|] == line;
  }

  /** A kept line that is an entry adds that entry at the end. */
  lemma ReadsAsEntry(cs: seq<Config>, kept: seq<string>, line: string, c: Config, read: string -> Result<Config, ConfError>)
    requires ReadsAs(Ok(cs), kept, read) && read(line) == Ok(c)
    ensures ReadsAs(Ok(cs + [c]), kept + [line], read)
  {
    assert forall i :: 0 <= i < |kept| ==> (kept + [line])[i] == kept[i] && (cs + [c])[i] == cs[i];
    assert (kept + [line])[|kept|] == line;
  }

  /** Text with a character that is not whitespace is not blank. */
  lemma Visible(s: string, i: nat)
    requires i < |s| && !Text.IsWhitespace(s[i])
    ensures Text.Trim(s) != []
  {
    Text.TrimEmptyIff(s);
  }

  /**
   * A `#` counts only in the first column: a comment indented by whitespace is
   * read as an entry, and without a comma it fails on its missing port.
   */
  lemma IndentedComment(line: string)
    requires |line| >= 2 && Text.IsWhitespace(line[0]) && line[1] == '#' && ',' !in line
    ensures !Skipped(line)
    ensures Configs([line]) == Err(MissingField(PortFrom))
  {
    Visible(line, 1);
    assert line[..1] != "#";
    Text.SplitNoSep(line, ',');
    EntryFailsAtFirst([line], 1);
    assert [line][..0] == [];
  }

  // ---------------------------------------------------------------- writing entries back

  /** The eleven fields of an entry as text: the numbers in plain decimal. */
  function FieldsOf(c: Config): (fields: seq<string>)
    ensures |fields| == FIELD_COUNT
  {
    [c.ipAddressFrom, Text.NatToString(c.portFrom), c.loginFrom, c.passwordFrom, c.pathFrom,
     c.ipAddressTo, Text.NatToString(c.portTo), c.loginTo, c.passwordTo, c.pathTo,
     Text.NatToString(c.age)]
  }

  /** The line that describes an entry. */
  function FormatConfig(c: Config): string {
    Text.Join(FieldsOf(c), ',')
  }

  /** An entry whose text fields hold no comma and that does not start with `#` can be written as a line. */
  predicate Writable(c: Config) {
    && (forall i :: 0 <= i < FIELD_COUNT ==> ',' !in FieldsOf(c)[i])
    && !Text.StartsWith(c.ipAddressFrom, "#")
  }

  lemma {:induction false} JoinPrefix(fields: seq<string>, sep: char)
    requires |fields| >= 1
    ensures fields[0] <= Text.Join(fields, sep)
  {
  }

  /** The line written for a writable entry is not skipped: it does not start with `#` and holds a digit. */
  lemma FormatNotSkipped(c: Config)
    requires Writable(c)
    ensures !Skipped(FormatConfig(c))
  {
    var fields := FieldsOf(c);
    var line := FormatConfig(c);
    JoinPrefix(fields, ',');
    assert line == fields[0] + [','] + Text.Join(fields[1..], ',');
    JoinPrefix(fields[1..], ',');
    var d := |fields[0]| + 1;
    assert line[d] == fields[1][0];
    Visible(line, d);
    if c.ipAddressFrom == [] {
      assert line[0] == ',';
    } else {
      assert line[..1] == c.ipAddressFrom[..1];
    }
  }

  /** Reading the line written for a writable entry gives back that entry. */
  lemma FormatRoundTrip(c: Config)
    requires Writable(c)
    ensures !Skipped(FormatConfig(c))
    ensures Entry(Text.Split(FormatConfig(c), ',')) == Ok(c)
  {
    FormatNotSkipped(c);
    var fields := FieldsOf(c);
    Text.SplitJoin(fields, ',');
    Text.ParseFormatted(c.portFrom, Text.U16_MAX);
    Text.ParseFormatted(c.portTo, Text.U16_MAX);
    Text.ParseFormatted(c.age, Text.U64_MAX);
    NoProblemFrom(fields, 0);
  }

  function FormatAll(cs: seq<Config>): (lines: seq<string>)
    ensures |lines| == |cs|
  {
    if cs == [] then [] else FormatAll(cs[..|cs| - 1]) + [FormatConfig(cs[|cs| - 1])]
  }

  /** A file written from writable entries, one line each, reads back as exactly those entries in order. */
  lemma {:induction false} ConfigsRoundTrip(cs: seq<Config>)
    requires forall i :: 0 <= i < |cs| ==> Writable(cs[i])
    ensures Configs(FormatAll(cs)) == Ok(cs)
  {
    if cs != [] {
      var p, last := cs[..|cs| - 1], cs[|cs| - 1];
      ConfigsRoundTrip(p);
      Seqs.LastSplit(cs);
      RoundTripLast(p, last);
    }
  }

  lemma RoundTripLast(p: seq<Config>, last: Config)
    requires Configs(FormatAll(p)) == Ok(p) && Writable(last)
    ensures Configs(FormatAll(p + [last])) == Ok(p + [last])
  {
    FormatRoundTrip(last);
    ConfigsLast(FormatAll(p), FormatConfig(last), last);
    assert (p + [last])[..|p|] == p;
  }
}
