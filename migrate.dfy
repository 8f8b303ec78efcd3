/**
 * The one-off converter from the old comma-separated configuration format
 * to one JSON object per line. Blank and comment lines are kept as they
 * were, lines with the wrong number of fields are dropped with a warning,
 * and every other line becomes one object with the keys in a fixed order.
 * The files themselves are outside the model: the input arrives as its
 * lines and the output leaves as the list of lines to write.
 */
module Migrate {
  import opened Wrappers
  import Text
  import Seqs

  /** The number of comma-separated fields a data line must have. */
  const FIELD_COUNT := 12

  // ---------------------------------------------------------------- JSON strings

  /**
   * The characters that may stand after a backslash in a JSON string and the
   * character each stands for (section 7 of RFC 8259), `u` aside.
   */
  function ShortEscape(c: char): Option<char> {
    if c == '"' then Some('"')
    else if c == '\\' then Some('\\')
    else if c == '/' then Some('/')
    else if c == 'b' then Some('\U{8}')
    else if c == 'f' then Some('\U{C}')
    else if c == 'n' then Some('\n')
    else if c == 'r' then Some('\r')
    else if c == 't' then Some('\t')
    else None
  }

  function HexValue(c: char): (r: Option<nat>)
    ensures r.Some? ==> r.value < 16
  {
    if '0' <= c <= '9' then Some(c as int - '0' as int)
    else if 'a' <= c <= 'f' then Some(c as int - 'a' as int + 10)
    else if 'A' <= c <= 'F' then Some(c as int - 'A' as int + 10)
    else None
  }

  /** The value of four hexadecimal digits. */
  function Hex4(s: string): (r: Option<nat>)
    requires |s| == 4
    ensures r.Some? ==> r.value < 0x10000
  {
    match (HexValue(s[0]), HexValue(s[1]), HexValue(s[2]), HexValue(s[3]))
    case (Some(a), Some(b), Some(c), Some(d)) => Some(a * 4096 + b * 256 + c * 16 + d)
    case _ => None
  }

  /**
   * The escape that starts right after a backslash: the character it stands
   * for and how many characters it takes. A `\u` escape of a lone surrogate
   * half does not stand for a character here.
   */
  function EscapeAt(s: string): Option<(char, nat)> {
    if s == [] then None
    else if s[0] == 'u' then
      if |s| < 5 then None
      else
        match Hex4(s[1..5])
        case None => None
        case Some(v) => if 0xD800 <= v <= 0xDFFF then None else Some((v as char, 5))
    else
      match ShortEscape(s[0])
      case None => None
      case Some(c) => Some((c, 1))
  }

  /**
   * What a JSON reader makes of the text between the quotes of a string:
   * `None` when it is not a valid string body (an unescaped quote or control
   * character, or a backslash not followed by a valid escape).
   */
  function Decode(s: string): Option<string>
    decreases |s|
  {
    if s == [] then Some([])
    else if s[0] == '"' || s[0] < ' ' then None
    else if s[0] != '\\' then
      match Decode(s[1..])
      case None => None
      case Some(t) => Some([s[0]] + t)
    else
      match EscapeAt(s[1..])
      case None => None
      case Some(e) =>
        if |s| < 1 + e.1 then None
        else
          match Decode(s[1 + e.1..])
          case None => None
          case Some(t) => Some([e.0] + t)
  }

  function HexDigit(d: nat): char
    requires d < 16
  {
    if d < 10 then ('0' as int + d) as char else ('a' as int + d - 10) as char
  }

  /** How one character is written inside a JSON string, in the manner of `serde_json`. */
  function EscapeChar(c: char): string {
    if c == '"' then "\\\""
    else if c == '\\' then "\\\\"
    else if c == '\U{8}' then "\\b"
    else if c == '\U{C}' then "\\f"
    else if c == '\n' then "\\n"
    else if c == '\r' then "\\r"
    else if c == '\t' then "\\t"
    else if c < ' ' then "\\u00" + [HexDigit(c as int / 16), HexDigit(c as int % 16)]
    else [c]
  }

  /** The body of the JSON string that stands for `s`. */
  function Escape(s: string): string {
    if s == [] then [] else EscapeChar(s[0]) + Escape(s[1..])
  }

  /** Reading one escaped character back gives that character, and the rest is read as before. */
  lemma DecodeEscapeChar(c: char, t: string)
    ensures Decode(EscapeChar(c) + t) == match Decode(t) case None => None case Some(u) => Some([c] + u)
  {
    var s := EscapeChar(c) + t;
    if c == '"' || c == '\\' || c == '\U{8}' || c == '\U{C}' || c == '\n' || c == '\r' || c == '\t' {
      assert s[0] == '\\' && s[1..][0] == s[1];
      assert s[2..] == t;
    } else if c < ' ' {
      var hi, lo := c as int / 16, c as int % 16;
      assert s[1..][1..5] == ['0', '0', HexDigit(hi), HexDigit(lo)];
      assert Hex4(s[1..][1..5]) == Some(hi * 16 + lo);
      assert s[6..] == t;
    } else {
      assert s[1..] == t;
    }
  }

  /** Escaping is undone by a JSON reader: every string survives the trip. */
  lemma {:induction false} EscapeRoundTrip(s: string)
    ensures Decode(Escape(s)) == Some(s)
  {
    if s != [] {
      EscapeRoundTrip(s[1..]);
      DecodeEscapeChar(s[0], Escape(s[1..]));
      assert [s[0]] + s[1..] == s;
    }
  }

  /** Characters that are written as themselves. */
  predicate Plain(c: char) {
    c != '"' && c != '\\' && c >= ' '
  }

  /** A string with no quote, backslash or control character is escaped as itself. */
  lemma {:induction false} EscapePlain(s: string)
    requires forall k :: 0 <= k < |s| ==> Plain(s[k])
    ensures Escape(s) == s
  {
    if s != [] {
      assert EscapeChar(s[0]) == [s[0]];
      EscapePlain(s[1..]);
      Seqs.HeadSplit(s);
    }
  }

  // ---------------------------------------------------------------- one line

  /**
   * Everything of the line up to the opening quote of the last value; `quote`
   * is applied to each quoted field. The port and age fields are placed as
   * they are, without quotes.
   */
  function Head(fields: seq<string>, quote: string -> string): string
    requires |fields| == FIELD_COUNT
  {
    "{\"host_from\":\"" + quote(fields[0]) +
    "\",\"port_from\":" + fields[1] +
    ",\"login_from\":\"" + quote(fields[2]) +
    "\",\"password_from\":\"" + quote(fields[3]) +
    "\",\"path_from\":\"" + quote(fields[4]) +
    "\",\"host_to\":\"" + quote(fields[5]) +
    "\",\"port_to\":" + fields[6] +
    ",\"login_to\":\"" + quote(fields[7]) +
    "\",\"password_to\":\"" + quote(fields[8]) +
    "\",\"path_to\":\"" + quote(fields[9]) +
    "\",\"age\":" + fields[10] +
    ",\"filename_regexp\":\""
  }

  /** The object for one data line, with `quote` applied to each quoted field. */
  function Line(fields: seq<string>, quote: string -> string): string
    requires |fields| == FIELD_COUNT
  {
    Head(fields, quote) + quote(fields[11]) + "\"}"
  }

  /** The conversion as written: the quoted fields are placed between the quotes verbatim. */
  function ConvertAsWritten(fields: seq<string>): string
    requires |fields| == FIELD_COUNT
  {
    Line(fields, s => s)
  }

  /** The conversion with every quoted field escaped, so that it reads back as the field. */
  function Convert(fields: seq<string>): string
    requires |fields| == FIELD_COUNT
  {
    Line(fields, Escape)
  }

  /** The fields the line puts between quotes. */
  predicate Quoted(k: nat) {
    k < FIELD_COUNT && k != 1 && k != 6 && k != 10
  }

  /**
   * The default pattern of the earlier versions, `.*\.xml`, placed verbatim
   * as written: the line ends in a string whose body is not valid JSON,
   * because `\.` is no JSON escape.
   */
  lemma AsWrittenRegexpInvalid(fields: seq<string>)
    requires |fields| == FIELD_COUNT && fields[11] == ".*\\.xml"
    ensures ConvertAsWritten(fields) == Head(fields, s => s) + ".*\\.xml" + "\"}"
    ensures Decode(".*\\.xml") == None
  {
    var body := ".*\\.xml";
    assert body[1..][1..][0] == '\\' && body[1..][1..][1..][0] == '.';
  }

  /** With escaping, every quoted field reads back as exactly the field. */
  lemma ConvertReadsBack(fields: seq<string>, k: nat)
    requires |fields| == FIELD_COUNT && Quoted(k)
    ensures Decode(Escape(fields[k])) == Some(fields[k])
  {
    EscapeRoundTrip(fields[k]);
  }

  /** Where no quoted field needs escaping, the corrected line is the line as written. */
  lemma ConvertPlain(fields: seq<string>)
    requires |fields| == FIELD_COUNT
    requires forall k: nat, i :: Quoted(k) && 0 <= i < |fields[k]| ==> Plain(fields[k][i])
    ensures Convert(fields) == ConvertAsWritten(fields)
  {
    forall k: nat | Quoted(k) ensures Escape(fields[k]) == fields[k] {
      EscapePlain(fields[k]);
    }
    assert Quoted(0) && Quoted(2) && Quoted(3) && Quoted(4) && Quoted(5);
    assert Quoted(7) && Quoted(8) && Quoted(9) && Quoted(11);
  }

  // ---------------------------------------------------------------- the file

  /** What one input line becomes. */
  datatype LineResult = Copy(line: string) | Emit(json: string) | Drop(fieldCount: nat)

  /**
   * A line that is blank or a comment once trimmed is copied untrimmed;
   * otherwise the trimmed line is split at commas and either converted or,
   * with a field count other than twelve, dropped.
   */
  function Classify(line: string): LineResult {
    var trimmed := Text.Trim(line);
    if trimmed == [] || Text.StartsWith(trimmed, "#") then Copy(line)
    else
      var fields := Text.Split(trimmed, ',');
      if |fields| != FIELD_COUNT then Drop(|fields|) else Emit(Convert(fields))
  }

  /** The warning for a dropped line: its number, counted from 1, and its field count. */
  datatype Warning = Warning(lineNumber: nat, fieldCount: nat)

  /** The output lines one input line gives: one, or none when it is dropped. */
  function Emitted(line: string): seq<string> {
    match Classify(line)
    case Copy(l) => [l]
    case Emit(j) => [j]
    case Drop(_) => []
  }

  /** The output lines for `lines`, in order. */
  function Output(lines: seq<string>): seq<string> {
    if lines == [] then [] else Output(lines[..|lines| - 1]) + Emitted(lines[|lines| - 1])
  }

  /** The warnings for `lines`, in order. */
  function Warnings(lines: seq<string>): seq<Warning> {
    if lines == [] then []
    else
      var n := |lines| - 1;
      Warnings(lines[..n]) +
        match Classify(lines[n])
        case Drop(count) => [Warning(n + 1, count)]
        case _ => []
  }

  datatype Outcome = UsageExit | Converted(output: seq<string>, warnings: seq<Warning>, count: nat)

  /**
   * `main` without the files: anything but an input and an output name
   * prints the usage and exits with status 1; otherwise every line is
   * classified in turn, and the count reported is the number of output
   * lines, comments and blank lines included.
   */
  method Run(userArgs: seq<string>, lines: seq<string>) returns (r: Outcome)
    ensures |userArgs| != 2 ==> r == UsageExit
    ensures |userArgs| == 2 ==> r == Converted(Output(lines), Warnings(lines), |Output(lines)|)
  {
    if |userArgs| != 2 {
      return UsageExit;
    }
    var output: seq<string> := [];
    var warnings: seq<Warning> := [];
    for i := 0 to |lines|
      invariant output == Output(lines[..i]) && warnings == Warnings(lines[..i])
    {
      assert lines[..i + 1][..i] == lines[..i];
      var line := lines[i];
      var trimmed := Text.Trim(line);
      if trimmed == [] || Text.StartsWith(trimmed, "#") {
        output := output + [line];
        continue;
      }
      var fields := Text.Split(trimmed, ',');
      if |fields| != FIELD_COUNT {
        warnings := warnings + [Warning(i + 1, |fields|)];
        continue;
      }
      output := output + [Convert(fields)];
    }
    assert lines[..|lines|] == lines;
    r := Converted(output, warnings, |output|);
  }

  /** A single line: how each kind of line shows up in the output and the warnings. */
  lemma OneLine(line: string)
    ensures var trimmed := Text.Trim(line);
      && (trimmed == [] || Text.StartsWith(trimmed, "#") ==> Output([line]) == [line] && Warnings([line]) == [])
      && (trimmed != [] && !Text.StartsWith(trimmed, "#") && |Text.Split(trimmed, ',')| != FIELD_COUNT ==>
            Output([line]) == [] && Warnings([line]) == [Warning(1, |Text.Split(trimmed, ',')|)])
      && (trimmed != [] && !Text.StartsWith(trimmed, "#") && |Text.Split(trimmed, ',')| == FIELD_COUNT ==>
            Output([line]) == [Convert(Text.Split(trimmed, ','))] && Warnings([line]) == [])
  {
    assert [line][..0] == [];
  }

  /** The output of two runs of lines is the output of each, in order. */
  lemma OutputLast(lines: seq<string>)
    requires lines != []
    ensures Output(lines) == Output(lines[..|lines| - 1]) + Emitted(lines[|lines| - 1])
  {
  }

  lemma {:induction false} OutputAppend(a: seq<string>, b: seq<string>)
    ensures Output(a + b) == Output(a) + Output(b)
    decreases |b|
  {
    if b == [] {
      Seqs.AppendEmpty(a);
      Seqs.AppendEmpty(Output(a));
    } else {
      var n := |b| - 1;
      Seqs.AppendFront(a, b);
      OutputAppend(a, b[..n]);
      OutputLast(a + b);
      OutputLast(b);
      Seqs.AppendAssoc(Output(a), Output(b[..n]), Emitted(b[n]));
    }
  }

  /** Every line gives either one output line or one warning. */
  lemma {:induction false} EveryLineAccounted(lines: seq<string>)
    ensures |Output(lines)| + |Warnings(lines)| == |lines|
  {
    if lines != [] {
      EveryLineAccounted(lines[..|lines| - 1]);
    }
  }

  /** The warnings name the lines that were dropped, by number and in increasing order. */
  lemma {:induction false} WarningsNumbered(lines: seq<string>)
    ensures forall k :: 0 <= k < |Warnings(lines)| ==>
      var w := Warnings(lines)[k];
      && 1 <= w.lineNumber <= |lines|
      && Classify(lines[w.lineNumber - 1]) == Drop(w.fieldCount)
    ensures forall j, k :: 0 <= j < k < |Warnings(lines)| ==> Warnings(lines)[j].lineNumber < Warnings(lines)[k].lineNumber
  {
    if lines != [] {
      var n := |lines| - 1;
      WarningsNumbered(lines[..n]);
      forall k | 0 <= k < |Warnings(lines[..n])|
        ensures lines[Warnings(lines[..n])[k].lineNumber - 1] == lines[..n][Warnings(lines[..n])[k].lineNumber - 1]
      {
      }
    }
  }
}
