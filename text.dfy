/**
 * The pieces of Rust's `str` and integer parsing that the program relies on:
 * `split(',')`, `trim`, `starts_with`, `trim_end_matches('/')`, unsigned
 * `FromStr` and decimal formatting of an unsigned integer.
 */
module Text {
  import opened Wrappers

  const U16_MAX: nat := 65535
  /** u64::MAX, which is also usize::MAX on the 64-bit targets the program is built for. */
  const U64_MAX: nat := 18446744073709551615

  /** Unsigned 16- and 64-bit values. */
  type u16 = n: nat | n <= U16_MAX
  type u64 = n: nat | n <= U64_MAX

  // ---------------------------------------------------------------- split

  /** `s.split(sep)`: the fields between separators; always at least one field. */
  function Split(s: string, sep: char): (r: seq<string>)
    ensures |r| >= 1
  {
    if s == [] then [[]]
    else if s[0] == sep then [[]] + Split(s[1..], sep)
    else
      var rest := Split(s[1..], sep);
      [[s[0]] + rest[0]] + rest[1..]
  }

  /** The inverse of `Split`: the fields joined with the separator between them. */
  function Join(fields: seq<string>, sep: char): string
    requires |fields| >= 1
  {
    if |fields| == 1 then fields[0] else fields[0] + [sep] + Join(fields[1..], sep)
  }

  /** No field that `Split` returns contains the separator. */
  lemma {:induction false} SplitFieldsFree(s: string, sep: char)
    ensures forall i :: 0 <= i < |Split(s, sep)| ==> sep !in Split(s, sep)[i]
  {
    if s != [] {
      SplitFieldsFree(s[1..], sep);
    }
  }

  /** Joining the fields of a split gives back the original text. */
  lemma {:induction false} JoinSplit(s: string, sep: char)
    ensures Join(Split(s, sep), sep) == s
  {
    if s != [] {
      JoinSplit(s[1..], sep);
      var rest := Split(s[1..], sep);
      if s[0] != sep && |rest| > 1 {
        assert [[s[0]] + rest[0]] + rest[1..] == [[s[0]] + rest[0]] + rest[1..];
        assert ([[s[0]] + rest[0]] + rest[1..])[1..] == rest[1..];
      }
    }
  }

  /** Splitting a join of separator-free fields gives back exactly those fields. */
  lemma {:induction false} SplitJoin(fields: seq<string>, sep: char)
    requires |fields| >= 1
    requires forall i :: 0 <= i < |fields| ==> sep !in fields[i]
    ensures Split(Join(fields, sep), sep) == fields
  {
    if |fields| == 1 {
      SplitNoSep(fields[0], sep);
    } else {
      SplitJoin(fields[1..], sep);
      SplitAfterSep(fields[0], sep, Join(fields[1..], sep));
    }
  }

  lemma {:induction false} SplitNoSep(f: string, sep: char)
    requires sep !in f
    ensures Split(f, sep) == [f]
  {
    if f != [] {
      SplitNoSep(f[1..], sep);
      assert [f[0]] + f[1..] == f;
    }
  }

  lemma {:induction false} SplitAfterSep(f: string, sep: char, t: string)
    requires sep !in f
    ensures Split(f + [sep] + t, sep) == [f] + Split(t, sep)
  {
    if f == [] {
      assert f + [sep] + t == [sep] + t;
      assert ([sep] + t)[1..] == t;
    } else {
      SplitAfterSep(f[1..], sep, t);
      assert (f + [sep] + t)[1..] == f[1..] + [sep] + t;
      assert [f[0]] + f[1..] == f;
    }
  }

  // ---------------------------------------------------------------- trim

  /** `char::is_whitespace`: the Unicode White_Space property. */
  predicate IsWhitespace(c: char) {
    ('\U{9}' <= c <= '\U{D}') || c == '\U{20}' || c == '\U{85}' || c == '\U{A0}' ||
    c == '\U{1680}' || ('\U{2000}' <= c <= '\U{200A}') || c == '\U{2028}' || c == '\U{2029}' ||
    c == '\U{202F}' || c == '\U{205F}' || c == '\U{3000}'
  }

  /** The length of the longest all-whitespace prefix of `s`. */
  function LeadingWhitespace(s: string): (n: nat)
    ensures n <= |s|
    ensures forall k :: 0 <= k < n ==> IsWhitespace(s[k])
    ensures n < |s| ==> !IsWhitespace(s[n])
  {
    if s != [] && IsWhitespace(s[0]) then 1 + LeadingWhitespace(s[1..]) else 0
  }

  /** The length of the longest all-whitespace suffix of `s`. */
  function TrailingWhitespace(s: string): (n: nat)
    ensures n <= |s|
    ensures forall k :: |s| - n <= k < |s| ==> IsWhitespace(s[k])
    ensures n < |s| ==> !IsWhitespace(s[|s| - n - 1])
  {
    if s != [] && IsWhitespace(s[|s| - 1]) then 1 + TrailingWhitespace(s[..|s| - 1]) else 0
  }

  /** `str::trim_start`. */
  function TrimStart(s: string): string {
    s[LeadingWhitespace(s)..]
  }

  /** `str::trim_end`. */
  function TrimEnd(s: string): string {
    s[..|s| - TrailingWhitespace(s)]
  }

  /** `str::trim`. */
  function Trim(s: string): string {
    TrimEnd(TrimStart(s))
  }

  /**
   * What `trim` returns: a slice of `s` that drops only whitespace at both ends
   * and neither starts nor ends with whitespace.
   */
  lemma TrimShape(s: string)
    ensures exists i, j ::
              && 0 <= i <= j <= |s| && Trim(s) == s[i..j]
              && (forall k :: 0 <= k < i ==> IsWhitespace(s[k]))
              && (forall k :: j <= k < |s| ==> IsWhitespace(s[k]))
    ensures Trim(s) != [] ==> !IsWhitespace(Trim(s)[0]) && !IsWhitespace(Trim(s)[|Trim(s)| - 1])
  {
    var i := LeadingWhitespace(s);
    var t := s[i..];
    var m := TrailingWhitespace(t);
    assert Trim(s) == s[i..|s| - m];
    assert forall k :: |s| - m <= k < |s| ==> s[k] == t[k - i];
    if Trim(s) != [] {
      assert Trim(s)[0] == t[0];
    }
  }

  /** A line is blank after trimming exactly when every character is whitespace. */
  lemma TrimEmptyIff(s: string)
    ensures Trim(s) == [] <==> forall k :: 0 <= k < |s| ==> IsWhitespace(s[k])
  {
    var i := LeadingWhitespace(s);
    if i < |s| {
      var t := s[i..];
      assert !IsWhitespace(t[0]);
      assert TrailingWhitespace(t) < |t|;
    }
  }

  /** Trimming text that has no whitespace at either end leaves it unchanged. */
  lemma TrimNoEdges(s: string)
    requires s == [] || (!IsWhitespace(s[0]) && !IsWhitespace(s[|s| - 1]))
    ensures Trim(s) == s
  {
  }

  // ---------------------------------------------------------------- prefixes and suffixes

  /** `str::starts_with`. */
  predicate StartsWith(s: string, prefix: string) {
    |prefix| <= |s| && s[..|prefix|] == prefix
  }

  /** The length of the longest run of `c` at the end of `s`. */
  function TrailingRun(s: string, c: char): (n: nat)
    ensures n <= |s|
    ensures forall k :: |s| - n <= k < |s| ==> s[k] == c
    ensures n < |s| ==> s[|s| - n - 1] != c
  {
    if s != [] && s[|s| - 1] == c then 1 + TrailingRun(s[..|s| - 1], c) else 0
  }

  /** `str::trim_end_matches(c)`. */
  function TrimEndMatches(s: string, c: char): string {
    s[..|s| - TrailingRun(s, c)]
  }

  // ---------------------------------------------------------------- unsigned FromStr

  datatype IntErrorKind = Empty | InvalidDigit | PosOverflow

  predicate IsDigit(c: char) { '0' <= c <= '9' }

  function DigitValue(c: char): nat
    requires IsDigit(c)
  {
    (c as int) - ('0' as int)
  }

  predicate AllDigits(s: string) {
    forall k :: 0 <= k < |s| ==> IsDigit(s[k])
  }

  /** The value of a string of decimal digits, read most significant first. */
  function DigitsValue(s: string): nat
    requires AllDigits(s)
  {
    if s == [] then 0 else DigitsValue(s[..|s| - 1]) * 10 + DigitValue(s[|s| - 1])
  }

  /**
   * The digit loop of `from_str_radix`, as if run over the prefix `s`: digits are
   * taken left to right, and the first bad digit or the first overflow decides
   * the error.
   */
  function ScanDigits(s: string, max: nat): (r: Result<nat, IntErrorKind>)
    ensures r.Ok? ==> r.value <= max
  {
    if s == [] then Ok(0)
    else
      match ScanDigits(s[..|s| - 1], max)
      case Err(e) => Err(e)
      case Ok(acc) =>
        var c := s[|s| - 1];
        if !IsDigit(c) then Err(InvalidDigit)
        else if acc * 10 + DigitValue(c) > max then Err(PosOverflow)
        else Ok(acc * 10 + DigitValue(c))
  }

  /** The digits `from_str_radix` scans: one leading `+` is dropped. */
  function UnsignedBody(s: string): string {
    if |s| > 0 && s[0] == '+' then s[1..] else s
  }

  /**
   * `<uN as FromStr>::from_str` with `uN::MAX == max`: empty input is `Empty`, a
   * lone sign is `InvalidDigit`, one leading `+` is allowed, and `-` is never a
   * digit.
   */
  function ParseUnsigned(s: string, max: nat): (r: Result<nat, IntErrorKind>)
    ensures r.Ok? ==> r.value <= max
  {
    if s == [] then Err(Empty)
    else if (s[0] == '+' || s[0] == '-') && |s| == 1 then Err(InvalidDigit)
    else ScanDigits(UnsignedBody(s), max)
  }

  lemma {:induction false} DigitsValueGrows(s: string)
    requires AllDigits(s) && s != []
    ensures DigitsValue(s) >= DigitsValue(s[..|s| - 1])
  {
  }

  /** The scan succeeds exactly on digit strings whose value fits, and then yields that value. */
  lemma {:induction false} ScanDigitsIff(s: string, max: nat)
    ensures ScanDigits(s, max).Ok? <==> AllDigits(s) && DigitsValue(s) <= max
    ensures ScanDigits(s, max).Ok? ==> ScanDigits(s, max).value == DigitsValue(s)
  {
    if s != [] {
      var p := s[..|s| - 1];
      ScanDigitsIff(p, max);
      assert forall k :: 0 <= k < |p| ==> p[k] == s[k];
      if AllDigits(s) {
        assert AllDigits(p);
        DigitsValueGrows(s);
      }
    }
  }

  /**
   * The whole of unsigned parsing, stated against `DigitsValue`: the text after
   * an optional `+` must be a non-empty run of digits whose value is at most
   * `max`, and the result is that value.
   */
  lemma ParseUnsignedIff(s: string, max: nat)
    ensures ParseUnsigned(s, max).Ok? <==>
      UnsignedBody(s) != [] && AllDigits(UnsignedBody(s)) && DigitsValue(UnsignedBody(s)) <= max
    ensures ParseUnsigned(s, max).Ok? ==> ParseUnsigned(s, max).value == DigitsValue(UnsignedBody(s))
  {
    ScanDigitsIff(UnsignedBody(s), max);
    if s != [] && s[0] == '-' {
      assert !IsDigit(UnsignedBody(s)[0]);
    }
  }

  // ---------------------------------------------------------------- decimal formatting

  function DigitChar(d: nat): (c: char)
    requires d < 10
    ensures IsDigit(c) && DigitValue(c) == d
  {
    ('0' as int + d) as char
  }

  /** `n.to_string()` for an unsigned integer: decimal, no sign, no leading zeros. */
  function NatToString(n: nat): (s: string)
    ensures s != [] && AllDigits(s)
    ensures DigitsValue(s) == n
  {
    if n < 10 then [DigitChar(n)]
    else
      var p := NatToString(n / 10);
      var s := p + [DigitChar(n % 10)];
      assert s[..|s| - 1] == p;
      s
  }

  /** Parsing the decimal text of a value that fits gives back the value. */
  lemma ParseFormatted(n: nat, max: nat)
    requires n <= max
    ensures ParseUnsigned(NatToString(n), max) == Ok(n)
  {
    var s := NatToString(n);
    assert IsDigit(s[0]);
    ParseUnsignedIff(s, max);
  }
}
