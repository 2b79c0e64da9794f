/** Byte strings, as `std::string` holds them, and the string helpers the measurement
    store is built on: splitting, comma lists, decimal and hexadecimal numerals. */
module Strings {
  type Byte = c: char | c as int < 256
  type Str = seq<Byte>

  datatype Option<+T> = None | Some(value: T)

  // ---------- Splitting at a delimiter ----------

  /** Length of the longest prefix of `s` without `d`. */
  function FieldLength(s: Str, d: Byte): (n: nat)
    ensures n <= |s|
    ensures d !in s[..n]
    ensures n < |s| ==> s[n] == d
  {
    if s == [] || s[0] == d then 0 else 1 + FieldLength(s[1..], d)
  }

  /** The non-empty fields of `s` between delimiters. */
  function Split(s: Str, d: Byte): seq<Str>
    decreases |s|
  {
    if s == [] then []
    else if s[0] == d then Split(s[1..], d)
    else
      var n := FieldLength(s, d);
      [s[..n]] + Split(s[n..], d)
  }

  lemma {:induction false} FieldLengthIs(s: Str, d: Byte, n: nat)
    requires n <= |s| && d !in s[..n]
    requires n == |s| || s[n] == d
    ensures FieldLength(s, d) == n
  {
    if n > 0 {
      assert s[0] == s[..n][0];
      assert s[1..][..n - 1] == s[..n][1..];
      FieldLengthIs(s[1..], d, n - 1);
    }
  }

  lemma SplitSkip(s: Str, i: nat, d: Byte)
    requires i < |s| && s[i] == d
    ensures Split(s[i..], d) == Split(s[i + 1..], d)
  {
    assert s[i..][1..] == s[i + 1..];
  }

  lemma SplitTake(s: Str, i: nat, j: nat, d: Byte)
    requires i < j <= |s| && d !in s[i..j]
    requires j == |s| || s[j] == d
    ensures Split(s[i..], d) == [s[i..j]] + Split(s[j..], d)
  {
    var t := s[i..];
    assert t[..j - i] == s[i..j];
    assert t[0] == s[i..j][0];
    FieldLengthIs(t, d, j - i);
    assert t[j - i..] == s[j..];
  }

  method FieldEnd(str: Str, start: nat, delim: Byte) returns (end: nat)
    requires start <= |str|
    ensures start <= end <= |str|
    ensures delim !in str[start..end]
    ensures end == |str| || str[end] == delim
  {
    end := start;
    while end < |str| && str[end] != delim
      invariant start <= end <= |str|
      invariant delim !in str[start..end]
    {
      end := end + 1;
    }
  }

  lemma SplitNone(d: Byte)
    ensures Split([], d) == []
  {
  }

  /** The two nested scans of the loop: skip delimiters, then take one field. */
  method SplitLoop(str: Str, delim: Byte) returns (parts: seq<Str>)
    ensures parts == Split(str, delim)
  {
    hide Split;
    parts := [];
    var end := 0;
    assert str[0..] == str;
    SplitNone(delim);
    while end < |str|
      invariant 0 <= end <= |str|
      invariant Split(str, delim) == parts + Split(str[end..], delim)
    {
      var start := end;
      while start < |str| && str[start] == delim
        invariant end <= start <= |str|
        invariant Split(str[start..], delim) == Split(str[end..], delim)
      {
        SplitSkip(str, start, delim);
        start := start + 1;
      }
      ghost var rest := Split(str[end..], delim);
      end := FieldEnd(str, start, delim);
      if end - start != 0 {
        SplitTake(str, start, end, delim);
        ghost var before := parts;
        parts := parts + [str[start..end]];
        assert before + ([str[start..end]] + Split(str[end..], delim)) == parts + Split(str[end..], delim);
      }
    }
    assert str[end..] == [];
  }

  // ---------- Joining ----------

  /** The fields of `parts` with one `d` between neighbours. */
  function Join(parts: seq<Str>, d: Byte): Str {
    if |parts| == 0 then []
    else if |parts| == 1 then parts[0]
    else parts[0] + [d] + Join(parts[1..], d)
  }

  function NonEmpty(parts: seq<Str>): seq<Str> {
    if parts == [] then []
    else (if parts[0] == [] then [] else [parts[0]]) + NonEmpty(parts[1..])
  }

  lemma {:induction false} SplitField(field: Str, rest: Str, d: Byte)
    requires d !in field
    requires rest == [] || rest[0] == d
    ensures Split(field + rest, d) == NonEmpty([field]) + Split(rest, d)
  {
    var s := field + rest;
    if field == [] {
      assert s == rest;
    } else {
      assert s[..|field|] == field;
      FieldLengthIs(s, d, |field|);
      assert s[|field|..] == rest;
    }
  }

  /** Splitting a joined list gives back its non-empty fields, in order. */
  lemma {:induction false} SplitJoin(parts: seq<Str>, d: Byte)
    requires forall p | p in parts :: d !in p
    ensures Split(Join(parts, d), d) == NonEmpty(parts)
  {
    if |parts| == 0 {
    } else if |parts| == 1 {
      assert parts[0] in parts;
      SplitField(parts[0], [], d);
      assert parts[0] + [] == parts[0];
      assert parts == [parts[0]];
    } else {
      var rest := [d] + Join(parts[1..], d);
      assert parts[0] in parts;
      SplitField(parts[0], rest, d);
      assert Join(parts, d) == parts[0] + rest;
      assert rest[1..] == Join(parts[1..], d);
      SplitJoin(parts[1..], d);
    }
  }

  lemma {:induction false} NonEmptyKeepsAll(parts: seq<Str>)
    requires [] !in parts
    ensures NonEmpty(parts) == parts
  {
    if parts != [] {
      assert parts[0] in parts;
      NonEmptyKeepsAll(parts[1..]);
      assert parts == [parts[0]] + parts[1..];
    }
  }

  lemma {:induction false} NonEmptyHasNoEmpty(parts: seq<Str>)
    ensures [] !in NonEmpty(parts)
  {
    if parts != [] {
      NonEmptyHasNoEmpty(parts[1..]);
    }
  }

  /** A list is recovered from its joined form exactly when none of its names is empty. */
  lemma JoinIsUndoneIff(parts: seq<Str>, d: Byte)
    requires forall p | p in parts :: d !in p
    ensures Split(Join(parts, d), d) == parts <==> [] !in parts
  {
    SplitJoin(parts, d);
    if [] !in parts {
      NonEmptyKeepsAll(parts);
    } else {
      NonEmptyHasNoEmpty(parts);
    }
  }

  // ---------- Decimal numerals (std::to_string) ----------

  function DigitChar(n: nat): (c: Byte)
    requires n < 16
    ensures n < 10 ==> '0' <= c <= '9'
  {
    if n < 10 then ('0' as int + n) as char else ('A' as int + n - 10) as char
  }

  function Decimal(n: nat): (s: Str)
    ensures |s| > 0
    ensures forall c | c in s :: '0' <= c <= '9'
  {
    if n < 10 then [DigitChar(n)] else Decimal(n / 10) + [DigitChar(n % 10)]
  }

  lemma {:induction false} DecimalInjective(m: nat, n: nat)
    requires Decimal(m) == Decimal(n)
    ensures m == n
    decreases m
  {
    var s := Decimal(m);
    assert s[|s| - 1] == DigitChar(m % 10);
    assert s[|s| - 1] == DigitChar(n % 10);
    if m >= 10 && n >= 10 {
      assert Decimal(m / 10) == s[..|s| - 1];
      assert Decimal(n / 10) == s[..|s| - 1];
      DecimalInjective(m / 10, n / 10);
    }
  }

  /** The number a numeral denotes. */
  function DecimalValue(s: Str): int {
    if s == [] then 0 else 10 * DecimalValue(s[..|s| - 1]) + (s[|s| - 1] as int - '0' as int)
  }

  /** The numeral of a number denotes it, and has no leading zero. */
  lemma {:induction false} DecimalDenotes(n: nat)
    ensures DecimalValue(Decimal(n)) == n
    ensures n > 0 ==> Decimal(n)[0] != '0'
  {
    var s := Decimal(n);
    if n >= 10 {
      DecimalDenotes(n / 10);
      assert s[..|s| - 1] == Decimal(n / 10);
    } else {
      assert s[..0] == [];
    }
  }

  // ---------- Hexadecimal channel ids ----------

  const TWO64: nat := 0x1_0000_0000_0000_0000

  function HexDigits(n: nat, width: nat): (s: Str)
    ensures |s| == width
  {
    if width == 0 then [] else HexDigits(n / 16, width - 1) + [DigitChar(n % 16)]
  }

  /** Sixteen upper-case digits, padded with zeros on the left. */
  function PrintHex(id: nat): (s: Str)
    requires id < TWO64
    ensures |s| == 16
  {
    HexDigits(id, 16)
  }

  predicate IsSpace(c: Byte) {
    c == ' ' || 9 <= c as int <= 13
  }

  function HexValue(c: Byte): (v: Option<nat>)
    ensures v.Some? ==> v.value < 16
  {
    if '0' <= c <= '9' then Some(c as int - '0' as int)
    else if 'A' <= c <= 'F' then Some(c as int - 'A' as int + 10)
    else if 'a' <= c <= 'f' then Some(c as int - 'a' as int + 10)
    else None
  }

  function SkipSpaces(s: Str): (r: Str)
    ensures |r| <= |s|
    ensures r != [] ==> !IsSpace(r[0])
  {
    if s != [] && IsSpace(s[0]) then SkipSpaces(s[1..]) else s
  }

  /** Number of leading hexadecimal digits. */
  function HexRun(s: Str): (n: nat)
    ensures n <= |s|
  {
    if s != [] && HexValue(s[0]).Some? then 1 + HexRun(s[1..]) else 0
  }

  lemma {:induction false} HexRunPrefix(s: Str)
    requires s != [] && HexRun(s) == |s|
    ensures HexRun(s[..|s| - 1]) == |s| - 1
    ensures HexValue(s[|s| - 1]).Some?
  {
    if |s| > 1 {
      HexRunPrefix(s[1..]);
      assert s[..|s| - 1][1..] == s[1..][..|s| - 2];
    }
  }

  function HexNumber(s: Str): nat
    requires HexRun(s) == |s|
  {
    if s == [] then 0
    else
      HexRunPrefix(s);
      16 * HexNumber(s[..|s| - 1]) + HexValue(s[|s| - 1]).value
  }

  lemma {:induction false} HexRunTake(s: Str)
    ensures HexRun(s[..HexRun(s)]) == HexRun(s)
  {
    if s != [] && HexValue(s[0]).Some? {
      HexRunTake(s[1..]);
      assert s[..HexRun(s)][1..] == s[1..][..HexRun(s[1..])];
    }
  }

  function StripSign(s: Str): (bool, Str) {
    if s != [] && s[0] == '-' then (true, s[1..])
    else if s != [] && s[0] == '+' then (false, s[1..])
    else (false, s)
  }

  function Strip0x(s: Str): Str {
    if |s| >= 3 && s[0] == '0' && (s[1] == 'x' || s[1] == 'X') && HexValue(s[2]).Some? then s[2..] else s
  }

  /** `std::stoull(s, nullptr, 16)`; `None` stands for its exceptions. */
  function ParseHex(s: Str): (id: Option<nat>)
    ensures id.Some? ==> id.value < TWO64
  {
    var (negative, unsigned) := StripSign(SkipSpaces(s));
    var digits := Strip0x(unsigned);
    var n := HexRun(digits);
    if n == 0 then None
    else
      HexRunTake(digits);
      var v := HexNumber(digits[..n]);
      if v >= TWO64 then None
      else if negative && v > 0 then Some(TWO64 - v)
      else Some(v)
  }

  function Pow16(k: nat): (p: nat)
    ensures p > 0
  {
    if k == 0 then 1 else 16 * Pow16(k - 1)
  }

  lemma {:induction false} HexRunAppend(s: Str, c: Byte)
    requires HexRun(s) == |s| && HexValue(c).Some?
    ensures HexRun(s + [c]) == |s| + 1
  {
    if s != [] {
      assert (s + [c])[1..] == s[1..] + [c];
      HexRunAppend(s[1..], c);
    }
  }

  predicate UpperHex(s: Str) { forall c | c in s :: '0' <= c <= '9' || 'A' <= c <= 'F' }

  lemma {:induction false} HexDigitsValue(n: nat, width: nat)
    requires n < Pow16(width)
    ensures HexRun(HexDigits(n, width)) == width
    ensures HexNumber(HexDigits(n, width)) == n
    ensures UpperHex(HexDigits(n, width))
  {
    if width > 0 {
      var s := HexDigits(n / 16, width - 1);
      HexDigitsValue(n / 16, width - 1);
      HexRunAppend(s, DigitChar(n % 16));
      var t := HexDigits(n, width);
      assert t == s + [DigitChar(n % 16)];
      assert t[..|t| - 1] == s;
    }
  }

  lemma NothingToStrip(s: Str)
    requires s != [] && UpperHex(s)
    ensures SkipSpaces(s) == s && StripSign(s) == (false, s) && Strip0x(s) == s
  {
    assert s[0] in s;
    assert |s| > 1 ==> s[1] in s;
  }

  lemma ParseUpperHex(s: Str)
    requires s != [] && HexRun(s) == |s| && HexNumber(s) < TWO64 && UpperHex(s)
    ensures ParseHex(s) == Some(HexNumber(s))
  {
    hide HexRun, HexNumber, UpperHex, SkipSpaces, StripSign, Strip0x;
    NothingToStrip(s);
    assert s[..|s|] == s;
  }

  lemma Pow16Is64Bits()
    ensures Pow16(16) == TWO64
  {
    assert Pow16(4) == 0x1_0000;
    assert Pow16(8) == 0x1_0000_0000;
    assert Pow16(12) == 0x1_0000_0000_0000;
  }

  /** Every 64-bit id is read back from its printed form. */
  lemma ParsePrintHex(id: nat)
    requires id < TWO64
    ensures ParseHex(PrintHex(id)) == Some(id)
    ensures '/' !in PrintHex(id)
  {
    hide ParseHex, HexNumber, HexRun, HexDigits;
    Pow16Is64Bits();
    HexDigitsValue(id, 16);
    ParseUpperHex(PrintHex(id));
  }

  lemma PrintHexInjective(a: nat, b: nat)
    requires a < TWO64 && b < TWO64 && PrintHex(a) == PrintHex(b)
    ensures a == b
  {
    ParsePrintHex(a);
    ParsePrintHex(b);
  }

  /** It reads lower-case digits, too, and throws when there are none. */
  lemma ParseShort()
    ensures ParseHex("") == None && ParseHex("g") == None && ParseHex("1f") == Some(31)
  {
    var f: Str := "1f";
    assert f[1..] == "f" && f[..2] == f && f[..1] == "1" && "f"[1..] == "" && "1"[..0] == "";
    assert HexRun("f") == 1 && HexRun(f) == 2;
    assert HexRun("1") == 1 && "1"[1..] == "";
    assert HexNumber("1") == 1;
  }

  lemma StripsBefore(s: Str)
    requires s != [] && UpperHex(s)
    ensures StripSign(SkipSpaces([' '] + s)) == (false, s) && StripSign(SkipSpaces(['+'] + s)) == (false, s)
    ensures StripSign(SkipSpaces(['-'] + s)) == (true, s) && Strip0x(s) == s
  {
    NothingToStrip(s);
    assert ([' '] + s)[1..] == s && (['+'] + s)[1..] == s && (['-'] + s)[1..] == s;
    hide UpperHex, Strip0x;
  }

  lemma ParsesAfter(s: Str)
    requires s != [] && HexRun(s) == |s| && 0 < HexNumber(s) < TWO64 && UpperHex(s)
    ensures ParseHex([' '] + s) == Some(HexNumber(s)) && ParseHex(['+'] + s) == Some(HexNumber(s))
    ensures ParseHex(['-'] + s) == Some(TWO64 - HexNumber(s))
  {
    hide HexNumber, HexRun, Strip0x, UpperHex, SkipSpaces, StripSign;
    StripsBefore(s);
    assert s[..|s|] == s;
  }

  /** `stoull` skips white space, and takes a sign. */
  lemma ParsesAsStoull(id: nat)
    requires 0 < id < TWO64
    ensures ParseHex([' '] + PrintHex(id)) == Some(id) && ParseHex(['+'] + PrintHex(id)) == Some(id)
    ensures ParseHex(['-'] + PrintHex(id)) == Some(TWO64 - id)
  {
    Pow16Is64Bits();
    HexDigitsValue(id, 16);
    hide HexDigits, HexNumber, HexRun, ParseHex;
    ParsesAfter(PrintHex(id));
  }
}
