/** Percent-escaping of channel names and file names (contrib/ecalhdf5/src/escape.cpp). */
module Escape {
  import opened Strings

  // The two lookup tables.

  predicate ReservedInTopic(c: Byte) {
    c as int < 0x20 || c == '%' || c == ',' || c == '/' || c as int >= 0x7F
  }

  predicate ReservedInFile(c: Byte) {
    c as int < 0x20 || c in {'"', '%', '*', '/', ':', '<', '>', '?', '\\', '|'} || c as int == 0x7F
  }

  datatype Usage = TopicName | FileName {
    predicate Reserves(c: Byte) {
      match this
      case TopicName => ReservedInTopic(c)
      case FileName => ReservedInFile(c)
    }
  }

  // ---------- Escaping ----------

  /** A reserved byte becomes `%` and two upper-case hexadecimal digits. */
  function EscapeByte(usage: Usage, c: Byte): Str {
    if usage.Reserves(c) then ['%', DigitChar(c as int / 16), DigitChar(c as int % 16)] else [c]
  }

  function EscapeWith(usage: Usage, s: Str): Str {
    if s == [] then [] else EscapeByte(usage, s[0]) + EscapeWith(usage, s[1..])
  }

  function EscapeTopic(s: Str): Str { EscapeWith(TopicName, s) }

  function EscapeFile(s: Str): Str { EscapeWith(FileName, s) }

  lemma {:induction false} EscapeAppend(usage: Usage, s: Str, t: Str)
    ensures EscapeWith(usage, s + t) == EscapeWith(usage, s) + EscapeWith(usage, t)
  {
    if s == [] {
      assert s + t == t;
    } else {
      assert (s + t)[1..] == s[1..] + t;
      EscapeAppend(usage, s[1..], t);
    }
  }

  method GetEscapedString(input: Str, usage: Usage) returns (output: Str)
    ensures output == EscapeWith(usage, input)
  {
    output := [];
    for i := 0 to |input|
      invariant output == EscapeWith(usage, input[..i])
    {
      assert input[..i + 1] == input[..i] + [input[i]];
      EscapeAppend(usage, input[..i], [input[i]]);
      if usage.Reserves(input[i]) {
        output := output + ['%', DigitChar(input[i] as int / 16), DigitChar(input[i] as int % 16)];
      } else {
        output := output + [input[i]];
      }
    }
    assert input[..|input|] == input;
  }

  // ---------- Unescaping ----------

  /** What `sscanf(field, "%X", &n)` reports: -1, 0, or 1 with the number read. */
  datatype Scan = EndOfInput | NoMatch | Match(value: nat)

  const TWO32: nat := 0x1_0000_0000

  function UpToNul(s: Str): Str {
    if s == [] || s[0] as int == 0 then [] else [s[0]] + UpToNul(s[1..])
  }

  function ScanHex(field: Str): Scan {
    var text := SkipSpaces(UpToNul(field));
    if text == [] then EndOfInput
    else
      var (negative, digits) := StripSign(text);
      var n := HexRun(digits);
      if n == 0 || (n == 1 && |digits| == 2 && digits[0] == '0' && digits[1] in {'x', 'X'}) then NoMatch
      else
        HexRunTake(digits);
        var v := HexNumber(digits[..n]) % TWO32;
        Match(if negative && v > 0 then TWO32 - v else v)
  }

  /** The byte an escape sequence stands for: the scan's number, or 0 when the scan met
      the end of its input, which the caller does not tell from a match. */
  function ScannedByte(field: Str): Option<Byte> {
    match ScanHex(field)
    case EndOfInput => Some(0 as char)
    case NoMatch => None
    case Match(v) => Some((v % 256) as char)
  }

  function Unescape(s: Str): Str
    decreases |s|
  {
    if s == [] then []
    else if s[0] == '%' && |s| > 2 && ScannedByte(s[1..3]).Some? then
      [ScannedByte(s[1..3]).value] + Unescape(s[3..])
    else [s[0]] + Unescape(s[1..])
  }

  lemma UnescapeStep(s: Str, i: nat)
    requires i < |s|
    ensures s[i] == '%' && i + 2 < |s| && ScannedByte(s[i + 1..i + 3]).Some? ==>
              Unescape(s[i..]) == [ScannedByte(s[i + 1..i + 3]).value] + Unescape(s[i + 3..])
    ensures !(s[i] == '%' && i + 2 < |s| && ScannedByte(s[i + 1..i + 3]).Some?) ==>
              Unescape(s[i..]) == [s[i]] + Unescape(s[i + 1..])
  {
    var t := s[i..];
    if i + 2 < |s| {
      assert t[1..3] == s[i + 1..i + 3];
      assert t[3..] == s[i + 3..];
    }
    assert t[1..] == s[i + 1..];
  }

  /** The scan over `input`, whose body advances the index past an escape sequence. */
  method GetUnescapedString(input: Str) returns (output: Str)
    ensures output == Unescape(input)
  {
    hide ScannedByte;
    output := [];
    var i := 0;
    assert input[0..] == input;
    while i < |input|
      invariant 0 <= i <= |input|
      invariant Unescape(input) == output + Unescape(input[i..])
    {
      UnescapeStep(input, i);
      ghost var before := output;
      var c := input[i];
      var step := 1;
      if input[i] == '%' && i + 2 < |input| {
        var scanned := ScannedByte(input[i + 1..i + 3]);
        if scanned.Some? {
          c := scanned.value;
          step := 3;
        }
      }
      output := output + [c];
      i := i + step;
      assert before + ([c] + Unescape(input[i..])) == output + Unescape(input[i..]);
    }
    assert input[i..] == [];
  }

  // ---------- Round trips ----------

  lemma TwoDigits(h: Byte, l: Byte)
    requires HexValue(h).Some? && HexValue(l).Some?
    ensures HexRun([h, l]) == 2 && HexNumber([h, l]) == 16 * HexValue(h).value + HexValue(l).value
  {
    var f, g: Str := [h, l], [h];
    assert HexRun(f[1..]) == 1;
    HexRunPrefix(f);
    HexRunPrefix(g);
    assert f[..1] == g && g[..0] == [];
    assert HexNumber(g) == 16 * HexNumber([]) + HexValue(h).value;
    assert HexNumber(f) == 16 * HexNumber(g) + HexValue(l).value;
  }

  lemma PlainField(h: Byte, l: Byte)
    requires HexValue(h).Some? && HexValue(l).Some?
    ensures SkipSpaces(UpToNul([h, l])) == [h, l]
  {
    var f := [h, l];
    assert UpToNul(f[1..]) == [l];
    assert UpToNul(f) == f;
  }

  lemma ScanEscaped(c: Byte)
    ensures ScannedByte([DigitChar(c as int / 16), DigitChar(c as int % 16)]) == Some(c)
  {
    hide HexNumber, SkipSpaces, UpToNul, HexRun;
    var h, l := DigitChar(c as int / 16), DigitChar(c as int % 16);
    var f: Str := [h, l];
    TwoDigits(h, l);
    PlainField(h, l);
    assert f[..2] == f;
    assert HexValue(h).value == c as int / 16 && HexValue(l).value == c as int % 16;
    assert ScanHex(f) == Match(c as int % TWO32);
  }

  /** Unescaping undoes escaping with either table, for every byte string. */
  lemma {:induction false} UnescapeEscape(usage: Usage, s: Str)
    ensures Unescape(EscapeWith(usage, s)) == s
  {
    if s != [] {
      var c, rest := s[0], EscapeWith(usage, s[1..]);
      UnescapeEscape(usage, s[1..]);
      var t := EscapeWith(usage, s);
      if usage.Reserves(c) {
        ScanEscaped(c);
        assert t[1..3] == [DigitChar(c as int / 16), DigitChar(c as int % 16)];
        assert t[3..] == rest;
      } else {
        assert c != '%';
        assert t[1..] == rest;
      }
      assert s == [c] + s[1..];
    }
  }

  /** Distinct names stay distinct, as channels and as files. */
  lemma EscapeInjective(usage: Usage, s: Str, t: Str)
    requires EscapeWith(usage, s) == EscapeWith(usage, t)
    ensures s == t
  {
    UnescapeEscape(usage, s);
    UnescapeEscape(usage, t);
  }

  /** Escaped names contain no reserved byte but `%`; escaped topics in particular
      neither the comma of the channel list nor the slash of a URL. */
  lemma {:induction false} EscapedBytes(usage: Usage, s: Str, c: Byte)
    requires c in EscapeWith(usage, s)
    ensures c == '%' || !usage.Reserves(c)
    ensures usage == TopicName ==> c != ',' && c != '/'
  {
    var head, rest := EscapeByte(usage, s[0]), EscapeWith(usage, s[1..]);
    if c !in head {
      assert c in rest;
      EscapedBytes(usage, s[1..], c);
    }
  }

  /** Only the empty name escapes to the empty string, and a name without reserved bytes
      is its own escape. */
  lemma {:induction false} EscapeFixes(usage: Usage, s: Str)
    ensures EscapeWith(usage, s) == [] <==> s == []
    ensures EscapeWith(usage, s) == s <==> forall c | c in s :: !usage.Reserves(c)
    ensures |EscapeWith(usage, s)| >= |s|
  {
    if s != [] {
      EscapeFixes(usage, s[1..]);
      var t := EscapeWith(usage, s);
      if usage.Reserves(s[0]) {
        assert |t| > |s|;
        assert s[0] in s;
      } else {
        assert t[1..] == EscapeWith(usage, s[1..]);
        assert forall c | c in s[1..] :: c in s;
        assert forall c | c in s :: c == s[0] || c in s[1..];
        if t == s { assert t[1..] == s[1..]; }
        if t[1..] == s[1..] { assert t == [s[0]] + t[1..]; assert s == [s[0]] + s[1..]; }
      }
    }
  }

  // ---------- The tables, byte by byte ----------

  const HEX: Str := "0123456789ABCDEF"

  lemma DigitIsHex(n: nat)
    requires n < 16
    ensures DigitChar(n) == HEX[n]
  {
  }

  /** A byte of a topic name stays itself if it is printable ASCII other than the percent
      sign, the comma and the slash, and else becomes its two upper-case hexadecimal digits. */
  lemma TopicByte(c: Byte)
    ensures EscapeTopic([c])
         == if 0x20 <= c as int <= 0x7E && c != '%' && c != ',' && c != '/' then [c]
            else ['%', HEX[c as int / 16], HEX[c as int % 16]]
  {
    DigitIsHex(c as int / 16);
    DigitIsHex(c as int % 16);
    assert EscapeTopic([c]) == EscapeByte(TopicName, c) + EscapeWith(TopicName, [c][1..]);
  }

  /** A byte of a file name does unless it is a control character, the percent sign, or one of
      those that are special to file systems. */
  lemma FileByte(c: Byte)
    ensures EscapeFile([c])
         == if 0x20 <= c as int && c as int != 0x7F && c != '%' && c != '"' && c != '*' && c != '/' && c != ':'
               && c != '<' && c != '>' && c != '?' && c != '\\' && c != '|' then [c]
            else ['%', HEX[c as int / 16], HEX[c as int % 16]]
  {
    DigitIsHex(c as int / 16);
    DigitIsHex(c as int % 16);
    assert EscapeFile([c]) == EscapeByte(FileName, c) + EscapeWith(FileName, [c][1..]);
  }

  /** Escaped topics are printable ASCII without the comma of the channel list and the slash of
      a URL. */
  lemma TopicBytes(s: Str, c: Byte)
    requires c in EscapeTopic(s)
    ensures 0x20 <= c as int <= 0x7E && c != ',' && c != '/'
  {
    EscapedBytes(TopicName, s, c);
  }

  /** Escaped file names have no byte that is special to a file system. */
  lemma FileBytes(s: Str, c: Byte)
    requires c in EscapeFile(s)
    ensures 0x20 <= c as int && c as int != 0x7F
    ensures c != '"' && c != '*' && c != '/' && c != ':' && c != '<' && c != '>' && c != '?' && c != '\\' && c != '|'
  {
    EscapedBytes(FileName, s, c);
  }

  // ---------- Unescaping any text ----------

  lemma ScanTwoDigits(h: Byte, l: Byte)
    requires HexValue(h).Some? && HexValue(l).Some?
    ensures ScannedByte([h, l]) == Some((16 * HexValue(h).value + HexValue(l).value) as char)
  {
    hide HexNumber, SkipSpaces, UpToNul, HexRun;
    var f: Str := [h, l];
    TwoDigits(h, l);
    PlainField(h, l);
    assert f[..2] == f;
    assert ScanHex(f) == Match(16 * HexValue(h).value + HexValue(l).value);
  }

  /** A percent sign with two hexadecimal digits, of either case, is one byte; any other byte
      stands for itself, and so does a percent sign with less than two bytes after it. */
  lemma UnescapeReads(h: Byte, l: Byte, rest: Str)
    requires HexValue(h).Some? && HexValue(l).Some?
    ensures Unescape(['%', h, l] + rest) == [(16 * HexValue(h).value + HexValue(l).value) as char] + Unescape(rest)
    ensures forall c: Byte | c != '%' :: Unescape([c] + rest) == [c] + Unescape(rest)
    ensures Unescape(['%']) == ['%'] && Unescape(['%', h]) == ['%', h]
  {
    hide ScannedByte;
    ScanTwoDigits(h, l);
    var s: Str := ['%', h, l] + rest;
    assert s[1..3] == [h, l] && s[3..] == rest;
    forall c: Byte | c != '%' ensures Unescape([c] + rest) == [c] + Unescape(rest) {
      assert ([c] + rest)[1..] == rest;
    }
    var one: Str := ['%', h];
    assert ['%'][1..] == [] && one[1..] == [h] && one[1..][1..] == [];
  }

  lemma OneDigit(l: Byte)
    ensures HexValue(l).Some? ==> HexRun([l]) == 1 && HexNumber([l]) == HexValue(l).value
    ensures HexValue(l).None? ==> HexRun([l]) == 0
  {
    var g: Str := [l];
    assert g[1..] == [] && g[..0] == [];
  }

  lemma NoNul(h: Byte, l: Byte)
    requires h as int != 0 && l as int != 0
    ensures UpToNul([h, l]) == [h, l] && UpToNul([l]) == [l]
  {
    var f, g: Str := [h, l], [l];
    assert f[1..] == g && g[1..] == [];
    assert UpToNul(g) == [l] + UpToNul(g[1..]);
    assert UpToNul(f) == [h] + UpToNul(f[1..]);
  }

  lemma ScanDigitFirst(h: Byte, l: Byte)
    requires HexValue(h).Some? && HexValue(l).None? && l as int != 0
    ensures ScannedByte([h, l])
         == if h == '0' && (l == 'x' || l == 'X') then None else Some(HexValue(h).value as char)
  {
    var f, g: Str := [h, l], [l];
    assert f[1..] == g && g[1..] == [] && f[..1] == [h];
    NoNul(h, l);
    assert SkipSpaces(f) == f && StripSign(f) == (false, f);
    OneDigit(h);
    OneDigit(l);
    hide UpToNul, SkipSpaces, StripSign, HexNumber;
    assert HexRun(f) == 1;
  }

  lemma NoDigits()
    ensures HexRun([]) == 0
  {
  }

  lemma ScanSpaceFirst(h: Byte, l: Byte)
    requires IsSpace(h) && l as int != 0
    ensures ScannedByte([h, l])
         == if IsSpace(l) then Some(0 as char) else if HexValue(l).Some? then Some(HexValue(l).value as char) else None
  {
    var f, g: Str := [h, l], [l];
    assert f[1..] == g && g[1..] == [] && g[..1] == g;
    NoNul(h, l);
    assert SkipSpaces(f) == SkipSpaces(g);
    assert SkipSpaces(g) == if IsSpace(l) then [] else g;
    OneDigit(l);
    OneDigit('0');
    hide UpToNul, SkipSpaces, HexNumber, HexRun;
    if StripSign(g).1 == [] {
      NoDigits();
    }
  }

  lemma ScanSignFirst(h: Byte, l: Byte)
    requires (h == '+' || h == '-') && HexValue(l).Some?
    ensures ScannedByte([h, l])
         == Some((if h == '+' || l == '0' then HexValue(l).value else 256 - HexValue(l).value) as char)
  {
    var f, g: Str := [h, l], [l];
    assert f[1..] == g && g[1..] == [] && g[..1] == g;
    NoNul(h, l);
    assert SkipSpaces(f) == f;
    OneDigit(l);
    hide UpToNul, SkipSpaces, HexNumber, HexRun;
  }

  lemma ScanNoDigit(h: Byte, l: Byte)
    requires HexValue(h).None? && !IsSpace(h) && h as int != 0 && l as int != 0
    requires (h == '+' || h == '-') ==> HexValue(l).None?
    ensures ScannedByte([h, l]) == None
  {
    var f, g: Str := [h, l], [l];
    assert f[1..] == g && g[1..] == [];
    NoNul(h, l);
    assert SkipSpaces(f) == f;
    OneDigit(l);
    hide UpToNul, SkipSpaces, HexNumber;
    assert HexRun(f) == 0;
  }

  /** The scan of two bytes, case by case. */
  lemma ScanBytes(h: Byte, l: Byte)
    requires h as int != 0 && l as int != 0
    ensures ScannedByte([h, l])
         == if HexValue(h).Some? then
              (if HexValue(l).Some? then Some((16 * HexValue(h).value + HexValue(l).value) as char)
               else if h == '0' && (l == 'x' || l == 'X') then None else Some(HexValue(h).value as char))
            else if IsSpace(h) then
              (if IsSpace(l) then Some(0 as char)
               else if HexValue(l).Some? then Some(HexValue(l).value as char) else None)
            else if (h == '+' || h == '-') && HexValue(l).Some? then
              Some((if h == '+' || l == '0' then HexValue(l).value else 256 - HexValue(l).value) as char)
            else None
  {
    if HexValue(h).Some? && HexValue(l).Some? {
      ScanTwoDigits(h, l);
    } else if HexValue(h).Some? {
      ScanDigitFirst(h, l);
    } else if IsSpace(h) {
      ScanSpaceFirst(h, l);
    } else if (h == '+' || h == '-') && HexValue(l).Some? {
      ScanSignFirst(h, l);
    } else {
      ScanNoDigit(h, l);
    }
    hide ScannedByte;
  }

  /** What `sscanf` makes of two bytes that are not two digits: nothing if they begin with no
      digit, so that the percent sign stands for itself; one digit after white space or a
      sign; and the byte 0 for white space alone. */
  lemma ScanMalformed()
    ensures ScannedByte("zz") == None && ScannedByte("g1") == None && ScannedByte("--") == None && ScannedByte("0x") == None
    ensures ScannedByte("1g") == Some(1 as char) && ScannedByte(" 7") == Some(7 as char) && ScannedByte("+7") == Some(7 as char)
    ensures ScannedByte("-1") == Some(255 as char) && ScannedByte("  ") == Some(0 as char)
  {
    hide ScannedByte;
    ScanBytes('z', 'z');
    ScanBytes('g', '1');
    ScanBytes('-', '-');
    ScanBytes('0', 'x');
    ScanBytes('1', 'g');
    ScanBytes(' ', '7');
    ScanBytes('+', '7');
    ScanBytes('-', '1');
    ScanBytes(' ', ' ');
  }
}
