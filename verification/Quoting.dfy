/** The command line a process reports about itself, and the parser that splits a
    command line back into arguments (ecal/core/src/ecal_process.cpp,
    lib/ecal_utils/include/ecal_utils/ecal_utils.h). */
module Quoting {
  import opened Strings

  // ---------- Building the command line ----------

  predicate NeedsBackslash(c: Byte) { c == '\\' || c == '"' || c == '\'' }

  function EscapedByte(c: Byte): Str { if NeedsBackslash(c) then ['\\', c] else [c] }

  function EscapeBody(a: Str): Str { if a == [] then [] else EscapedByte(a[0]) + EscapeBody(a[1..]) }

  function EscapeArgument(a: Str): (e: Str)
    ensures e != []
  {
    if a == [] then ['"', '"']
    else if ' ' in a then ['"'] + EscapeBody(a) + ['"']
    else EscapeBody(a)
  }

  function EscapeAll(args: seq<Str>): (e: seq<Str>)
    ensures |e| == |args|
    ensures forall i | 0 <= i < |args| :: e[i] == EscapeArgument(args[i])
  {
    if args == [] then [] else [EscapeArgument(args[0])] + EscapeAll(args[1..])
  }

  function CommandLine(args: seq<Str>): Str { Join(EscapeAll(args), ' ') }

  lemma {:induction false} EscapeBodyAppend(s: Str, t: Str)
    ensures EscapeBody(s + t) == EscapeBody(s) + EscapeBody(t)
  {
    if s == [] {
      assert s + t == t;
    } else {
      assert (s + t)[1..] == s[1..] + t;
      EscapeBodyAppend(s[1..], t);
    }
  }

  method EscapeOne(argument: Str) returns (escaped: Str)
    ensures escaped == EscapeArgument(argument)
  {
    var body := [];
    for i := 0 to |argument|
      invariant body == EscapeBody(argument[..i])
    {
      assert argument[..i + 1] == argument[..i] + [argument[i]];
      EscapeBodyAppend(argument[..i], [argument[i]]);
      if NeedsBackslash(argument[i]) {
        body := body + ['\\', argument[i]];
      } else {
        body := body + [argument[i]];
      }
    }
    assert argument[..|argument|] == argument;
    escaped := if ' ' in argument then ['"'] + body + ['"'] else body;
    if escaped == [] {
      escaped := ['"', '"'];
    }
  }

  lemma {:induction false} JoinAppend(parts: seq<Str>, last: Str, d: Byte)
    ensures Join(parts + [last], d) == if parts == [] then last else Join(parts, d) + [d] + last
  {
    if |parts| > 1 {
      assert (parts + [last])[1..] == parts[1..] + [last];
      JoinAppend(parts[1..], last, d);
    }
  }

  method JoinWithSpaces(argumentVector: seq<Str>) returns (processPar: Str)
    ensures processPar == Join(argumentVector, ' ')
  {
    processPar := [];
    for i := 0 to |argumentVector|
      invariant processPar == Join(argumentVector[..i], ' ')
    {
      assert argumentVector[..i + 1] == argumentVector[..i] + [argumentVector[i]];
      JoinAppend(argumentVector[..i], argumentVector[i], ' ');
      if i != 0 {
        processPar := processPar + [' '];
      }
      processPar := processPar + argumentVector[i];
    }
    assert argumentVector[..|argumentVector|] == argumentVector;
  }

  /** Escapes the arguments in place, then joins them with spaces. */
  method GetProcessParameter(arguments: seq<Str>) returns (processPar: Str)
    ensures processPar == CommandLine(arguments)
  {
    var argumentVector := arguments;
    for i := 0 to |arguments|
      invariant |argumentVector| == |arguments|
      invariant forall k | 0 <= k < i :: argumentVector[k] == EscapeArgument(arguments[k])
      invariant forall k | i <= k < |arguments| :: argumentVector[k] == arguments[k]
    {
      var escaped := EscapeOne(argumentVector[i]);
      argumentVector := argumentVector[i := escaped];
    }
    assert argumentVector == EscapeAll(arguments);
    processPar := JoinWithSpaces(argumentVector);
  }

  // ---------- Splitting a command line ----------

  datatype Mode = Mode(quote: bool, squote: bool, inside: bool, current: Str) {
    predicate Plain() { !quote && !squote }
  }

  const START := Mode(false, false, false, [])

  const SPACES: set<Byte> := {' ', 9 as char, 10 as char, 11 as char, 12 as char, 13 as char}

  /** The scan of the parser from one of its states. `separators` is the class of bytes
      that end an argument. */
  function Scan(s: Str, separators: set<Byte>, m: Mode): seq<Str>
    decreases |s|
  {
    if s == [] then (if m.inside then [m.current] else [])
    else
      var c := s[0];
      if m.inside && m.Plain() && c in separators then
        [m.current] + Scan(s[1..], separators, m.(inside := false, current := []))
      else if c == '\'' && !m.quote then
        Scan(s[1..], separators, m.(inside := true, squote := !m.squote))
      else if c == '"' && !m.squote then
        Scan(s[1..], separators, m.(inside := true, quote := !m.quote))
      else if c == '\\' then
        if |s| > 1 then Scan(s[2..], separators, m.(inside := true, current := m.current + [s[1]]))
        else Scan([], separators, m.(inside := true))
      else if !m.Plain() then
        Scan(s[1..], separators, m.(current := m.current + [c]))
      else if c !in separators then
        Scan(s[1..], separators, m.(inside := true, current := m.current + [c]))
      else Scan(s[1..], separators, m)
  }

  method ToArgv(commandLine: Str) returns (argv: seq<Str>)
    ensures argv == Scan(commandLine, SPACES, START)
  {
    argv := [];
    var quote, squote, insideArg := false, false, false;
    var currentArg: Str := [];
    var pos := 0;
    assert commandLine[0..] == commandLine;
    while pos < |commandLine|
      invariant 0 <= pos <= |commandLine|
      invariant argv + Scan(commandLine[pos..], SPACES, Mode(quote, squote, insideArg, currentArg))
             == Scan(commandLine, SPACES, START)
    {
      var currentChar := commandLine[pos];
      ghost var rest := commandLine[pos..];
      assert rest[0] == currentChar && rest[1..] == commandLine[pos + 1..];
      assert |rest| > 1 ==> rest[2..] == commandLine[pos + 2..] && rest[1] == commandLine[pos + 1];
      if insideArg && !quote && !squote && currentChar in SPACES {
        ghost var after := Scan(rest[1..], SPACES, Mode(quote, squote, false, []));
        assert argv + ([currentArg] + after) == (argv + [currentArg]) + after;
        argv := argv + [currentArg];
        currentArg := [];
        insideArg := false;
      } else if currentChar == '\'' && !quote {
        insideArg := true;
        squote := !squote;
      } else if currentChar == '"' && !squote {
        insideArg := true;
        quote := !quote;
      } else if currentChar == '\\' {
        if pos + 1 < |commandLine| {
          currentArg := currentArg + [commandLine[pos + 1]];
          pos := pos + 1;
        }
        insideArg := true;
      } else if quote || squote {
        currentArg := currentArg + [currentChar];
      } else if currentChar !in SPACES {
        currentArg := currentArg + [currentChar];
        insideArg := true;
      }
      pos := pos + 1;
    }
    assert commandLine[pos..] == [];
    if insideArg {
      argv := argv + [currentArg];
    }
  }

  // ---------- What the parser makes of an escaped argument ----------

  /** Separators the proofs allow: the space is one, backslash and quotes are not. */
  predicate Separates(separators: set<Byte>) {
    ' ' in separators && '\\' !in separators && '"' !in separators && '\'' !in separators
  }

  lemma ScanQuotedByte(c: Byte, tail: Str, separators: set<Byte>, m: Mode)
    requires m.quote && !m.squote && m.inside
    ensures Scan(EscapedByte(c) + tail, separators, m) == Scan(tail, separators, m.(current := m.current + [c]))
  {
    var s := EscapedByte(c) + tail;
    if NeedsBackslash(c) {
      assert s[0] == '\\' && s[1] == c && s[2..] == tail;
    } else {
      assert s[0] == c && s[1..] == tail;
    }
  }

  lemma EscapedNone(rest: Str)
    ensures EscapeBody([]) + rest == rest
  {
  }

  lemma EscapedFirst(a: Str, rest: Str)
    requires a != []
    ensures EscapeBody(a) + rest == EscapedByte(a[0]) + (EscapeBody(a[1..]) + rest)
  {
  }

  lemma {:induction false} ScanQuoted(a: Str, rest: Str, separators: set<Byte>, m: Mode)
    requires m.quote && !m.squote && m.inside
    ensures Scan(EscapeBody(a) + rest, separators, m) == Scan(rest, separators, m.(current := m.current + a))
  {
    hide Scan, NeedsBackslash, EscapedByte, EscapeBody;
    if a == [] {
      EscapedNone(rest);
      assert m.current + a == m.current;
    } else {
      var next := m.(current := m.current + [a[0]]);
      EscapedFirst(a, rest);
      ScanQuotedByte(a[0], EscapeBody(a[1..]) + rest, separators, m);
      ScanQuoted(a[1..], rest, separators, next);
      assert next.current + a[1..] == m.current + a;
    }
  }

  /** The unquoted scan of raw text: the arguments it completes and the one it is in. */
  function Break(a: Str, separators: set<Byte>, inside: bool, current: Str): (r: (seq<Str>, bool, Str))
    ensures (inside || current == []) && !r.1 ==> r.2 == []
    decreases |a|
  {
    if a == [] then ([], inside, current)
    else if a[0] !in separators then Break(a[1..], separators, true, current + [a[0]])
    else if inside then
      var (done, i, c) := Break(a[1..], separators, false, []);
      ([current] + done, i, c)
    else Break(a[1..], separators, false, current)
  }

  lemma {:induction false} ScanBare(a: Str, rest: Str, separators: set<Byte>, inside: bool, current: Str)
    requires Separates(separators)
    ensures (var (done, i, c) := Break(a, separators, inside, current);
             Scan(EscapeBody(a) + rest, separators, Mode(false, false, inside, current))
             == done + Scan(rest, separators, Mode(false, false, i, c)))
    decreases |a|
  {
    var s := EscapeBody(a) + rest;
    if a == [] {
      assert s == rest;
    } else {
      var tail := EscapeBody(a[1..]) + rest;
      if NeedsBackslash(a[0]) {
        assert s[2..] == tail;
        ScanBare(a[1..], rest, separators, true, current + [a[0]]);
      } else {
        assert s[1..] == tail;
        if a[0] !in separators {
          ScanBare(a[1..], rest, separators, true, current + [a[0]]);
        } else {
          ScanBare(a[1..], rest, separators, false, if inside then [] else current);
        }
      }
    }
  }

  /** The arguments read from one escaped argument. */
  function ReadArgument(a: Str, separators: set<Byte>): seq<Str> {
    if a == [] || ' ' in a then [a]
    else
      var (done, inside, current) := Break(a, separators, false, []);
      if inside then done + [current] else done
  }

  function ReadAll(args: seq<Str>, separators: set<Byte>): seq<Str> {
    if args == [] then [] else ReadArgument(args[0], separators) + ReadAll(args[1..], separators)
  }

  lemma ScanClosingQuote(a: Str, rest: Str, separators: set<Byte>)
    requires Separates(separators)
    requires rest == [] || rest[0] == ' '
    ensures Scan(['"'] + rest, separators, Mode(true, false, true, a))
         == [a] + Scan(if rest == [] then [] else rest[1..], separators, START)
  {
    assert (['"'] + rest)[1..] == rest;
  }

  lemma ScanQuotedArgument(a: Str, rest: Str, separators: set<Byte>)
    requires Separates(separators)
    requires rest == [] || rest[0] == ' '
    ensures Scan(['"'] + EscapeBody(a) + ['"'] + rest, separators, START)
         == [a] + Scan(if rest == [] then [] else rest[1..], separators, START)
  {
    hide EscapeBody;
    var body := EscapeBody(a);
    var tail := ['"'] + rest;
    var s := ['"'] + body + ['"'] + rest;
    assert s[0] == '"' && s[1..] == body + tail;
    assert Scan(s, separators, START) == Scan(s[1..], separators, Mode(true, false, true, []));
    ScanQuoted(a, tail, separators, Mode(true, false, true, []));
    assert [] + a == a;
    ScanClosingQuote(a, rest, separators);
  }

  lemma ScanAfterBare(rest: Str, separators: set<Byte>, inside: bool, current: Str)
    requires Separates(separators)
    requires rest == [] || rest[0] == ' '
    requires !inside ==> current == []
    ensures Scan(rest, separators, Mode(false, false, inside, current))
         == (if inside then [current] else []) + Scan(if rest == [] then [] else rest[1..], separators, START)
  {
  }

  lemma ScanArgument(a: Str, rest: Str, separators: set<Byte>)
    requires Separates(separators)
    requires rest == [] || rest[0] == ' '
    ensures Scan(EscapeArgument(a) + rest, separators, START)
         == ReadArgument(a, separators) + Scan(if rest == [] then [] else rest[1..], separators, START)
  {
    if a == [] || ' ' in a {
      assert EscapeArgument(a) + rest == ['"'] + EscapeBody(a) + ['"'] + rest;
      ScanQuotedArgument(a, rest, separators);
    } else {
      ScanBare(a, rest, separators, false, []);
      var (done, inside, current) := Break(a, separators, false, []);
      ScanAfterBare(rest, separators, inside, current);
    }
  }

  /** The parser reads a joined command line argument by argument. */
  lemma {:induction false} ScanCommandLine(args: seq<Str>, separators: set<Byte>)
    requires Separates(separators)
    ensures Scan(CommandLine(args), separators, START) == ReadAll(args, separators)
  {
    if |args| == 1 {
      ScanArgument(args[0], [], separators);
      assert EscapeArgument(args[0]) + [] == CommandLine(args);
      assert ReadAll(args[1..], separators) == [];
    } else if |args| > 1 {
      var rest := [' '] + CommandLine(args[1..]);
      assert CommandLine(args) == EscapeArgument(args[0]) + rest;
      assert rest[1..] == CommandLine(args[1..]);
      ScanArgument(args[0], rest, separators);
      ScanCommandLine(args[1..], separators);
    }
  }

  // ---------- Round trips ----------

  /** An argument that survives: it has no separator, or it is quoted because it
      contains a space. */
  predicate Survives(a: Str, separators: set<Byte>) {
    ' ' in a || forall c | c in a :: c !in separators
  }

  lemma {:induction false} BreakWithoutSeparator(a: Str, separators: set<Byte>, inside: bool, current: Str)
    requires forall c | c in a :: c !in separators
    ensures Break(a, separators, inside, current) == ([], inside || a != [], current + a)
  {
    if a == [] {
      assert current + a == current;
    } else {
      assert a[0] in a;
      BreakWithoutSeparator(a[1..], separators, true, current + [a[0]]);
      assert current + [a[0]] + a[1..] == current + a;
    }
  }

  lemma {:induction false} BreakIsSeparatorFree(a: Str, separators: set<Byte>, inside: bool, current: Str)
    requires forall c | c in current :: c !in separators
    ensures (var (done, i, cur) := Break(a, separators, inside, current);
             (forall w, c | w in done && c in w :: c !in separators) && (forall c | c in cur :: c !in separators))
    decreases |a|
  {
    if a != [] {
      if a[0] !in separators {
        BreakIsSeparatorFree(a[1..], separators, true, current + [a[0]]);
      } else {
        BreakIsSeparatorFree(a[1..], separators, false, if inside then [] else current);
      }
    }
  }

  lemma {:induction false} ReadSurvivors(args: seq<Str>, separators: set<Byte>)
    requires forall a | a in args :: Survives(a, separators)
    ensures ReadAll(args, separators) == args
  {
    if args != [] {
      var a := args[0];
      assert a in args;
      if a != [] && ' ' !in a {
        BreakWithoutSeparator(a, separators, false, []);
        assert [] + a == a;
      }
      ReadSurvivors(args[1..], separators);
      assert args == [a] + args[1..];
    }
  }

  /** An argument that does not survive is none of the arguments read. */
  lemma {:induction false} LostArgument(args: seq<Str>, separators: set<Byte>, a: Str)
    requires !Survives(a, separators)
    ensures a !in ReadAll(args, separators)
  {
    if args != [] {
      LostArgument(args[1..], separators, a);
      var b := args[0];
      if b != [] && ' ' !in b {
        BreakIsSeparatorFree(b, separators, false, []);
        assert forall w | w in ReadArgument(b, separators) :: Survives(w, separators);
      }
    }
  }

  /** `ToArgv` recovers the argument vector exactly when every argument with a tab, line
      feed, vertical tab, form feed or carriage return also contains a space. */
  lemma RoundTripIff(args: seq<Str>)
    ensures Scan(CommandLine(args), SPACES, START) == args
       <==> forall a | a in args :: Survives(a, SPACES)
  {
    ScanCommandLine(args, SPACES);
    if forall a | a in args :: Survives(a, SPACES) {
      ReadSurvivors(args, SPACES);
    } else {
      var a :| a in args && !Survives(a, SPACES);
      LostArgument(args, SPACES, a);
    }
  }

  /** No two argument vectors share a command line, whatever bytes they contain. */
  lemma CommandLineInjective(args: seq<Str>, brgs: seq<Str>)
    requires CommandLine(args) == CommandLine(brgs)
    ensures args == brgs
  {
    var onlySpace: set<Byte> := {' '};
    ScanCommandLine(args, onlySpace);
    ScanCommandLine(brgs, onlySpace);
    ReadSurvivors(args, onlySpace);
    ReadSurvivors(brgs, onlySpace);
  }

  /** A lone tab is such an argument: its command line parses to no argument at all. */
  lemma TabIsLost()
    ensures Scan(CommandLine([[9 as char]]), SPACES, START) == []
  {
    var tab: Str := [9 as char];
    ScanCommandLine([tab], SPACES);
    assert tab[1..] == [];
    assert Break(tab, SPACES, false, []) == ([], false, []);
    assert [tab][1..] == [];
  }

  // ---------- What a command line means ----------

  /** A byte inside quotes, as it is or after a backslash. */
  datatype Quoted = Plainly(c: Byte) | Backslashed(c: Byte)

  /** The pieces an argument can be written in. */
  datatype Piece = Bare(c: Byte) | Escaped(c: Byte) | Single(body: seq<Quoted>) | Double(body: seq<Quoted>)

  function QuotedByteText(q: Quoted): Str {
    match q
    case Plainly(c) => [c]
    case Backslashed(c) => ['\\', c]
  }

  function QuotedText(body: seq<Quoted>): Str {
    if body == [] then []
    else QuotedByteText(body[0]) + QuotedText(body[1..])
  }

  function QuotedMeaning(body: seq<Quoted>): (m: Str)
    ensures |m| == |body| && forall i | 0 <= i < |m| :: m[i] == body[i].c
  {
    seq(|body|, i requires 0 <= i < |body| => body[i].c)
  }

  function PieceText(p: Piece): Str {
    match p
    case Bare(c) => [c]
    case Escaped(c) => ['\\', c]
    case Single(body) => ['\''] + QuotedText(body) + ['\'']
    case Double(body) => ['"'] + QuotedText(body) + ['"']
  }

  function PieceMeaning(p: Piece): Str {
    match p
    case Bare(c) => [c]
    case Escaped(c) => [c]
    case Single(body) => QuotedMeaning(body)
    case Double(body) => QuotedMeaning(body)
  }

  predicate BodyOk(body: seq<Quoted>, quote: Byte) {
    forall i | 0 <= i < |body| && body[i].Plainly? :: body[i].c != '\\' && body[i].c != quote
  }

  /** Only white space, quotes and backslashes cannot stand alone, and only the quote itself
      and backslashes not inside quotes. */
  predicate PieceOk(p: Piece) {
    match p
    case Bare(c) => !IsSpace(c) && c != '\\' && c != '\'' && c != '"'
    case Escaped(_) => true
    case Single(body) => BodyOk(body, '\'')
    case Double(body) => BodyOk(body, '"')
  }

  lemma SpacesAreSpaces(c: Byte)
    ensures c in SPACES <==> IsSpace(c)
  {
  }

  lemma ScanBackslash(c: Byte, rest: Str, m: Mode)
    requires (m.quote || m.squote ==> m.inside)
    ensures Scan(['\\', c] + rest, SPACES, m) == Scan(rest, SPACES, m.(inside := true, current := m.current + [c]))
  {
    var s := ['\\', c] + rest;
    assert s[1] == c && s[2..] == rest;
  }

  lemma ScanInside(c: Byte, rest: Str, m: Mode)
    requires m.inside && (m.quote != m.squote) && c != '\\' && c != (if m.quote then '"' else '\'')
    ensures Scan([c] + rest, SPACES, m) == Scan(rest, SPACES, m.(current := m.current + [c]))
  {
    assert ([c] + rest)[1..] == rest;
  }

  lemma ScanQuotedPart(q: Quoted, rest: Str, m: Mode)
    requires m.inside && m.quote != m.squote && BodyOk([q], if m.quote then '"' else '\'')
    ensures Scan(QuotedByteText(q) + rest, SPACES, m) == Scan(rest, SPACES, m.(current := m.current + [q.c]))
  {
    hide Scan, SPACES;
    assert [q][0] == q;
    match q
    case Plainly(c) => ScanInside(c, rest, m);
    case Backslashed(c) => ScanBackslash(c, rest, m);
  }

  lemma TextFirst(body: seq<Quoted>, rest: Str)
    requires body != []
    ensures QuotedText(body) + rest == QuotedByteText(body[0]) + (QuotedText(body[1..]) + rest)
  {
    hide QuotedByteText;
    var head, tail := QuotedByteText(body[0]), QuotedText(body[1..]);
    assert QuotedText(body) == head + tail;
    hide QuotedText;
    assert (head + tail) + rest == head + (tail + rest);
  }

  lemma MeaningFirst(body: seq<Quoted>, before: Str)
    requires body != []
    ensures (before + [body[0].c]) + QuotedMeaning(body[1..]) == before + QuotedMeaning(body)
  {
    hide QuotedMeaning;
  }

  lemma OkFirst(body: seq<Quoted>, quote: Byte)
    requires body != [] && BodyOk(body, quote)
    ensures BodyOk([body[0]], quote) && BodyOk(body[1..], quote)
  {
  }

  lemma NoBody(rest: Str, current: Str)
    ensures QuotedText([]) + rest == rest && current + QuotedMeaning([]) == current
  {
  }

  lemma {:induction false} ScanBody(body: seq<Quoted>, rest: Str, m: Mode)
    requires m.inside && m.quote != m.squote && BodyOk(body, if m.quote then '"' else '\'')
    ensures Scan(QuotedText(body) + rest, SPACES, m) == Scan(rest, SPACES, m.(current := m.current + QuotedMeaning(body)))
  {
    hide Scan, SPACES, BodyOk, QuotedByteText, QuotedText, QuotedMeaning;
    if body == [] {
      NoBody(rest, m.current);
    } else {
      OkFirst(body, if m.quote then '"' else '\'');
      TextFirst(body, rest);
      MeaningFirst(body, m.current);
      ScanQuotedPart(body[0], QuotedText(body[1..]) + rest, m);
      ScanBody(body[1..], rest, m.(current := m.current + [body[0].c]));
    }
  }

  lemma ScanQuote(rest: Str, m: Mode)
    ensures !m.quote ==> Scan(['\''] + rest, SPACES, m) == Scan(rest, SPACES, m.(inside := true, squote := !m.squote))
    ensures !m.squote ==> Scan(['"'] + rest, SPACES, m) == Scan(rest, SPACES, m.(inside := true, quote := !m.quote))
  {
    assert (['\''] + rest)[1..] == rest && (['"'] + rest)[1..] == rest;
  }

  lemma ScanBareByte(c: Byte, rest: Str, m: Mode)
    requires m.Plain() && PieceOk(Bare(c))
    ensures Scan([c] + rest, SPACES, m) == Scan(rest, SPACES, m.(inside := true, current := m.current + [c]))
  {
    SpacesAreSpaces(c);
    assert ([c] + rest)[1..] == rest;
  }

  lemma ScanQuotedPiece(quote: Byte, body: seq<Quoted>, rest: Str, m: Mode)
    requires m.Plain() && (quote == '"' || quote == '\'') && BodyOk(body, quote)
    ensures Scan([quote] + QuotedText(body) + [quote] + rest, SPACES, m)
         == Scan(rest, SPACES, m.(inside := true, current := m.current + QuotedMeaning(body)))
  {
    hide Scan, SPACES;
    var tail := [quote] + rest;
    assert [quote] + QuotedText(body) + [quote] + rest == [quote] + (QuotedText(body) + tail);
    var within := m.(inside := true, quote := quote == '"', squote := quote == '\'');
    ScanQuote(QuotedText(body) + tail, m);
    ScanBody(body, tail, within);
    ScanQuote(rest, within.(current := m.current + QuotedMeaning(body)));
  }

  lemma ScanPiece(p: Piece, rest: Str, m: Mode)
    requires m.Plain() && PieceOk(p)
    ensures Scan(PieceText(p) + rest, SPACES, m) == Scan(rest, SPACES, m.(inside := true, current := m.current + PieceMeaning(p)))
  {
    hide Scan, SPACES, QuotedText;
    match p
    case Bare(c) => ScanBareByte(c, rest, m);
    case Escaped(c) => ScanBackslash(c, rest, m);
    case Single(body) => ScanQuotedPiece('\'', body, rest, m);
    case Double(body) => ScanQuotedPiece('"', body, rest, m);
  }

  function ArgumentText(pieces: seq<Piece>): Str {
    if pieces == [] then [] else PieceText(pieces[0]) + ArgumentText(pieces[1..])
  }

  function ArgumentMeaning(pieces: seq<Piece>): Str {
    if pieces == [] then [] else PieceMeaning(pieces[0]) + ArgumentMeaning(pieces[1..])
  }

  predicate ArgumentOk(pieces: seq<Piece>) { pieces != [] && forall i | 0 <= i < |pieces| :: PieceOk(pieces[i]) }

  /** Adjacent pieces are one argument. */
  lemma {:induction false} ScanPieces(pieces: seq<Piece>, rest: Str, m: Mode)
    requires m.Plain() && forall i | 0 <= i < |pieces| :: PieceOk(pieces[i])
    ensures Scan(ArgumentText(pieces) + rest, SPACES, m)
         == Scan(rest, SPACES, m.(inside := m.inside || pieces != [], current := m.current + ArgumentMeaning(pieces)))
  {
    hide Scan, SPACES, PieceText, PieceMeaning, PieceOk;
    if pieces == [] {
      assert ArgumentText(pieces) + rest == rest && m.current + ArgumentMeaning(pieces) == m.current;
    } else {
      var next := m.(inside := true, current := m.current + PieceMeaning(pieces[0]));
      assert ArgumentText(pieces) + rest == PieceText(pieces[0]) + (ArgumentText(pieces[1..]) + rest);
      ScanPiece(pieces[0], ArgumentText(pieces[1..]) + rest, m);
      ScanPieces(pieces[1..], rest, next);
      assert next.current + ArgumentMeaning(pieces[1..]) == m.current + ArgumentMeaning(pieces);
    }
  }

  /** An argument after some white space. */
  datatype Spaced = Spaced(gap: Str, pieces: seq<Piece>)

  predicate AllSpaces(s: Str) { forall c | c in s :: IsSpace(c) }

  function LineText(args: seq<Spaced>, end: Str): Str {
    if args == [] then end else args[0].gap + ArgumentText(args[0].pieces) + LineText(args[1..], end)
  }

  function LineMeaning(args: seq<Spaced>): (words: seq<Str>)
    ensures |words| == |args| && forall i | 0 <= i < |args| :: words[i] == ArgumentMeaning(args[i].pieces)
  {
    seq(|args|, i requires 0 <= i < |args| => ArgumentMeaning(args[i].pieces))
  }

  /** Arguments are separated by white space, which may also come first and last. */
  predicate LineOk(args: seq<Spaced>, end: Str) {
    && AllSpaces(end)
    && (forall i | 0 <= i < |args| :: ArgumentOk(args[i].pieces) && AllSpaces(args[i].gap))
    && (forall i | 0 < i < |args| :: args[i].gap != [])
  }

  lemma {:induction false} ScanGap(gap: Str, rest: Str, m: Mode)
    requires AllSpaces(gap) && m.Plain() && (m.inside ==> gap != []) && (!m.inside ==> m.current == [])
    ensures Scan(gap + rest, SPACES, m) == (if m.inside then [m.current] else []) + Scan(rest, SPACES, START)
    decreases |gap|
  {
    if gap == [] {
      assert gap + rest == rest;
    } else {
      assert gap[0] in gap;
      SpacesAreSpaces(gap[0]);
      assert (gap + rest)[1..] == gap[1..] + rest;
      ScanGap(gap[1..], rest, START);
    }
  }

  lemma ScanEnd(end: Str, m: Mode)
    requires AllSpaces(end) && m.Plain() && m.inside
    ensures Scan(end, SPACES, m) == [m.current]
  {
    if end != [] {
      ScanGap(end, [], m);
      assert end + [] == end;
    }
  }

  lemma ScanNothing()
    ensures Scan([], SPACES, START) == []
  {
  }

  /** The parser reads every well-formed command line, whoever made it: white space separates
      arguments, a backslash stands for the next byte inside and outside quotes, quotes of one
      kind protect white space and quotes of the other, and what is adjacent is one
      argument. */
  lemma {:induction false} ScanLine(args: seq<Spaced>, end: Str)
    requires LineOk(args, end)
    ensures Scan(LineText(args, end), SPACES, START) == LineMeaning(args)
  {
    hide Scan, SPACES, ArgumentText, ArgumentMeaning;
    if args == [] {
      ScanGap(end, [], START);
      assert end + [] == end;
      ScanNothing();
    } else {
      var rest := LineText(args[1..], end);
      assert LineText(args, end) == args[0].gap + (ArgumentText(args[0].pieces) + rest);
      ScanGap(args[0].gap, ArgumentText(args[0].pieces) + rest, START);
      ScanPieces(args[0].pieces, rest, START);
      var m := START.(inside := true, current := ArgumentMeaning(args[0].pieces));
      assert START.current + ArgumentMeaning(args[0].pieces) == m.current;
      ScanLine(args[1..], end);
      assert LineMeaning(args) == [m.current] + LineMeaning(args[1..]);
      if |args| == 1 {
        ScanEnd(end, m);
      } else {
        var gap, more := args[1].gap, ArgumentText(args[1].pieces) + LineText(args[1..][1..], end);
        assert rest == gap + more;
        ScanGap(gap, more, m);
        ScanGap(gap, more, START);
      }
    }
  }

  function AllPlainly(a: Str): (body: seq<Quoted>)
    ensures |body| == |a| && forall i | 0 <= i < |a| :: body[i] == Plainly(a[i])
  {
    seq(|a|, i requires 0 <= i < |a| => Plainly(a[i]))
  }

  lemma {:induction false} PlainText(a: Str)
    ensures QuotedText(AllPlainly(a)) == a && QuotedMeaning(AllPlainly(a)) == a
  {
    if a != [] {
      PlainText(a[1..]);
      assert AllPlainly(a)[1..] == AllPlainly(a[1..]);
      assert a == [a[0]] + a[1..];
    }
  }

  /** Between single quotes white space and double quotes are part of the argument, and
      between double quotes white space and single quotes are. */
  lemma QuotesProtect(a: Str)
    requires '\\' !in a
    ensures '\'' !in a ==> Scan(['\''] + a + ['\''], SPACES, START) == [a]
    ensures '"' !in a ==> Scan(['"'] + a + ['"'], SPACES, START) == [a]
  {
    hide Scan, SPACES;
    PlainText(a);
    var body := AllPlainly(a);
    assert [] + a == a;
    if '\'' !in a {
      ScanQuotedPiece('\'', body, [], START);
      assert ['\''] + a + ['\''] + [] == ['\''] + a + ['\''];
      ScanEnd([], START.(inside := true, current := a));
    }
    if '"' !in a {
      ScanQuotedPiece('"', body, [], START);
      assert ['"'] + a + ['"'] + [] == ['"'] + a + ['"'];
      ScanEnd([], START.(inside := true, current := a));
    }
  }

  /** A quote that is not closed extends to the end, and a last backslash is dropped. */
  lemma UnfinishedIsRead(quote: Byte, body: seq<Quoted>, m: Mode)
    requires (quote == '"' || quote == '\'') && BodyOk(body, quote)
    ensures Scan([quote] + QuotedText(body), SPACES, START) == [QuotedMeaning(body)]
    ensures Scan(['\\'], SPACES, m) == [m.current]
  {
    hide QuotedText;
    ScanQuote(QuotedText(body), START);
    var within := Mode(quote == '"', quote == '\'', true, []);
    assert QuotedText(body) + [] == QuotedText(body) && [] + QuotedMeaning(body) == QuotedMeaning(body);
    ScanBody(body, [], within);
  }

  // ---------- What the builder makes ----------

  /** A backslash comes before quotes and backslashes only. */
  lemma BodyOfByte(c: Byte)
    ensures EscapeBody([c]) == if c == '\\' || c == '"' || c == '\'' then ['\\', c] else [c]
  {
    assert [c][1..] == [];
    assert EscapeBody([c]) == EscapedByte(c) + EscapeBody([c][1..]);
  }

  /** Arguments with a space are put in double quotes, and so is the empty one. */
  lemma QuotedIff(a: Str)
    ensures EscapeArgument(a) == if a == [] || (exists i :: 0 <= i < |a| && a[i] == ' ') then ['"'] + EscapeBody(a) + ['"'] else EscapeBody(a)
  {
  }
}
