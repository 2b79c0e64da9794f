/** File names in one-file-per-channel mode (contrib/ecalhdf5/src/eh5_meas_dir.cpp:490-523,
    eh5_meas_file_writer_v6.cpp:262-297). */
module ChannelFiles {
  import opened Strings
  import opened Hdf5
  import opened Escape
  import opened Layout
  import opened Recording
  import opened SplitBound

  /** The base name of a channel's writer; writers know channels by their escaped name. */
  function ChannelBase(base: Str, channel: Str): Str { base + ['_'] + EscapeFile(Unescape(channel)) }

  function ChannelPath(dir: Str, base: Str, channel: Str, split: nat): Str {
    FilePath(dir, ChannelBase(base, channel), split)
  }

  /** `long` is `short`, an underscore and the number of a later file. */
  predicate Numbers(long: Str, short: Str, split: nat) { split > 0 && long == short + ['_'] + Decimal(split) }

  lemma NoUnderscore(n: nat)
    ensures '_' !in Decimal(n)
  {
    hide Decimal;
  }

  lemma NoneAfter(a: Str, x: Str, i: nat)
    requires '_' !in x && |a| < i < |a + ['_'] + x|
    ensures (a + ['_'] + x)[i] != '_'
  {
    assert (a + ['_'] + x)[i] == x[i - |a| - 1];
  }

  /** A name that ends in an underscore and a numeral is cut at its last underscore. */
  lemma LastUnderscore(a: Str, x: Str, b: Str, y: Str)
    requires a + ['_'] + x == b + ['_'] + y
    requires '_' !in x && '_' !in y
    ensures a == b && x == y
  {
    var s := a + ['_'] + x;
    assert s[|a|] == '_' && s[|b|] == '_';
    forall i | |a| < i < |s| ensures s[i] != '_' {
      NoneAfter(a, x, i);
    }
    forall i | |b| < i < |s| ensures s[i] != '_' {
      NoneAfter(b, y, i);
    }
    assert |a| == |b|;
    assert a == s[..|a|] && b == s[..|b|];
    assert x == s[|a| + 1..] && y == s[|b| + 1..];
  }

  lemma SuffixIs(a: Str, m: nat)
    ensures a + SplitSuffix(m) == if m > 0 then a + ['_'] + Decimal(m) else a
  {
    hide Decimal;
    if m > 0 {
      assert a + (['_'] + Decimal(m)) == a + ['_'] + Decimal(m);
    }
  }

  lemma SuffixIff(a: Str, m: nat, b: Str, n: nat)
    ensures a + SplitSuffix(m) == b + SplitSuffix(n)
       <==> (a == b && m == n) || (n == 0 && Numbers(b, a, m)) || (m == 0 && Numbers(a, b, n))
  {
    SuffixIs(a, m);
    SuffixIs(b, n);
    hide Decimal, SplitSuffix;
    if m > 0 && n > 0 && a + ['_'] + Decimal(m) == b + ['_'] + Decimal(n) {
      NoUnderscore(m);
      NoUnderscore(n);
      LastUnderscore(a, Decimal(m), b, Decimal(n));
      DecimalInjective(m, n);
    }
  }

  lemma CancelBothEnds(front: Str, a: Str, b: Str, back: Str)
    ensures front + a + back == front + b + back <==> a == b
  {
    var s, t := front + a + back, front + b + back;
    if s == t {
      assert |a| == |b|;
      assert s[|front|..|front| + |a|] == a && t[|front|..|front| + |a|] == b;
    }
  }

  lemma PathSplits(dir: Str, base: Str, channel: Str, split: nat)
    ensures ChannelPath(dir, base, channel, split)
         == (dir + ['/'] + base + ['_']) + (EscapeFile(Unescape(channel)) + SplitSuffix(split)) + EXTENSION
  {
    hide SplitSuffix, EscapeFile, Unescape;
    var name, suffix := EscapeFile(Unescape(channel)), SplitSuffix(split);
    assert dir + ['/'] + (base + ['_'] + name) + suffix == (dir + ['/'] + base + ['_']) + (name + suffix);
  }

  /** Two files of two channels have the same path exactly if they are the same file of the
      same channel, or one is the first file of its channel and that channel's file name
      is the other's followed by an underscore and the number of the other file. */
  lemma SamePathIff(dir: Str, base: Str, c: Str, m: nat, d: Str, n: nat)
    ensures ChannelPath(dir, base, EscapeTopic(c), m) == ChannelPath(dir, base, EscapeTopic(d), n)
       <==> (c == d && m == n)
            || (n == 0 && Numbers(EscapeFile(d), EscapeFile(c), m))
            || (m == 0 && Numbers(EscapeFile(c), EscapeFile(d), n))
  {
    UnescapeEscape(TopicName, c);
    UnescapeEscape(TopicName, d);
    if EscapeFile(c) == EscapeFile(d) {
      EscapeInjective(FileName, c, d);
    }
    PathSplits(dir, base, EscapeTopic(c), m);
    PathSplits(dir, base, EscapeTopic(d), n);
    hide ChannelPath, SplitSuffix, EscapeWith, Unescape, Numbers;
    CancelBothEnds(dir + ['/'] + base + ['_'], EscapeFile(c) + SplitSuffix(m), EscapeFile(d) + SplitSuffix(n), EXTENSION);
    SuffixIff(EscapeFile(c), m, EscapeFile(d), n);
  }

  /** Such a pair of channels exists: the second file of `a` and the first of `a_1`. */
  lemma PathsCollide(dir: Str, base: Str)
    ensures ChannelPath(dir, base, EscapeTopic("a"), 1) == ChannelPath(dir, base, EscapeTopic("a_1"), 0)
  {
    var a: Str, a1: Str := "a", "a_1";
    EscapeFixes(FileName, a);
    EscapeFixes(FileName, a1);
    assert a1 == a + ['_'] + Decimal(1);
    SamePathIff(dir, base, a, 1, a1, 0);
  }

  /** The path in full: the name of the channel, escaped for files, follows the base name. */
  lemma PathIs(dir: Str, base: Str, c: Str, split: nat)
    ensures ChannelPath(dir, base, EscapeTopic(c), split)
         == dir + "/" + base + "_" + EscapeFile(c) + (if split == 0 then "" else "_" + Decimal(split)) + ".hdf5"
  {
    UnescapeEscape(TopicName, c);
    hide EscapeWith, Unescape, Decimal;
    var name := EscapeFile(c);
    assert dir + ['/'] + (base + ['_'] + name) == dir + "/" + base + "_" + name;
  }

  lemma NoSlashIn(c: Str, split: nat)
    ensures '/' !in EscapeFile(c) && '/' !in SplitSuffix(split)
  {
    if '/' in EscapeFile(c) {
      FileBytes(c, '/');
    }
    assert '/' !in Decimal(split);
  }

  /** With a base name that has no slash, the file is in the directory itself, whatever the
      channel is called. */
  lemma StaysInDirectory(dir: Str, base: Str, c: Str, split: nat)
    requires '/' !in base
    ensures (var p := ChannelPath(dir, base, EscapeTopic(c), split);
             |p| > |dir| && p[..|dir| + 1] == dir + ['/'] && '/' !in p[|dir| + 1..])
  {
    UnescapeEscape(TopicName, c);
    NoSlashIn(c, split);
    hide EscapeWith, Unescape, SplitSuffix;
    var p := ChannelPath(dir, base, EscapeTopic(c), split);
    var name := base + ['_'] + EscapeFile(c) + SplitSuffix(split) + EXTENSION;
    assert p == dir + ['/'] + name;
    assert p[|dir| + 1..] == name;
    assert '/' !in EXTENSION;
  }

  // ---------- One writer ----------

  /** The files on disk are the writer's files so far. */
  ghost predicate Placed(t: Trace) { Counted(t) && t.w.disk.Keys == Paths(t.w.dir, t.w.base, |t.cuts|) }

  lemma CloseKeepsPlaced(t: Trace)
    requires Placed(t)
    ensures Placed(t.(w := CloseFile(t.w)))
  {
    hide FilePath, Finish;
    if t.w.open {
      assert CurrentPath(t.w) in t.w.disk.Keys;
    }
  }

  lemma CreateKeepsPlaced(t: Trace, made: Outcome)
    requires Placed(t)
    ensures Placed(Created(t, made))
  {
    CloseKeepsPlaced(t);
    CreateCounts(t, made);
    OneMorePath(t.w.dir, t.w.base, |t.cuts|);
    hide FilePath, Finish, NewFile, Emptied, Paths;
  }

  lemma AppendKeepsPlaced(t: Trace, e: WriteEntry)
    requires Placed(t) && t.w.open
    ensures Placed(Trace(Append(t.w, e), t.log + [e], t.cuts))
  {
    AppendCounts(t, e);
    hide FilePath, Paths, Put, AddRow, Resolve, Counted;
  }

  lemma StepKeepsPlaced(t: Trace, op: Op)
    requires Placed(t)
    ensures Placed(Step(t, op))
  {
    match op
    case Describe(_, _) =>
    case Close => CloseKeepsPlaced(t);
    case Add(e, a) =>
      AddTraceIsStep(t, e, a);
      CreateKeepsPlaced(t, a.first);
      var t1 := if t.w.open then t else Created(t, a.first);
      if t1.w.open {
        CreateKeepsPlaced(t1, a.next);
        if Fits(t1.w, a.fileSize, e.data) {
          AppendKeepsPlaced(t1, e);
        } else if CreateFile(t1.w, a.next).1 {
          AppendKeepsPlaced(Created(t1, a.next), e);
        }
      }
      hide Placed, Created, Append, Step, CreateFile, Fits;
  }

  /** Whatever the names, failures and sizes of a run. */
  lemma {:induction false} RunIsPlaced(version: Version, dir: Str, base: Str, limit: nat, ops: seq<Op>)
    ensures Placed(Run(version, dir, base, limit, ops))
  {
    if ops != [] {
      RunIsPlaced(version, dir, base, limit, ops[..|ops| - 1]);
      StepKeepsPlaced(Run(version, dir, base, limit, ops[..|ops| - 1]), ops[|ops| - 1]);
      hide Step, Placed;
    }
  }

  lemma NextPathIsNew(t: Trace)
    requires Placed(t)
    ensures FilePath(t.w.dir, t.w.base, t.w.split + 1) !in t.w.disk
  {
    hide FilePath;
    forall k | 0 <= k < |t.cuts| ensures FilePath(t.w.dir, t.w.base, k) != FilePath(t.w.dir, t.w.base, t.w.split + 1) {
      if FilePath(t.w.dir, t.w.base, k) == FilePath(t.w.dir, t.w.base, t.w.split + 1) {
        PathInjective(t.w.dir, t.w.base, k, t.w.split + 1);
      }
    }
    assert FilePath(t.w.dir, t.w.base, t.w.split + 1) !in t.w.disk.Keys;
  }

  lemma CloseKeepsPaths(w: Writer)
    requires Valid(w)
    ensures CloseFile(w).disk.Keys == w.disk.Keys
  {
    hide FilePath, Finish;
    if w.open {
      assert CurrentPath(w) in w.disk.Keys;
    }
  }

  lemma CreateAddsPath(t: Trace, made: Outcome)
    requires Valid(t.w)
    ensures CreateFile(t.w, made).1 ==>
              CreateFile(t.w, made).0.disk.Keys == t.w.disk.Keys + {FilePath(t.w.dir, t.w.base, t.w.split + 1)}
  {
    CloseKeepsPaths(t.w);
    hide FilePath, Finish, NewFile, Emptied;
  }

  /** After any run, whatever failed before, a file is created at a path where there is none
      yet, and every other file stays. */
  lemma CreatesNewPath(version: Version, dir: Str, base: Str, limit: nat, ops: seq<Op>, made: Outcome)
    ensures (var w := Run(version, dir, base, limit, ops).w;
             CreateFile(w, made).1 ==>
               && FilePath(w.dir, w.base, w.split + 1) !in w.disk
               && CreateFile(w, made).0.disk.Keys == w.disk.Keys + {FilePath(w.dir, w.base, w.split + 1)})
  {
    RunIsPlaced(version, dir, base, limit, ops);
    NextPathIsNew(Run(version, dir, base, limit, ops));
    CreateAddsPath(Run(version, dir, base, limit, ops), made);
  }
}
