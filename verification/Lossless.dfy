/** From what a writer accepted to what a reader of the directory gets back. */
module Lossless {
  import opened Strings
  import opened Hdf5
  import opened Entries
  import opened Layout
  import opened Recording
  import opened MeasDir
  import opened DirFacts

  // ---------- The records of a log ----------

  function RecordOf(e: WriteEntry): Rec { Rec(e.rcv, e.snd, e.clock, e.sender, Some(e.data)) }

  /** Everything accepted for a channel, in order. */
  function Recs(v: Version, log: seq<WriteEntry>, c: Channel): seq<Rec> {
    if log == [] then []
    else
      var n := |log| - 1;
      Recs(v, log[..n], c) + (if Key(v, log[n].channel) == c then [RecordOf(log[n])] else [])
  }

  /** The first record of every timestamp of a channel. */
  function Firsts(v: Version, log: seq<WriteEntry>, c: Channel): map<int, Rec> {
    if log == [] then map[]
    else
      var n := |log| - 1;
      var m := Firsts(v, log[..n], c);
      if Key(v, log[n].channel) == c && log[n].rcv !in m then m[log[n].rcv := RecordOf(log[n])] else m
  }

  lemma {:induction false} FirstsAppend(v: Version, a: seq<WriteEntry>, b: seq<WriteEntry>, c: Channel)
    ensures Firsts(v, a + b, c) == Firsts(v, b, c) + Firsts(v, a, c)
  {
    if b == [] {
      assert a + b == a;
    } else {
      var n := |b| - 1;
      assert (a + b)[..|a + b| - 1] == a + b[..n];
      FirstsAppend(v, a, b[..n], c);
    }
  }

  lemma {:induction false} FirstsNone(v: Version, log: seq<WriteEntry>, c: Channel)
    requires forall i | 0 <= i < |log| :: Key(v, log[i].channel) != c
    ensures Firsts(v, log, c) == map[]
  {
    if log != [] {
      FirstsNone(v, log[..|log| - 1], c);
    }
  }

  // ---------- One file ----------

  predicate MatchAt(e: EntryInfo, r: Rec, seg: seq<WriteEntry>, base: nat) {
    base <= e.id < base + |seg| && r == RecOf(e, Some(seg[e.id - base].data))
  }

  /** A set of rows and a map of records agree, payload by number. */
  ghost predicate Match(rows: EntrySet, firsts: map<int, Rec>, seg: seq<WriteEntry>, base: nat) {
    && rows.Keys == firsts.Keys
    && forall t | t in rows :: MatchAt(rows[t], firsts[t], seg, base)
  }

  lemma MatchLonger(rows: EntrySet, firsts: map<int, Rec>, seg: seq<WriteEntry>, base: nat, e: WriteEntry)
    requires Match(rows, firsts, seg, base)
    ensures Match(rows, firsts, seg + [e], base)
  {
    forall t | t in rows ensures MatchAt(rows[t], firsts[t], seg + [e], base) {
      assert MatchAt(rows[t], firsts[t], seg, base);
    }
  }

  lemma MatchMore(rows: EntrySet, firsts: map<int, Rec>, seg: seq<WriteEntry>, base: nat, e: WriteEntry)
    requires Match(rows, firsts, seg, base)
    ensures Match(Insert(rows, RowOf(e, base + |seg|)),
                  if e.rcv in firsts then firsts else firsts[e.rcv := RecordOf(e)], seg + [e], base)
  {
    MatchLonger(rows, firsts, seg, base, e);
    assert MatchAt(RowOf(e, base + |seg|), RecordOf(e), seg + [e], base);
    hide MatchAt, RecordOf;
  }

  lemma FirstsOneMore(v: Version, seg: seq<WriteEntry>, c: Channel, e: WriteEntry)
    ensures Firsts(v, seg + [e], c)
         == (var m := Firsts(v, seg, c);
             if Key(v, e.channel) == c && e.rcv !in m then m[e.rcv := RecordOf(e)] else m)
  {
    assert (seg + [e])[..|seg|] == seg;
    hide RecordOf, Key;
  }

  lemma RowsOneMore(v: Version, seg: seq<WriteEntry>, base: nat, c: Channel, e: WriteEntry)
    ensures SetOf(RowsFor(v, seg + [e], base, c))
         == (var rows := SetOf(RowsFor(v, seg, base, c));
             if Key(v, e.channel) == c then Insert(rows, RowOf(e, base + |seg|)) else rows)
  {
    RowsForAppend(v, seg, base, c, e);
    hide RowsFor, SetOf, Insert, Key;
    var before, row := RowsFor(v, seg, base, c), RowOf(e, base + |seg|);
    var after := before + [row];
    assert after[..|before|] == before && after[..|before| + 1] == after && before + [] == before;
    SetOfNextRow(after, |before|);
  }

  lemma {:induction false} RowsAreFirsts(v: Version, seg: seq<WriteEntry>, base: nat, c: Channel)
    ensures Match(SetOf(RowsFor(v, seg, base, c)), Firsts(v, seg, c), seg, base)
  {
    if seg != [] {
      var n := |seg| - 1;
      var front, e := seg[..n], seg[n];
      RowsAreFirsts(v, front, base, c);
      assert seg == front + [e];
      FirstsOneMore(v, front, c, e);
      RowsOneMore(v, front, base, c, e);
      hide Match, Insert, SetOf, RowsFor, Firsts, RecordOf, RowOf, Key;
      var rows, firsts := SetOf(RowsFor(v, front, base, c)), Firsts(v, front, c);
      if Key(v, e.channel) == c {
        MatchMore(rows, firsts, front, base, e);
      } else {
        MatchLonger(rows, firsts, front, base, e);
      }
    }
  }

  lemma ReescapedStorable(c: Channel)
    requires Storable(c.name)
    ensures Reescaped(c) == c
  {
  }

  lemma ArchiveChannels(v: Version, f: File, seg: seq<WriteEntry>, base: nat, c: Channel)
    requires Archived(v, f, seg, base)
    ensures c in FileChannels(f) <==> c in ReadChannels(v, f)
  {
    hide ReadChannels, ReadEntries, Storable, VersionOf;
    forall d | d in ReadChannels(v, f) ensures Reescaped(d) == d {
      ReescapedStorable(d);
    }
  }

  /** The part of a file's stretch of the log that its readers find for a channel: nothing if
      the channel's name is the number of a payload in the file. */
  ghost function Shown(seg: seq<WriteEntry>, base: nat, c: Channel): seq<WriteEntry> {
    if Taken(c.name, base, |seg|) then [] else seg
  }

  lemma ArchiveLists(v: Version, f: File, seg: seq<WriteEntry>, base: nat, c: Channel)
    requires Archived(v, f, seg, base) && c !in ReadChannels(v, f) && !Taken(c.name, base, |seg|)
    ensures Firsts(v, seg, c) == map[]
  {
    hide ReadChannels, ReadEntries, Storable, VersionOf, ReadData, Firsts, RowsFor, SetOf, Taken;
    forall i | 0 <= i < |seg| ensures Key(v, seg[i].channel) != c {
      assert Taken(seg[i].channel.name, base, |seg|) || Key(v, seg[i].channel) in ReadChannels(v, f);
    }
    FirstsNone(v, seg, c);
  }

  lemma ArchiveGives(v: Version, f: File, seg: seq<WriteEntry>, base: nat, c: Channel)
    requires Archived(v, f, seg, base) && c in ReadChannels(v, f)
    ensures !Taken(c.name, base, |seg|) && FileRecs(f, c) == Firsts(v, seg, c)
  {
    ArchiveChannels(v, f, seg, base, c);
    hide ReadChannels, ReadEntries, Storable, VersionOf, ReadData, Firsts, RowsFor, SetOf, FileChannels, Taken;
    RowsAreFirsts(v, seg, base, c);
    var rows := SetOf(RowsFor(v, seg, base, c));
    assert FileEntries(f, c) == rows;
    forall t | t in rows ensures FileRecs(f, c)[t] == Firsts(v, seg, c)[t] {
      assert MatchAt(rows[t], Firsts(v, seg, c)[t], seg, base);
      var i := rows[t].id - base;
      assert ReadData(f, base + i) == Some(seg[i].data);
    }
  }

  /** A file gives back the first record of every timestamp of what it shows. */
  lemma ArchiveGivesFirsts(v: Version, f: File, seg: seq<WriteEntry>, base: nat, c: Channel)
    requires Archived(v, f, seg, base)
    ensures FileRecs(f, c) == Firsts(v, Shown(seg, base, c), c)
  {
    assert Firsts(v, [], c) == map[];
    if c in ReadChannels(v, f) {
      ArchiveGives(v, f, seg, base, c);
    } else {
      ArchiveChannels(v, f, seg, base, c);
      if !Taken(c.name, base, |seg|) {
        ArchiveLists(v, f, seg, base, c);
      }
    }
    hide Archived, ReadChannels, FileChannels, Firsts, Taken, FileEntries, ReadData;
  }

  // ---------- Several files in any order ----------

  function Flat(segs: seq<seq<WriteEntry>>): seq<WriteEntry> {
    if segs == [] then [] else segs[0] + Flat(segs[1..])
  }

  ghost function ShownAll(segs: seq<seq<WriteEntry>>, bases: seq<nat>, c: Channel): (r: seq<seq<WriteEntry>>)
    requires |segs| == |bases|
    ensures |r| == |segs| && forall i | 0 <= i < |r| :: r[i] == Shown(segs[i], bases[i], c)
  {
    seq(|segs|, i requires 0 <= i < |segs| => Shown(segs[i], bases[i], c))
  }

  lemma {:induction false} MergedArchives(v: Version, files: Files, segs: seq<seq<WriteEntry>>, bases: seq<nat>, c: Channel)
    requires |files| == |segs| == |bases|
    requires forall i | 0 <= i < |files| :: Archived(v, files[i], segs[i], bases[i])
    ensures Merged(files, c) == Firsts(v, Flat(ShownAll(segs, bases, c)), c)
  {
    hide Archived, FileRecs, Shown;
    if files != [] {
      ArchiveGivesFirsts(v, files[0], segs[0], bases[0], c);
      MergedArchives(v, files[1..], segs[1..], bases[1..], c);
      var shown := ShownAll(segs, bases, c);
      assert shown[1..] == ShownAll(segs[1..], bases[1..], c);
      FirstsAppend(v, shown[0], Flat(shown[1..]), c);
    }
  }

  function Upto(n: nat): seq<nat> { seq(n, i => i) }

  predicate InRange(order: seq<nat>, n: nat) { forall i | 0 <= i < |order| :: order[i] < n }

  function Pick<T>(s: seq<T>, order: seq<nat>): (r: seq<T>)
    requires InRange(order, |s|)
    ensures |r| == |order| && forall i | 0 <= i < |order| :: r[i] == s[order[i]]
  {
    seq(|order|, i requires 0 <= i < |order| => s[order[i]])
  }

  /** An order of the first `n` files: every number below `n`, once. */
  ghost predicate Orders(order: seq<nat>, n: nat) { multiset(order) == multiset(Upto(n)) }

  lemma OrdersBelow(order: seq<nat>, n: nat)
    requires Orders(order, n)
    ensures InRange(order, n)
  {
    forall i | 0 <= i < |order| ensures order[i] < n {
      assert order[i] in multiset(order);
      assert order[i] in multiset(Upto(n));
    }
  }

  /** Taking out position `j`. */
  function Without<T>(s: seq<T>, j: nat): seq<T>
    requires j < |s|
  {
    s[..j] + s[j + 1..]
  }

  lemma WithoutBag<T>(s: seq<T>, j: nat)
    requires j < |s|
    ensures multiset(s) == multiset{s[j]} + multiset(Without(s, j))
  {
    assert s == s[..j] + [s[j]] + s[j + 1..];
  }

  /** The head of one list found in another with the same elements. */
  lemma SameElsewhere<T>(a: seq<T>, b: seq<T>) returns (j: nat)
    requires a != [] && multiset(a) == multiset(b)
    ensures j < |b| && b[j] == a[0] && multiset(Without(a, 0)) == multiset(Without(b, j))
  {
    assert a[0] in multiset(b);
    j :| 0 <= j < |b| && b[j] == a[0];
    WithoutBag(a, 0);
    WithoutBag(b, j);
    assert multiset(Without(a, 0)) == multiset(a) - multiset{a[0]};
    assert multiset(Without(b, j)) == multiset(b) - multiset{b[j]};
  }

  lemma PickWithout<T>(s: seq<T>, order: seq<nat>, j: nat)
    requires InRange(order, |s|) && j < |order|
    ensures InRange(Without(order, j), |s|)
    ensures multiset(Pick(s, order)) == multiset{s[order[j]]} + multiset(Pick(s, Without(order, j)))
  {
    assert Without(Pick(s, order), j) == Pick(s, Without(order, j));
    WithoutBag(Pick(s, order), j);
  }

  lemma {:induction false} PickPermuted<T>(s: seq<T>, a: seq<nat>, b: seq<nat>)
    requires InRange(a, |s|) && InRange(b, |s|)
    requires multiset(a) == multiset(b)
    ensures multiset(Pick(s, a)) == multiset(Pick(s, b))
    decreases |a|
  {
    assert |multiset(a)| == |multiset(b)|;
    if a != [] {
      var j := SameElsewhere(a, b);
      PickWithout(s, a, 0);
      PickWithout(s, b, j);
      PickPermuted(s, Without(a, 0), Without(b, j));
    }
  }

  lemma {:induction false} FlatAppend(a: seq<seq<WriteEntry>>, b: seq<seq<WriteEntry>>)
    ensures Flat(a + b) == Flat(a) + Flat(b)
  {
    if a == [] {
      assert a + b == b;
    } else {
      assert (a + b)[1..] == a[1..] + b;
      FlatAppend(a[1..], b);
    }
  }

  lemma FlatWithout(s: seq<seq<WriteEntry>>, j: nat)
    requires j < |s|
    ensures multiset(Flat(s)) == multiset(s[j]) + multiset(Flat(Without(s, j)))
  {
    var front, back := s[..j], s[j + 1..];
    assert s == front + ([s[j]] + back);
    FlatAppend(front, [s[j]] + back);
    FlatAppend(front, back);
    assert Flat([s[j]] + back) == s[j] + Flat(back) by {
      assert ([s[j]] + back)[1..] == back;
    }
    hide Flat;
  }

  lemma {:induction false} FlatPermuted(a: seq<seq<WriteEntry>>, b: seq<seq<WriteEntry>>)
    requires multiset(a) == multiset(b)
    ensures multiset(Flat(a)) == multiset(Flat(b))
    decreases |a|
  {
    assert |multiset(a)| == |multiset(b)|;
    if a != [] {
      var j := SameElsewhere(a, b);
      FlatPermuted(Without(a, 0), Without(b, j));
      FlatWithout(a, 0);
      FlatWithout(b, j);
    }
  }

  /** The stretches of the log, file by file. */
  function Segments(log: seq<WriteEntry>, cuts: seq<nat>): (s: seq<seq<WriteEntry>>)
    requires Cutting(log, cuts)
    ensures |s| == |cuts|
  {
    seq(|cuts|, k requires 0 <= k < |cuts| => Segment(log, cuts, k))
  }

  lemma {:induction false} FlatPrefix(log: seq<WriteEntry>, cuts: seq<nat>, n: nat)
    requires Cutting(log, cuts) && n <= |cuts| && (cuts != [] ==> cuts[0] == 0)
    ensures Flat(Segments(log, cuts)[..n]) == log[..if n == 0 then 0 else if n < |cuts| then cuts[n] else |log|]
  {
    if n > 0 {
      FlatPrefix(log, cuts, n - 1);
      var front := Segments(log, cuts)[..n - 1];
      var last := Segment(log, cuts, n - 1);
      assert Segments(log, cuts)[..n] == front + [last];
      FlatAppend(front, [last]);
      assert Flat([last]) == last + Flat([]);
    }
  }

  lemma FlatOfAll(log: seq<WriteEntry>, cuts: seq<nat>)
    requires Cutting(log, cuts) && (if cuts == [] then log == [] else cuts[0] == 0)
    ensures Flat(Segments(log, cuts)) == log
  {
    FlatPrefix(log, cuts, |cuts|);
    assert Segments(log, cuts)[..|cuts|] == Segments(log, cuts) && log[..|log|] == log;
  }

  lemma PickAll<T>(s: seq<T>)
    ensures InRange(Upto(|s|), |s|) && Pick(s, Upto(|s|)) == s
  {
  }

  /** The order of the stretches does not matter to the bag of their entries. */
  lemma FlatPicked(segs: seq<seq<WriteEntry>>, order: seq<nat>)
    requires Orders(order, |segs|)
    ensures InRange(order, |segs|)
    ensures multiset(Flat(Pick(segs, order))) == multiset(Flat(segs))
  {
    OrdersBelow(order, |segs|);
    PickAll(segs);
    hide Flat, Pick, Upto;
    PickPermuted(segs, order, Upto(|segs|));
    FlatPermuted(Pick(segs, order), segs);
  }

  // ---------- When nothing is lost ----------

  /** No two records have the same receive timestamp. */
  predicate DistinctTimes(recs: seq<Rec>) {
    forall i, j | 0 <= i < j < |recs| :: recs[i].rcv != recs[j].rcv
  }

  ghost predicate DistinctBag(m: multiset<Rec>) {
    (forall r | r in m :: m[r] == 1) && (forall r, s | r in m && s in m && r.rcv == s.rcv :: r == s)
  }

  lemma DistinctAppend(recs: seq<Rec>, r: Rec)
    ensures DistinctTimes(recs + [r]) <==> DistinctTimes(recs) && forall s | s in recs :: s.rcv != r.rcv
  {
    var all := recs + [r];
    if DistinctTimes(all) {
      forall i, j | 0 <= i < j < |recs| ensures recs[i].rcv != recs[j].rcv {
        assert recs[i] == all[i] && recs[j] == all[j];
      }
      forall s | s in recs ensures s.rcv != r.rcv {
        var i :| 0 <= i < |recs| && recs[i] == s;
        assert all[i] == s && all[|recs|] == r;
      }
    }
  }

  lemma DistinctBagAppend(m: multiset<Rec>, r: Rec)
    ensures DistinctBag(m + multiset{r}) <==> DistinctBag(m) && forall s | s in m :: s.rcv != r.rcv
  {
    var all := m + multiset{r};
    if DistinctBag(all) {
      forall s | s in m ensures m[s] == 1 && s.rcv != r.rcv {
        assert all[s] >= m[s] && s in all && r in all;
        assert all[r] == m[r] + 1;
      }
      assert forall s | s in m :: s in all;
    }
  }

  lemma {:induction false} DistinctTimesIsBag(recs: seq<Rec>)
    ensures DistinctTimes(recs) <==> DistinctBag(multiset(recs))
  {
    if recs != [] {
      var n := |recs| - 1;
      DistinctTimesIsBag(recs[..n]);
      assert recs == recs[..n] + [recs[n]];
      DistinctAppend(recs[..n], recs[n]);
      DistinctBagAppend(multiset(recs[..n]), recs[n]);
      hide DistinctTimes, DistinctBag;
      assert forall s :: s in multiset(recs[..n]) <==> s in recs[..n];
    }
  }

  lemma {:induction false} RecsBag(v: Version, a: seq<WriteEntry>, b: seq<WriteEntry>, c: Channel)
    ensures multiset(Recs(v, a + b, c)) == multiset(Recs(v, a, c)) + multiset(Recs(v, b, c))
  {
    if b == [] {
      assert a + b == a;
    } else {
      var n := |b| - 1;
      assert (a + b)[..|a + b| - 1] == a + b[..n];
      RecsBag(v, a, b[..n], c);
    }
  }

  lemma RecsWithout(v: Version, log: seq<WriteEntry>, j: nat, c: Channel)
    requires j < |log|
    ensures multiset(Recs(v, log, c)) == multiset(Recs(v, Without(log, j), c)) + multiset(Recs(v, [log[j]], c))
  {
    var front, back := log[..j], log[j + 1..];
    assert log == front + ([log[j]] + back);
    RecsBag(v, front, [log[j]] + back, c);
    RecsBag(v, [log[j]], back, c);
    RecsBag(v, front, back, c);
  }

  lemma {:induction false} RecsPermuted(v: Version, a: seq<WriteEntry>, b: seq<WriteEntry>, c: Channel)
    requires multiset(a) == multiset(b)
    ensures multiset(Recs(v, a, c)) == multiset(Recs(v, b, c))
    decreases |a|
  {
    assert |multiset(a)| == |multiset(b)|;
    if a != [] {
      var j := SameElsewhere(a, b);
      RecsPermuted(v, Without(a, 0), Without(b, j), c);
      RecsWithout(v, a, 0, c);
      RecsWithout(v, b, j, c);
    }
  }

  /** The first records are among all records, and cover all their timestamps. */
  lemma {:induction false} FirstsOfRecs(v: Version, log: seq<WriteEntry>, c: Channel)
    ensures forall t | t in Firsts(v, log, c) :: Firsts(v, log, c)[t].rcv == t && Firsts(v, log, c)[t] in Recs(v, log, c)
    ensures forall r | r in Recs(v, log, c) :: r.rcv in Firsts(v, log, c)
  {
    if log != [] {
      FirstsOfRecs(v, log[..|log| - 1], c);
    }
  }

  function Range(m: map<int, Rec>): set<Rec> { set t | t in m :: m[t] }

  /** The first records are all records exactly when no timestamp occurs twice. */
  lemma FirstsAreAllIff(firsts: map<int, Rec>, recs: seq<Rec>)
    requires forall t | t in firsts :: firsts[t].rcv == t && firsts[t] in recs
    requires forall r | r in recs :: r.rcv in firsts
    ensures multiset(Range(firsts)) == multiset(recs) <==> DistinctTimes(recs)
  {
    DistinctTimesIsBag(recs);
    hide DistinctTimes;
    var all := multiset(recs);
    if DistinctBag(all) {
      forall r ensures multiset(Range(firsts))[r] == all[r] {
        if r in all {
          assert r in recs;
          assert firsts[r.rcv] in all && firsts[r.rcv] == r;
          assert r in Range(firsts);
        } else {
          assert r !in recs;
        }
      }
    }
    if multiset(Range(firsts)) == all {
      forall r | r in all ensures all[r] == 1 && firsts[r.rcv] == r {
        assert r in multiset(Range(firsts));
        var t :| t in firsts && firsts[t] == r;
      }
    }
  }

  // ---------- Hidden entries ----------

  /** The part of a log, file by file, that readers find for a channel. */
  ghost function ShownLog(log: seq<WriteEntry>, cuts: seq<nat>, c: Channel): seq<WriteEntry>
    requires Cutting(log, cuts)
  {
    Flat(ShownAll(Segments(log, cuts), cuts, c))
  }

  ghost predicate NoneHidden(v: Version, seg: seq<WriteEntry>, base: nat, c: Channel) {
    Taken(c.name, base, |seg|) ==> Recs(v, seg, c) == []
  }

  /** No entry of the channel is in a file that has a payload with the channel's name. */
  ghost predicate NothingHidden(v: Version, log: seq<WriteEntry>, cuts: seq<nat>, c: Channel)
    requires Cutting(log, cuts)
  {
    forall k | 0 <= k < |cuts| :: NoneHidden(v, Segment(log, cuts, k), cuts[k], c)
  }

  lemma BagOfNone(recs: seq<Rec>)
    ensures multiset(recs) == multiset([]) <==> recs == []
  {
    if recs != [] {
      assert recs[0] in multiset(recs);
    }
  }

  lemma ShownBag(v: Version, seg: seq<WriteEntry>, base: nat, c: Channel)
    ensures multiset(Recs(v, Shown(seg, base, c), c)) <= multiset(Recs(v, seg, c))
    ensures multiset(Recs(v, Shown(seg, base, c), c)) == multiset(Recs(v, seg, c)) <==> NoneHidden(v, seg, base, c)
  {
    assert Recs(v, [], c) == [];
    hide Recs, Taken;
    BagOfNone(Recs(v, seg, c));
  }

  lemma BagsAdd(a: multiset<Rec>, b: multiset<Rec>, c: multiset<Rec>, d: multiset<Rec>)
    requires a <= b && c <= d
    ensures a + c <= b + d && (a + c == b + d <==> a == b && c == d)
  {
    if a + c == b + d {
      forall r ensures a[r] == b[r] && c[r] == d[r] {
        assert (a + c)[r] == (b + d)[r];
      }
    }
  }

  lemma AllFromFirst(v: Version, segs: seq<seq<WriteEntry>>, bases: seq<nat>, c: Channel)
    requires |segs| == |bases| && segs != []
    ensures (forall k | 0 <= k < |segs| :: NoneHidden(v, segs[k], bases[k], c))
       <==> NoneHidden(v, segs[0], bases[0], c) && forall k | 0 <= k < |segs[1..]| :: NoneHidden(v, segs[1..][k], bases[1..][k], c)
  {
    hide NoneHidden;
    forall k | 0 < k < |segs| ensures segs[k] == segs[1..][k - 1] && bases[k] == bases[1..][k - 1] {
    }
  }

  lemma {:induction false} ShownIsAllIff(v: Version, segs: seq<seq<WriteEntry>>, bases: seq<nat>, c: Channel)
    requires |segs| == |bases|
    ensures multiset(Recs(v, Flat(ShownAll(segs, bases, c)), c)) <= multiset(Recs(v, Flat(segs), c))
    ensures multiset(Recs(v, Flat(ShownAll(segs, bases, c)), c)) == multiset(Recs(v, Flat(segs), c))
       <==> forall k | 0 <= k < |segs| :: NoneHidden(v, segs[k], bases[k], c)
  {
    hide Recs, Shown, NoneHidden;
    if segs != [] {
      var shown := ShownAll(segs, bases, c);
      assert shown[1..] == ShownAll(segs[1..], bases[1..], c);
      ShownIsAllIff(v, segs[1..], bases[1..], c);
      ShownBag(v, segs[0], bases[0], c);
      RecsBag(v, shown[0], Flat(shown[1..]), c);
      RecsBag(v, segs[0], Flat(segs[1..]), c);
      BagsAdd(multiset(Recs(v, shown[0], c)), multiset(Recs(v, segs[0], c)),
              multiset(Recs(v, Flat(shown[1..]), c)), multiset(Recs(v, Flat(segs[1..]), c)));
      AllFromFirst(v, segs, bases, c);
    }
  }

  /** What is shown of a channel is all of it exactly if nothing is hidden. */
  lemma ShownLogIff(v: Version, log: seq<WriteEntry>, cuts: seq<nat>, c: Channel)
    requires Cutting(log, cuts) && (if cuts == [] then log == [] else cuts[0] == 0)
    ensures multiset(Recs(v, ShownLog(log, cuts, c), c)) <= multiset(Recs(v, log, c))
    ensures multiset(Recs(v, ShownLog(log, cuts, c), c)) == multiset(Recs(v, log, c)) <==> NothingHidden(v, log, cuts, c)
  {
    FlatOfAll(log, cuts);
    ShownIsAllIff(v, Segments(log, cuts), cuts, c);
    hide Recs, NoneHidden, Flat, Segment;
  }

  lemma SetInBag(s: set<Rec>, recs: seq<Rec>)
    requires forall r | r in s :: r in recs
    ensures multiset(s) <= multiset(recs)
  {
    forall r ensures multiset(s)[r] <= multiset(recs)[r] {
      assert r in s ==> r in multiset(recs);
    }
  }

  /** The records read are all records exactly if no timestamp repeats and none is missing
      among those shown. */
  lemma ReadIsAllIff(firsts: map<int, Rec>, shown: seq<Rec>, all: seq<Rec>)
    requires forall t | t in firsts :: firsts[t].rcv == t && firsts[t] in shown
    requires forall r | r in shown :: r.rcv in firsts
    requires multiset(shown) <= multiset(all)
    ensures multiset(Range(firsts)) == multiset(all) <==> DistinctTimes(all) && multiset(shown) == multiset(all)
  {
    FirstsAreAllIff(firsts, shown);
    DistinctTimesIsBag(shown);
    DistinctTimesIsBag(all);
    hide DistinctTimes, DistinctBag;
    if multiset(Range(firsts)) == multiset(all) {
      forall r | r in Range(firsts) ensures r in shown {
        var t :| t in firsts && firsts[t] == r;
      }
      SetInBag(Range(firsts), shown);
      assert multiset(shown) == multiset(all);
    }
  }

  // ---------- Main results ----------

  predicate AllOnDisk(w: Writer, order: seq<nat>) {
    forall i | 0 <= i < |order| :: FilePath(w.dir, w.base, order[i]) in w.disk
  }

  /** The files of a finished run, in the order a reader happens to list them. */
  function FilesIn(w: Writer, order: seq<nat>): Files
    requires AllOnDisk(w, order)
  {
    seq(|order|, i requires 0 <= i < |order| => w.disk[FilePath(w.dir, w.base, order[i])])
  }

  lemma PathsOnDisk(t: Trace, order: seq<nat>)
    requires Filed(t) && Orders(order, |t.cuts|)
    ensures InRange(order, |t.cuts|) && AllOnDisk(t.w, order)
    ensures t.w.disk.Keys == set k | k in order :: FilePath(t.w.dir, t.w.base, k)
  {
    OrdersBelow(order, |t.cuts|);
    hide FilePath, AllArchived, Partial, Tabulated;
    forall i | 0 <= i < |order| ensures FilePath(t.w.dir, t.w.base, order[i]) in t.w.disk {
      assert FilePath(t.w.dir, t.w.base, order[i]) in Paths(t.w.dir, t.w.base, |t.cuts|);
    }
    forall k | 0 <= k < |t.cuts| ensures k in order {
      assert Upto(|t.cuts|)[k] == k;
      assert k in multiset(Upto(|t.cuts|));
      assert k in multiset(order);
    }
  }

  lemma PickShown(segs: seq<seq<WriteEntry>>, bases: seq<nat>, c: Channel, order: seq<nat>)
    requires |segs| == |bases| && InRange(order, |segs|)
    ensures ShownAll(Pick(segs, order), Pick(bases, order), c) == Pick(ShownAll(segs, bases, c), order)
  {
    hide Shown;
  }

  lemma MergedInOrder(t: Trace, order: seq<nat>, c: Channel)
    requires Filed(t) && !t.w.open && Orders(order, |t.cuts|)
    ensures InRange(order, |t.cuts|) && AllOnDisk(t.w, order)
    ensures Merged(FilesIn(t.w, order), c)
         == Firsts(t.w.version, Flat(Pick(ShownAll(Segments(t.log, t.cuts), t.cuts, c), order)), c)
  {
    PathsOnDisk(t, order);
    hide FilePath, Archived, Partial, Tabulated, Paths, Orders, Shown;
    var files, segs, bases := FilesIn(t.w, order), Pick(Segments(t.log, t.cuts), order), Pick(t.cuts, order);
    forall i | 0 <= i < |files| ensures Archived(t.w.version, files[i], segs[i], bases[i]) {
      assert ArchivedAt(t.w, t.log, t.cuts, order[i]);
    }
    MergedArchives(t.w.version, files, segs, bases, c);
    PickShown(Segments(t.log, t.cuts), t.cuts, c, order);
  }

  lemma LosslessTrace(t: Trace, order: seq<nat>, origins: seq<Origin>, byId: map<int, Ref>, byChn: map<Channel, EntrySet>, c: Channel)
    requires Filed(t) && !t.w.open && Orders(order, |t.cuts|)
    ensures AllOnDisk(t.w, order)
    ensures (var files := FilesIn(t.w, order);
             Indexed(files, origins, byId, byChn) && Complete(files, origins) ==>
               (multiset(Range(ReadBack(files, byId, byChn, c))) == multiset(Recs(t.w.version, t.log, c))
                <==> DistinctTimes(Recs(t.w.version, t.log, c)) && NothingHidden(t.w.version, t.log, t.cuts, c)))
  {
    hide Indexed, Complete, Orders, DistinctTimes, Merged, ReadBack, Firsts, Recs, FilePath, AllArchived, Partial, Tabulated,
         Flat, ShownAll, NothingHidden, Pick;
    var v := t.w.version;
    MergedInOrder(t, order, c);
    ShownLogIff(v, t.log, t.cuts, c);
    var shown := ShownAll(Segments(t.log, t.cuts), t.cuts, c);
    FlatPicked(shown, order);
    var files, flat := FilesIn(t.w, order), Flat(Pick(shown, order));
    RecsPermuted(v, flat, Flat(shown), c);
    FirstsOfRecs(v, flat, c);
    ReadIsAllIff(Firsts(v, flat, c), Recs(v, flat, c), Recs(v, t.log, c));
    if Indexed(files, origins, byId, byChn) && Complete(files, origins) {
      ReadBackIsMerged(files, origins, byId, byChn, c);
    }
  }

  /** Recording is lossless for a channel exactly when no two entries accepted for it have the
      same receive timestamp, and none of them is in a file with a payload whose number is
      the channel's name: for every run of a writer that ends with its file closed, with any
      splits, failures and sizes, and for every order in which a reader lists the files, the
      directory gives back exactly the entries accepted, payloads included. */
  lemma LosslessIff(version: Version, dir: Str, base: Str, limit: nat, ops: seq<Op>, order: seq<nat>,
                    origins: seq<Origin>, byId: map<int, Ref>, byChn: map<Channel, EntrySet>, c: Channel)
    requires forall op | op in ops :: StorableOp(op)
    requires !Run(version, dir, base, limit, ops).w.open
    requires Orders(order, |Run(version, dir, base, limit, ops).cuts|)
    ensures (var t := Run(version, dir, base, limit, ops);
             && AllOnDisk(t.w, order)
             && t.w.disk.Keys == (set k | k in order :: FilePath(t.w.dir, t.w.base, k))
             && Cutting(t.log, t.cuts)
             && (var files := FilesIn(t.w, order);
                 Indexed(files, origins, byId, byChn) && Complete(files, origins) ==>
                   (multiset(Range(ReadBack(files, byId, byChn, c))) == multiset(Recs(t.w.version, t.log, c))
                    <==> DistinctTimes(Recs(t.w.version, t.log, c)) && NothingHidden(t.w.version, t.log, t.cuts, c))))
  {
    hide Indexed, Complete, Storable, FilePath, Run, AllArchived, Partial, Tabulated, NothingHidden, Recs, DistinctTimes, ReadBack, Paths;
    RunIsFiled(version, dir, base, limit, ops);
    var t := Run(version, dir, base, limit, ops);
    PathsOnDisk(t, order);
    LosslessTrace(t, order, origins, byId, byChn, c);
  }

  // ---------- The order of the files ----------

  /** `m` holds one record of the bag for each of its timestamps. */
  ghost predicate Represents(m: map<int, Rec>, bag: multiset<Rec>) {
    (forall t | t in m :: m[t].rcv == t && m[t] in bag) && (forall r | r in bag :: r.rcv in m)
  }

  lemma RepresentedOnce(m: map<int, Rec>, n: map<int, Rec>, bag: multiset<Rec>)
    requires Represents(m, bag) && Represents(n, bag) && DistinctBag(bag)
    ensures m == n
  {
    forall t ensures t in m <==> t in n {
      assert t in m ==> m[t].rcv in n;
      assert t in n ==> n[t].rcv in m;
    }
    forall t | t in m ensures m[t] == n[t] {
      assert m[t].rcv == n[t].rcv;
    }
  }

  lemma FirstsRepresent(v: Version, log: seq<WriteEntry>, c: Channel)
    ensures Represents(Firsts(v, log, c), multiset(Recs(v, log, c)))
  {
    FirstsOfRecs(v, log, c);
    hide Firsts, Recs;
  }

  /** Without repeated timestamps the first records do not depend on the order. */
  lemma FirstsPermuted(v: Version, a: seq<WriteEntry>, b: seq<WriteEntry>, c: Channel)
    requires multiset(a) == multiset(b) && DistinctTimes(Recs(v, a, c))
    ensures Firsts(v, a, c) == Firsts(v, b, c)
  {
    RecsPermuted(v, a, b, c);
    FirstsRepresent(v, a, c);
    FirstsRepresent(v, b, c);
    DistinctTimesIsBag(Recs(v, a, c));
    hide DistinctTimes, DistinctBag, Recs, Firsts, Represents;
    RepresentedOnce(Firsts(v, a, c), Firsts(v, b, c), multiset(Recs(v, a, c)));
  }

  lemma ShownIsDistinct(v: Version, log: seq<WriteEntry>, cuts: seq<nat>, c: Channel)
    requires Cutting(log, cuts) && (if cuts == [] then log == [] else cuts[0] == 0)
    requires DistinctTimes(Recs(v, log, c))
    ensures DistinctTimes(Recs(v, ShownLog(log, cuts, c), c))
  {
    ShownLogIff(v, log, cuts, c);
    DistinctTimesIsBag(Recs(v, log, c));
    DistinctTimesIsBag(Recs(v, ShownLog(log, cuts, c), c));
    hide DistinctTimes, Recs, ShownLog, NothingHidden;
    var less, all := multiset(Recs(v, ShownLog(log, cuts, c), c)), multiset(Recs(v, log, c));
    forall r | r in less ensures r in all && less[r] == 1 {
      assert less[r] <= all[r];
    }
  }

  /** With distinct timestamps the directory gives back what is shown of the channel by
      timestamp, in whatever order its files are listed. */
  lemma DistinctReadBack(t: Trace, order: seq<nat>, origins: seq<Origin>, byId: map<int, Ref>, byChn: map<Channel, EntrySet>, c: Channel)
    requires Filed(t) && !t.w.open && Orders(order, |t.cuts|)
    requires DistinctTimes(Recs(t.w.version, t.log, c))
    ensures AllOnDisk(t.w, order)
    ensures (var files := FilesIn(t.w, order);
             Indexed(files, origins, byId, byChn) && Complete(files, origins) ==>
               ReadBack(files, byId, byChn, c) == Firsts(t.w.version, ShownLog(t.log, t.cuts, c), c))
  {
    hide Indexed, Complete, Orders, DistinctTimes, Merged, ReadBack, Firsts, Recs, FilePath, AllArchived, Partial, Tabulated,
         Flat, ShownAll, Pick;
    MergedInOrder(t, order, c);
    var shown := ShownAll(Segments(t.log, t.cuts), t.cuts, c);
    FlatPicked(shown, order);
    ShownIsDistinct(t.w.version, t.log, t.cuts, c);
    FirstsPermuted(t.w.version, Flat(shown), Flat(Pick(shown, order)), c);
    var files := FilesIn(t.w, order);
    if Indexed(files, origins, byId, byChn) && Complete(files, origins) {
      ReadBackIsMerged(files, origins, byId, byChn, c);
    }
  }

  lemma RepresentsBoth(m: map<int, Rec>, less: multiset<Rec>, all: multiset<Rec>)
    requires Represents(m, less) && Represents(m, all) && DistinctBag(all) && less <= all
    ensures less == all
  {
    forall r | r in all ensures r in less && less[r] >= 1 {
      assert m[r.rcv] in all && m[r.rcv].rcv == r.rcv;
      assert m[r.rcv] == r && m[r.rcv] in less;
    }
    forall r ensures less[r] == all[r] {
      assert less[r] <= all[r];
    }
  }

  /** With distinct timestamps, what is shown of a channel has its first records exactly if
      nothing is hidden. */
  lemma ShownFirstsIff(v: Version, log: seq<WriteEntry>, cuts: seq<nat>, c: Channel)
    requires Cutting(log, cuts) && (if cuts == [] then log == [] else cuts[0] == 0)
    requires DistinctTimes(Recs(v, log, c))
    ensures Firsts(v, ShownLog(log, cuts, c), c) == Firsts(v, log, c) <==> NothingHidden(v, log, cuts, c)
  {
    ShownLogIff(v, log, cuts, c);
    DistinctTimesIsBag(Recs(v, log, c));
    var shown := ShownLog(log, cuts, c);
    FirstsRepresent(v, log, c);
    FirstsRepresent(v, shown, c);
    hide DistinctTimes, DistinctBag, Recs, Firsts, Represents, ShownLog, NothingHidden;
    if multiset(Recs(v, shown, c)) == multiset(Recs(v, log, c)) {
      RepresentedOnce(Firsts(v, shown, c), Firsts(v, log, c), multiset(Recs(v, log, c)));
    }
    if Firsts(v, shown, c) == Firsts(v, log, c) {
      RepresentsBoth(Firsts(v, log, c), multiset(Recs(v, shown, c)), multiset(Recs(v, log, c)));
    }
  }

  /** Two readers that list the files in different orders get the same records, number
      them as they may, if the channel's timestamps are distinct. */
  lemma OrderDoesNotMatter(t: Trace, order: seq<nat>, origins: seq<Origin>, byId: map<int, Ref>, byChn: map<Channel, EntrySet>,
                           order2: seq<nat>, origins2: seq<Origin>, byId2: map<int, Ref>, byChn2: map<Channel, EntrySet>,
                           c: Channel)
    requires Filed(t) && !t.w.open && DistinctTimes(Recs(t.w.version, t.log, c))
    requires Orders(order, |t.cuts|) && Orders(order2, |t.cuts|)
    ensures AllOnDisk(t.w, order) && AllOnDisk(t.w, order2)
    ensures (var files, files2 := FilesIn(t.w, order), FilesIn(t.w, order2);
             && Indexed(files, origins, byId, byChn) && Complete(files, origins)
             && Indexed(files2, origins2, byId2, byChn2) && Complete(files2, origins2)
             ==> ReadBack(files, byId, byChn, c) == ReadBack(files2, byId2, byChn2, c))
  {
    hide Filed, Indexed, Complete, Orders, DistinctTimes, ReadBack, Firsts, Recs, FilePath;
    DistinctReadBack(t, order, origins, byId, byChn, c);
    DistinctReadBack(t, order2, origins2, byId2, byChn2, c);
  }
}
