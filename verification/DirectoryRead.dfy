/** What a reader finds in a directory that was written through several writers. */
module DirectoryRead {
  import opened Strings
  import opened Entries
  import opened Layout
  import opened Recording
  import opened MeasDir
  import opened DirFacts
  import opened Lossless
  import opened Directory
  import opened Escape
  import opened ChannelFiles
  import CutFilter
  import Api

  // ---------- Sums of bags ----------

  function Sum(bags: seq<multiset<Rec>>): multiset<Rec> {
    if bags == [] then multiset{} else Sum(bags[..|bags| - 1]) + bags[|bags| - 1]
  }

  lemma {:induction false} SumAppend(a: seq<multiset<Rec>>, b: seq<multiset<Rec>>)
    ensures Sum(a + b) == Sum(a) + Sum(b)
  {
    if b == [] {
      assert a + b == a;
    } else {
      var n := |b| - 1;
      assert (a + b)[..|a + b| - 1] == a + b[..n];
      SumAppend(a, b[..n]);
    }
  }

  lemma SumOfOne(bag: multiset<Rec>)
    ensures Sum([bag]) == bag
  {
    assert [bag][..0] == [];
  }

  lemma SumWithout(bags: seq<multiset<Rec>>, j: nat)
    requires j < |bags|
    ensures Sum(bags) == Sum(Without(bags, j)) + bags[j]
  {
    hide Sum;
    var front, back := bags[..j], bags[j + 1..];
    assert bags == front + ([bags[j]] + back);
    SumAppend(front, [bags[j]] + back);
    SumAppend([bags[j]], back);
    SumAppend(front, back);
    SumOfOne(bags[j]);
  }

  /** If each bag is part of another, so are the sums, which are equal only if all are. */
  lemma {:induction false} SumsIff(a: seq<multiset<Rec>>, b: seq<multiset<Rec>>)
    requires |a| == |b| && forall i | 0 <= i < |a| :: a[i] <= b[i]
    ensures Sum(a) <= Sum(b) && (Sum(a) == Sum(b) <==> forall i | 0 <= i < |a| :: a[i] == b[i])
  {
    if a != [] {
      var n := |a| - 1;
      SumsIff(a[..n], b[..n]);
      BagsAdd(Sum(a[..n]), Sum(b[..n]), a[n], b[n]);
      assert (forall i | 0 <= i < |a| :: a[i] == b[i]) <==> a[n] == b[n] && forall i | 0 <= i < |a[..n]| :: a[..n][i] == b[..n][i];
    }
  }

  lemma {:induction false} SumOfNone(bags: seq<multiset<Rec>>)
    requires forall i | 0 <= i < |bags| :: bags[i] == multiset{}
    ensures Sum(bags) == multiset{}
  {
    if bags != [] {
      SumOfNone(bags[..|bags| - 1]);
    }
  }

  ghost predicate Once(paths: seq<Str>) { forall i, j | 0 <= i < j < |paths| :: paths[i] != paths[j] }

  lemma WithoutOnce(paths: seq<Str>, j: nat)
    requires Once(paths) && j < |paths|
    ensures |Without(paths, j)| == |paths| - 1 && Once(Without(paths, j)) && forall p :: p in Without(paths, j) <==> p in paths && p != paths[j]
  {
    var rest := Without(paths, j);
    forall p | p in paths && p != paths[j] ensures p in rest {
      var i :| 0 <= i < |paths| && paths[i] == p;
      assert rest[if i < j then i else i - 1] == p;
    }
  }

  predicate In(bags: map<Str, multiset<Rec>>, paths: seq<Str>) { forall p | p in paths :: p in bags }

  function BagsOf(bags: map<Str, multiset<Rec>>, paths: seq<Str>): (r: seq<multiset<Rec>>)
    requires In(bags, paths)
    ensures |r| == |paths| && forall i | 0 <= i < |r| :: r[i] == bags[paths[i]]
  {
    seq(|paths|, i requires 0 <= i < |paths| => bags[paths[i]])
  }

  lemma TakeOut(bags: map<Str, multiset<Rec>>, paths: seq<Str>, j: nat)
    requires j < |paths| && In(bags, paths)
    ensures In(bags, Without(paths, j)) && paths[j] in bags
    ensures Sum(BagsOf(bags, paths)) == Sum(BagsOf(bags, Without(paths, j))) + bags[paths[j]]
  {
    SumWithout(BagsOf(bags, paths), j);
    assert Without(BagsOf(bags, paths), j) == BagsOf(bags, Without(paths, j));
    hide Sum;
  }

  /** Paths that contribute nothing can be left out of a sum. */
  lemma {:induction false} SumCovers(bags: map<Str, multiset<Rec>>, all: seq<Str>, some: seq<Str>)
    requires Once(all) && Once(some) && In(bags, all) && In(bags, some)
    requires forall p | p in some :: p in all
    requires forall p | p in all && p !in some :: bags[p] == multiset{}
    ensures Sum(BagsOf(bags, all)) == Sum(BagsOf(bags, some))
    decreases |some|
  {
    hide Once, Sum, Without, BagsOf;
    if some == [] {
      SumOfNone(BagsOf(bags, all));
      SumOfNone(BagsOf(bags, some));
    } else {
      assert some[0] in all;
      var j :| 0 <= j < |all| && all[j] == some[0];
      WithoutOnce(all, j);
      WithoutOnce(some, 0);
      TakeOut(bags, all, j);
      TakeOut(bags, some, 0);
      SumCovers(bags, Without(all, j), Without(some, 0));
    }
  }

  // ---------- The records of several stretches of a log ----------

  function RecBags(v: Version, segs: seq<seq<WriteEntry>>, c: Channel): (r: seq<multiset<Rec>>)
    ensures |r| == |segs| && forall i | 0 <= i < |r| :: r[i] == multiset(Recs(v, segs[i], c))
  {
    seq(|segs|, i requires 0 <= i < |segs| => multiset(Recs(v, segs[i], c)))
  }

  lemma {:induction false} FlatBags(v: Version, segs: seq<seq<WriteEntry>>, c: Channel)
    ensures multiset(Recs(v, Flat(segs), c)) == Sum(RecBags(v, segs, c))
  {
    if segs != [] {
      FlatBags(v, segs[1..], c);
      RecsBag(v, segs[0], Flat(segs[1..]), c);
      var bags := RecBags(v, segs, c);
      assert Without(bags, 0) == RecBags(v, segs[1..], c);
      SumWithout(bags, 0);
      hide Recs, Sum;
    } else {
      assert Recs(v, [], c) == [];
    }
  }

  // ---------- The entries a directory accepts ----------

  ghost function LastAccepted(cfg: Config, acts: seq<Act>): seq<WriteEntry>
    requires acts != [] && RunDir(cfg, acts[..|acts| - 1]).Some?
  {
    var a := acts[|acts| - 1];
    var w := WriterAt(cfg, RunDir(cfg, acts[..|acts| - 1]).value, a.key);
    if a.op.Add? && !Skips(cfg, a) && Valid(w) && AddEntry(w, a.op.entry, a.op.answers).1 then [a.op.entry] else []
  }

  /** The entries of the calls that succeeded. */
  ghost function AcceptedIn(cfg: Config, acts: seq<Act>): seq<WriteEntry>
    requires RunDir(cfg, acts).Some?
  {
    if acts == [] then []
    else
      AcceptedIn(cfg, acts[..|acts| - 1]) + LastAccepted(cfg, acts)
  }

  /** Without a base name nothing is accepted and no file is made. */
  lemma {:induction false} NoBaseNoEntries(cfg: Config, acts: seq<Act>)
    requires RunDir(cfg, acts).Some? && cfg.base == []
    ensures AcceptedIn(cfg, acts) == []
    ensures forall key :: Alone(cfg, acts, key).log == []
  {
    if acts != [] {
      var n := |acts| - 1;
      NoBaseNoEntries(cfg, acts[..n]);
      assert acts == acts[..n] + [acts[n]];
      forall key ensures Alone(cfg, acts, key).log == [] {
        AloneNext(cfg, acts[..n], acts[n], key);
        Api.StepLog(Alone(cfg, acts[..n], key), acts[n].op);
      }
      hide Alone, Step, AddEntry, Valid, RunDir, WriterAt;
    }
  }

  ghost predicate AllRouted(cfg: Config, acts: seq<Act>) { forall a | a in acts :: Routed(cfg, a) }

  lemma {:induction false} LogIsRouted(cfg: Config, acts: seq<Act>, key: Str)
    requires AllRouted(cfg, acts)
    ensures forall e | e in Alone(cfg, acts, key).log :: WriterKey(cfg, e.channel) == key
  {
    if acts != [] {
      var n := |acts| - 1;
      LogIsRouted(cfg, acts[..n], key);
      assert acts == acts[..n] + [acts[n]] && acts[n] in acts;
      AloneNext(cfg, acts[..n], acts[n], key);
      Api.StepLog(Alone(cfg, acts[..n], key), acts[n].op);
      hide Alone, Step, AddEntry, Valid;
    } else {
      assert Alone(cfg, acts, key).log == [];
    }
  }

  lemma OtherHasNone(cfg: Config, log: seq<WriteEntry>, key: Str, c: Channel)
    requires forall e | e in log :: WriterKey(cfg, e.channel) == key
    requires WriterKey(cfg, c) != key
    ensures Recs(cfg.version, log, c) == []
  {
    if log != [] {
      assert log[|log| - 1] in log;
      OtherHasNone(cfg, log[..|log| - 1], key, c);
    }
  }

  /** The last call does to its writer's log what it does to the directory's. */
  lemma LastIsLogged(cfg: Config, acts: seq<Act>, key: Str)
    requires acts != [] && RunDir(cfg, acts).Some?
    ensures (var front, a := acts[..|acts| - 1], acts[|acts| - 1];
             RunDir(cfg, front).Some?
             && Alone(cfg, acts, key).log == Alone(cfg, front, key).log + if a.key == key then LastAccepted(cfg, acts) else [])
  {
    var front, a := acts[..|acts| - 1], acts[|acts| - 1];
    assert acts == front + [a];
    AloneNext(cfg, front, a, key);
    RunIsShared(cfg, front);
    AreTwins(cfg, RunDir(cfg, front).value, front, a.key);
    Api.StepLog(Alone(cfg, front, key), a.op);
    var w := WriterAt(cfg, RunDir(cfg, front).value, a.key);
    assert Valid(w);
    if a.op.Add? {
      var change := AddMoves(Alone(cfg, front, a.key).w, w, a.op.entry, a.op.answers);
    }
    hide Alone, Step, AddEntry, Shared, Twins, Moved, WriterAt, Next;
  }

  lemma LastIsAccepted(cfg: Config, acts: seq<Act>, c: Channel)
    requires acts != [] && RunDir(cfg, acts).Some? && AllRouted(cfg, acts)
    ensures (var front, key := acts[..|acts| - 1], WriterKey(cfg, c);
             RunDir(cfg, front).Some?
             && exists more ::
                  Alone(cfg, acts, key).log == Alone(cfg, front, key).log + more
                  && Recs(cfg.version, AcceptedIn(cfg, acts), c) == Recs(cfg.version, AcceptedIn(cfg, front), c) + Recs(cfg.version, more, c))
  {
    var front, a, key := acts[..|acts| - 1], acts[|acts| - 1], WriterKey(cfg, c);
    assert a in acts;
    LastIsLogged(cfg, acts, key);
    var added := LastAccepted(cfg, acts);
    assert AcceptedIn(cfg, acts) == AcceptedIn(cfg, front) + added;
    assert forall e | e in added :: WriterKey(cfg, e.channel) == a.key;
    hide Alone, RunDir, LastAccepted, AcceptedIn, WriterKey;
    CutFilter.RecsAppend(cfg.version, AcceptedIn(cfg, front), added, c);
    var more := if a.key == key then added else [];
    if a.key != key {
      OtherHasNone(cfg, added, a.key, c);
    }
    assert Recs(cfg.version, more, c) == Recs(cfg.version, added, c);
  }

  lemma {:induction false} AcceptedIsAlone(cfg: Config, acts: seq<Act>, c: Channel)
    requires RunDir(cfg, acts).Some? && AllRouted(cfg, acts)
    ensures Recs(cfg.version, AcceptedIn(cfg, acts), c) == Recs(cfg.version, Alone(cfg, acts, WriterKey(cfg, c)).log, c)
  {
    if acts == [] {
      assert Alone(cfg, acts, WriterKey(cfg, c)).log == [];
    } else {
      var front, key := acts[..|acts| - 1], WriterKey(cfg, c);
      LastIsAccepted(cfg, acts, c);
      AcceptedIsAlone(cfg, front, c);
      hide Alone, RunDir, Recs, AcceptedIn;
      var more :| Alone(cfg, acts, key).log == Alone(cfg, front, key).log + more
                  && Recs(cfg.version, AcceptedIn(cfg, acts), c) == Recs(cfg.version, AcceptedIn(cfg, front), c) + Recs(cfg.version, more, c);
      CutFilter.RecsAppend(cfg.version, Alone(cfg, front, key).log, more, c);
    }
  }

  // ---------- The files on the shared disk ----------

  /** The calls are possible, and have closed all files; the names are such as a file can
      hold. */
  ghost predicate Written(cfg: Config, acts: seq<Act>) {
    && RunDir(cfg, acts).Some? && AllRouted(cfg, acts)
    && (forall a | a in acts :: StorableOp(a.op))
    && (var d := RunDir(cfg, acts).value; forall key | key in d.writers :: !d.writers[key].open)
  }

  lemma {:induction false} OpsAreStorable(cfg: Config, acts: seq<Act>, key: Str)
    requires forall a | a in acts :: StorableOp(a.op)
    ensures forall op | op in OpsFor(cfg, acts, key) :: StorableOp(op)
  {
    if acts != [] {
      var n := |acts| - 1;
      assert acts[n] in acts;
      OpsAreStorable(cfg, acts[..n], key);
    }
    hide StorableOp;
  }

  lemma AloneIsFiled(cfg: Config, acts: seq<Act>, key: Str)
    requires Written(cfg, acts)
    ensures (var t := Alone(cfg, acts, key);
             Filed(t) && !t.w.open && t.w.version == cfg.version && t.w.dir == cfg.dir && t.w.base == WriterBase(cfg, key))
  {
    OpsAreStorable(cfg, acts, key);
    RunIsFiled(cfg.version, cfg.dir, WriterBase(cfg, key), cfg.limit, OpsFor(cfg, acts, key));
    Api.RunVersion(cfg.version, cfg.dir, WriterBase(cfg, key), cfg.limit, OpsFor(cfg, acts, key));
    RunIsShared(cfg, acts);
    assert WriterOk(cfg, RunDir(cfg, acts).value, acts, key);
    hide Run, Filed, RunDir, OpsFor, WriterBase;
  }

  ghost function SegmentOf(t: Trace, k: nat): seq<WriteEntry> {
    if Cutting(t.log, t.cuts) && k < |t.cuts| then Segment(t.log, t.cuts, k) else []
  }

  ghost function BaseOf(t: Trace, k: nat): nat { if k < |t.cuts| then t.cuts[k] else 0 }

  lemma OwnFile(t: Trace, k: nat)
    requires Filed(t) && !t.w.open && FilePath(t.w.dir, t.w.base, k) in t.w.disk
    ensures k < |t.cuts| && Archived(t.w.version, t.w.disk[FilePath(t.w.dir, t.w.base, k)], SegmentOf(t, k), BaseOf(t, k))
  {
    hide FilePath, Archived, Segment;
    assert FilePath(t.w.dir, t.w.base, k) in t.w.disk.Keys;
    var j: nat :| j < |t.cuts| && FilePath(t.w.dir, t.w.base, j) == FilePath(t.w.dir, t.w.base, k);
    PathInjective(t.w.dir, t.w.base, j, k);
    assert ArchivedAt(t.w, t.log, t.cuts, k);
  }

  /** Each file of the directory archives a stretch of its maker's log. */
  lemma FileIsArchive(cfg: Config, acts: seq<Act>, p: Str)
    requires Written(cfg, acts) && p in RunDir(cfg, acts).value.disk
    ensures (var d := RunDir(cfg, acts).value;
             p in d.makers
             && (var m, t := d.makers[p], Alone(cfg, acts, d.makers[p].key);
                 && m.split < |t.cuts| && p == FilePath(cfg.dir, WriterBase(cfg, m.key), m.split)
                 && Archived(cfg.version, d.disk[p], SegmentOf(t, m.split), BaseOf(t, m.split))))
  {
    RunIsShared(cfg, acts);
    var d := RunDir(cfg, acts).value;
    assert FileOk(cfg, d, acts, p);
    AloneIsFiled(cfg, acts, d.makers[p].key);
    hide RunDir, Alone, Written, Filed, FilePath, Archived, SegmentOf, BaseOf, WriterBase;
    OwnFile(Alone(cfg, acts, d.makers[p].key), d.makers[p].split);
  }

  // ---------- Reading ----------

  /** A reader lists every file once. */
  ghost predicate ListsAll(d: Dir, paths: seq<Str>) { Once(paths) && forall p :: p in paths <==> p in d.disk }

  function FilesAt(d: Dir, paths: seq<Str>): (files: Files)
    requires forall p | p in paths :: p in d.disk
    ensures |files| == |paths| && forall i | 0 <= i < |files| :: files[i] == d.disk[paths[i]]
  {
    seq(|paths|, i requires 0 <= i < |paths| => d.disk[paths[i]])
  }

  /** The stretch of its maker's log that the file at a path holds, and where it begins. */
  ghost function SegmentAt(cfg: Config, acts: seq<Act>, p: Str): (seq<WriteEntry>, nat)
    requires RunDir(cfg, acts).Some?
  {
    var d := RunDir(cfg, acts).value;
    if p in d.makers then
      var m, t := d.makers[p], Alone(cfg, acts, d.makers[p].key);
      (SegmentOf(t, m.split), BaseOf(t, m.split))
    else ([], 0)
  }

  /** What readers find for a channel in the file at a path. */
  ghost function ShownAt(cfg: Config, acts: seq<Act>, p: Str, c: Channel): seq<WriteEntry>
    requires RunDir(cfg, acts).Some?
  {
    Shown(SegmentAt(cfg, acts, p).0, SegmentAt(cfg, acts, p).1, c)
  }

  ghost function AllShown(cfg: Config, acts: seq<Act>, paths: seq<Str>, c: Channel): (r: seq<seq<WriteEntry>>)
    requires RunDir(cfg, acts).Some?
    ensures |r| == |paths| && forall i | 0 <= i < |r| :: r[i] == ShownAt(cfg, acts, paths[i], c)
  {
    seq(|paths|, i requires 0 <= i < |paths| => ShownAt(cfg, acts, paths[i], c))
  }

  lemma FileAtIsArchive(cfg: Config, acts: seq<Act>, p: Str)
    requires Written(cfg, acts) && p in RunDir(cfg, acts).value.disk
    ensures Archived(cfg.version, RunDir(cfg, acts).value.disk[p], SegmentAt(cfg, acts, p).0, SegmentAt(cfg, acts, p).1)
  {
    FileIsArchive(cfg, acts, p);
    hide RunDir, Alone, Archived, SegmentOf, BaseOf, FilePath, WriterBase;
  }

  lemma MergedIsShown(cfg: Config, acts: seq<Act>, paths: seq<Str>, c: Channel)
    requires Written(cfg, acts) && ListsAll(RunDir(cfg, acts).value, paths)
    ensures Merged(FilesAt(RunDir(cfg, acts).value, paths), c) == Firsts(cfg.version, Flat(AllShown(cfg, acts, paths, c)), c)
  {
    hide RunDir, Archived, SegmentAt, Shown, Once, Merged, Firsts, Flat;
    var files := FilesAt(RunDir(cfg, acts).value, paths);
    var segs := seq(|paths|, i requires 0 <= i < |paths| => SegmentAt(cfg, acts, paths[i]).0);
    var bases := seq(|paths|, i requires 0 <= i < |paths| => SegmentAt(cfg, acts, paths[i]).1);
    forall i | 0 <= i < |files| ensures Archived(cfg.version, files[i], segs[i], bases[i]) {
      FileAtIsArchive(cfg, acts, paths[i]);
    }
    MergedArchives(cfg.version, files, segs, bases, c);
    assert ShownAll(segs, bases, c) == AllShown(cfg, acts, paths, c);
  }

  // ---------- Main result ----------

  ghost predicate NotReplaced(d: Dir, t: Trace, key: Str, c: Channel, k: nat)
    requires Cutting(t.log, t.cuts) && k < |t.cuts|
  {
    Recs(t.w.version, Segment(t.log, t.cuts, k), c) != [] ==>
      var p := FilePath(t.w.dir, t.w.base, k);
      p in d.makers && d.makers[p].key == key
  }

  /** No file with entries of the channel has been replaced by another writer. */
  ghost predicate NothingReplaced(d: Dir, t: Trace, key: Str, c: Channel)
    requires Cutting(t.log, t.cuts)
  {
    forall k | 0 <= k < |t.cuts| :: NotReplaced(d, t, key, c, k)
  }

  ghost function BagAt(cfg: Config, acts: seq<Act>, p: Str, c: Channel): multiset<Rec>
    requires RunDir(cfg, acts).Some?
  {
    multiset(Recs(cfg.version, ShownAt(cfg, acts, p, c), c))
  }

  lemma SegmentOfLog(t: Trace, k: nat)
    ensures forall e | e in SegmentOf(t, k) :: e in t.log
  {
  }

  /** A file of another writer has nothing of the channel. */
  lemma OthersAreEmpty(cfg: Config, acts: seq<Act>, p: Str, c: Channel)
    requires Written(cfg, acts) && p in RunDir(cfg, acts).value.makers
    requires RunDir(cfg, acts).value.makers[p].key != WriterKey(cfg, c)
    ensures BagAt(cfg, acts, p, c) == multiset{}
  {
    var m := RunDir(cfg, acts).value.makers[p];
    LogIsRouted(cfg, acts, m.key);
    SegmentOfLog(Alone(cfg, acts, m.key), m.split);
    hide RunDir, Alone, SegmentOf, BaseOf, Taken;
    assert Recs(cfg.version, [], c) == [];
    OtherHasNone(cfg, SegmentAt(cfg, acts, p).0, m.key, c);
    hide Recs;
  }

  /** What is found at the path of one of the channel's own files. */
  lemma OwnBag(cfg: Config, acts: seq<Act>, k: nat, c: Channel)
    requires Written(cfg, acts) && k < |Alone(cfg, acts, WriterKey(cfg, c)).cuts|
    ensures (var t, d := Alone(cfg, acts, WriterKey(cfg, c)), RunDir(cfg, acts).value;
             var p := FilePath(t.w.dir, t.w.base, k);
             && Cutting(t.log, t.cuts) && p in d.disk
             && (var bag, all := BagAt(cfg, acts, p, c), multiset(Recs(cfg.version, Segment(t.log, t.cuts, k), c));
                 && bag <= all
                 && (bag == all <==> NoneHidden(cfg.version, Segment(t.log, t.cuts, k), t.cuts[k], c)
                                     && NotReplaced(d, t, WriterKey(cfg, c), c, k))))
  {
    var key := WriterKey(cfg, c);
    var t, d := Alone(cfg, acts, key), RunDir(cfg, acts).value;
    AloneIsFiled(cfg, acts, key);
    RunIsShared(cfg, acts);
    assert WriterOk(cfg, d, acts, key);
    var p := FilePath(t.w.dir, t.w.base, k);
    assert p in Paths(t.w.dir, t.w.base, |t.cuts|);
    assert p in t.w.disk.Keys && p in d.disk;
    FileIsArchive(cfg, acts, p);
    var seg := Segment(t.log, t.cuts, k);
    hide RunDir, Alone, Filed, FilePath, Segment, Archived, Recs, WriterBase, Taken, Written, Shared, WriterOk, WriterKey;
    if d.makers[p].key == key {
      PathInjective(t.w.dir, t.w.base, k, d.makers[p].split);
      ShownBag(cfg.version, seg, t.cuts[k], c);
    } else {
      OthersAreEmpty(cfg, acts, p, c);
      BagOfNone(Recs(cfg.version, seg, c));
    }
  }

  function OwnPaths(t: Trace): (paths: seq<Str>)
    ensures |paths| == |t.cuts| && forall k | 0 <= k < |t.cuts| :: paths[k] == FilePath(t.w.dir, t.w.base, k)
  {
    seq(|t.cuts|, k requires 0 <= k < |t.cuts| => FilePath(t.w.dir, t.w.base, k))
  }

  lemma OwnPathsOnce(t: Trace)
    ensures Once(OwnPaths(t))
  {
    hide FilePath;
    var paths := OwnPaths(t);
    forall i, j | 0 <= i < j < |paths| ensures paths[i] != paths[j] {
      if paths[i] == paths[j] {
        PathInjective(t.w.dir, t.w.base, i, j);
      }
    }
  }

  ghost function Bags(cfg: Config, acts: seq<Act>, c: Channel): (bags: map<Str, multiset<Rec>>)
    requires RunDir(cfg, acts).Some?
    ensures forall p | p in RunDir(cfg, acts).value.disk :: p in bags && bags[p] == BagAt(cfg, acts, p, c)
  {
    map p | p in RunDir(cfg, acts).value.disk :: BagAt(cfg, acts, p, c)
  }

  lemma MakerOwns(cfg: Config, acts: seq<Act>, p: Str)
    requires Written(cfg, acts) && p in RunDir(cfg, acts).value.disk
    ensures p in RunDir(cfg, acts).value.makers
    ensures p in OwnPaths(Alone(cfg, acts, RunDir(cfg, acts).value.makers[p].key))
  {
    FileIsArchive(cfg, acts, p);
    var m := RunDir(cfg, acts).value.makers[p];
    AloneIsFiled(cfg, acts, m.key);
    hide RunDir, Alone, Filed, FilePath, Archived, WriterBase, Written;
    assert OwnPaths(Alone(cfg, acts, m.key))[m.split] == p;
  }

  /** Files other than the channel's own add nothing to it. */
  lemma RestIsEmpty(cfg: Config, acts: seq<Act>, p: Str, c: Channel)
    requires Written(cfg, acts) && p in RunDir(cfg, acts).value.disk
    requires p !in OwnPaths(Alone(cfg, acts, WriterKey(cfg, c)))
    ensures BagAt(cfg, acts, p, c) == multiset{}
  {
    MakerOwns(cfg, acts, p);
    hide RunDir, Alone, OwnPaths, Written, WriterKey, BagAt;
    OthersAreEmpty(cfg, acts, p, c);
  }

  lemma FoundBag(cfg: Config, acts: seq<Act>, paths: seq<Str>, c: Channel)
    requires Written(cfg, acts) && ListsAll(RunDir(cfg, acts).value, paths)
    ensures In(Bags(cfg, acts, c), paths)
    ensures multiset(Recs(cfg.version, Flat(AllShown(cfg, acts, paths, c)), c)) == Sum(BagsOf(Bags(cfg, acts, c), paths))
  {
    assert RunDir(cfg, acts).Some?;
    hide RunDir, Once, Recs, Flat, Sum, ShownAt, Written;
    var shown := AllShown(cfg, acts, paths, c);
    FlatBags(cfg.version, shown, c);
    var bags, found := BagsOf(Bags(cfg, acts, c), paths), RecBags(cfg.version, shown, c);
    hide Bags, BagsOf, AllShown, RecBags;
    forall i | 0 <= i < |paths| ensures found[i] == bags[i] {
      assert paths[i] in paths;
    }
    assert found == bags;
  }

  lemma OwnPathsListed(cfg: Config, acts: seq<Act>, c: Channel)
    requires Written(cfg, acts)
    ensures forall p | p in OwnPaths(Alone(cfg, acts, WriterKey(cfg, c))) :: p in RunDir(cfg, acts).value.disk
    ensures In(Bags(cfg, acts, c), OwnPaths(Alone(cfg, acts, WriterKey(cfg, c))))
  {
    assert RunDir(cfg, acts).Some?;
    hide RunDir, Alone, Written, FilePath, BagAt, Recs, WriterKey, Segment, NoneHidden, NotReplaced;
    var t := Alone(cfg, acts, WriterKey(cfg, c));
    forall k | 0 <= k < |t.cuts| ensures FilePath(t.w.dir, t.w.base, k) in RunDir(cfg, acts).value.disk {
      OwnBag(cfg, acts, k, c);
    }
  }

  lemma FoundIsOwn(cfg: Config, acts: seq<Act>, paths: seq<Str>, c: Channel)
    requires Written(cfg, acts) && ListsAll(RunDir(cfg, acts).value, paths)
    ensures In(Bags(cfg, acts, c), OwnPaths(Alone(cfg, acts, WriterKey(cfg, c))))
    ensures multiset(Recs(cfg.version, Flat(AllShown(cfg, acts, paths, c)), c))
         == Sum(BagsOf(Bags(cfg, acts, c), OwnPaths(Alone(cfg, acts, WriterKey(cfg, c)))))
  {
    assert RunDir(cfg, acts).Some?;
    hide RunDir, Alone, Written, OwnPaths, BagAt, Recs, WriterKey, Sum, Flat, Once, AllShown;
    FoundBag(cfg, acts, paths, c);
    OwnPathsListed(cfg, acts, c);
    OwnPathsOnce(Alone(cfg, acts, WriterKey(cfg, c)));
    var own, bags := OwnPaths(Alone(cfg, acts, WriterKey(cfg, c))), Bags(cfg, acts, c);
    forall p | p in paths && p !in own ensures bags[p] == multiset{} {
      RestIsEmpty(cfg, acts, p, c);
    }
    SumCovers(bags, paths, own);
  }

  lemma LogIsSum(v: Version, t: Trace, c: Channel)
    requires Counted(t)
    ensures multiset(Recs(v, t.log, c)) == Sum(RecBags(v, Segments(t.log, t.cuts), c))
  {
    FlatOfAll(t.log, t.cuts);
    FlatBags(v, Segments(t.log, t.cuts), c);
    hide Recs, Sum, Flat, Segment, Segments, RecBags;
  }

  /** Nothing of file `k` is hidden or replaced. */
  ghost predicate Kept(d: Dir, t: Trace, key: Str, c: Channel, k: nat)
    requires Cutting(t.log, t.cuts) && k < |t.cuts|
  {
    NoneHidden(t.w.version, Segment(t.log, t.cuts, k), t.cuts[k], c) && NotReplaced(d, t, key, c, k)
  }

  lemma KeptIff(v: Version, d: Dir, t: Trace, key: Str, c: Channel)
    requires Cutting(t.log, t.cuts) && t.w.version == v
    ensures (forall k | 0 <= k < |t.cuts| :: Kept(d, t, key, c, k))
       <==> NothingHidden(v, t.log, t.cuts, c) && NothingReplaced(d, t, key, c)
  {
    hide NoneHidden, NotReplaced, Segment;
    if forall k | 0 <= k < |t.cuts| :: Kept(d, t, key, c, k) {
      forall k | 0 <= k < |t.cuts|
        ensures NoneHidden(v, Segment(t.log, t.cuts, k), t.cuts[k], c) && NotReplaced(d, t, key, c, k)
      {
        assert Kept(d, t, key, c, k);
      }
    }
  }

  lemma OwnSums(v: Version, d: Dir, t: Trace, key: Str, c: Channel, owned: seq<multiset<Rec>>)
    requires Counted(t) && t.w.version == v && |owned| == |t.cuts|
    requires forall k | 0 <= k < |t.cuts| ::
               (var all := multiset(Recs(v, Segment(t.log, t.cuts, k), c));
                owned[k] <= all && (owned[k] == all <==> Kept(d, t, key, c, k)))
    ensures (var all := multiset(Recs(v, t.log, c));
             && Sum(owned) <= all
             && (Sum(owned) == all <==> NothingHidden(v, t.log, t.cuts, c) && NothingReplaced(d, t, key, c)))
  {
    LogIsSum(v, t, c);
    KeptIff(v, d, t, key, c);
    assert Cutting(t.log, t.cuts);
    hide Recs, Sum, Segment, Kept, NothingHidden, NothingReplaced, Counted, Cutting, RecBags;
    var wanted := RecBags(v, Segments(t.log, t.cuts), c);
    forall k | 0 <= k < |t.cuts| ensures owned[k] <= wanted[k] && (owned[k] == wanted[k] <==> Kept(d, t, key, c, k)) {
      assert wanted[k] == multiset(Recs(v, Segments(t.log, t.cuts)[k], c));
    }
    SumsIff(owned, wanted);
  }

  /** What is in the channel's own files is all that was accepted for it exactly if none of it
      is hidden or replaced. */
  lemma OwnIsAllIff(cfg: Config, acts: seq<Act>, c: Channel)
    requires Written(cfg, acts) && In(Bags(cfg, acts, c), OwnPaths(Alone(cfg, acts, WriterKey(cfg, c))))
    ensures (var t, d := Alone(cfg, acts, WriterKey(cfg, c)), RunDir(cfg, acts).value;
             var found, all := Sum(BagsOf(Bags(cfg, acts, c), OwnPaths(t))), multiset(Recs(cfg.version, t.log, c));
             && Cutting(t.log, t.cuts) && found <= all
             && (found == all <==> NothingHidden(cfg.version, t.log, t.cuts, c) && NothingReplaced(d, t, WriterKey(cfg, c), c)))
  {
    assert RunDir(cfg, acts).Some?;
    var t, d, key := Alone(cfg, acts, WriterKey(cfg, c)), RunDir(cfg, acts).value, WriterKey(cfg, c);
    AloneIsFiled(cfg, acts, key);
    hide RunDir, Alone, Written, FilePath, BagAt, Recs, WriterKey, NoneHidden, NotReplaced, Sum, Segment, NothingHidden, NothingReplaced,
         AllArchived, Partial, Tabulated, Paths;
    forall k | 0 <= k < |t.cuts|
      ensures (var bag, all := Bags(cfg, acts, c)[OwnPaths(t)[k]], multiset(Recs(cfg.version, Segment(t.log, t.cuts, k), c));
               bag <= all && (bag == all <==> Kept(d, t, key, c, k)))
    {
      OwnBag(cfg, acts, k, c);
    }
    OwnSums(cfg.version, d, t, key, c, BagsOf(Bags(cfg, acts, c), OwnPaths(t)));
  }

  /** A directory that is written through several writers gives a channel back in full exactly
      if no two entries accepted for it have the same receive timestamp, none is in a file with
      a payload whose number is the channel's name, and no file with entries of it has been
      replaced by another writer: for every sequence of calls that leaves the files closed, in
      either mode, and in whatever order a reader lists the files. */
  lemma SharedLosslessIff(cfg: Config, acts: seq<Act>, paths: seq<Str>,
                          origins: seq<Origin>, byId: map<int, Ref>, byChn: map<Channel, EntrySet>, c: Channel)
    requires Written(cfg, acts) && ListsAll(RunDir(cfg, acts).value, paths)
    requires (var files := FilesAt(RunDir(cfg, acts).value, paths); Indexed(files, origins, byId, byChn) && Complete(files, origins))
    ensures Cutting(Alone(cfg, acts, WriterKey(cfg, c)).log, Alone(cfg, acts, WriterKey(cfg, c)).cuts)
    ensures (var d, t := RunDir(cfg, acts).value, Alone(cfg, acts, WriterKey(cfg, c));
             var accepted := Recs(cfg.version, AcceptedIn(cfg, acts), c);
             multiset(Range(ReadBack(FilesAt(d, paths), byId, byChn, c))) == multiset(accepted)
             <==> DistinctTimes(accepted) && NothingHidden(cfg.version, t.log, t.cuts, c) && NothingReplaced(d, t, WriterKey(cfg, c), c))
  {
    assert RunDir(cfg, acts).Some? && AllRouted(cfg, acts);
    hide RunDir, Alone, Written, AllRouted, Recs, WriterKey, Indexed, Complete, Once, Flat, NothingHidden, NothingReplaced, DistinctTimes,
         AcceptedIn, ReadBack, Merged, Firsts, AllShown, OwnPaths, Bags, Sum;
    var d := RunDir(cfg, acts).value;
    ReadBackIsMerged(FilesAt(d, paths), origins, byId, byChn, c);
    MergedIsShown(cfg, acts, paths, c);
    FoundIsOwn(cfg, acts, paths, c);
    OwnIsAllIff(cfg, acts, c);
    AcceptedIsAlone(cfg, acts, c);
    var shown := Flat(AllShown(cfg, acts, paths, c));
    FirstsOfRecs(cfg.version, shown, c);
    ReadIsAllIff(Firsts(cfg.version, shown, c), Recs(cfg.version, shown, c), Recs(cfg.version, AcceptedIn(cfg, acts), c));
  }

  // ---------- When nothing is replaced ----------

  lemma {:induction false} NoEntriesNoFiles(version: Version, dir: Str, base: Str, limit: nat, ops: seq<Op>)
    requires forall op | op in ops :: !op.Add?
    ensures Run(version, dir, base, limit, ops).cuts == [] && !Run(version, dir, base, limit, ops).w.open
    ensures Run(version, dir, base, limit, ops).w.split == -1
  {
    if ops != [] {
      assert ops[|ops| - 1] in ops;
      NoEntriesNoFiles(version, dir, base, limit, ops[..|ops| - 1]);
    }
  }

  lemma {:induction false} AddIsCalled(cfg: Config, acts: seq<Act>, key: Str, op: Op) returns (a: Act)
    requires op in OpsFor(cfg, acts, key)
    ensures a in acts && a.key == key && a.op == op
  {
    var n := |acts| - 1;
    if op in OpsFor(cfg, acts[..n], key) {
      a := AddIsCalled(cfg, acts[..n], key, op);
    } else {
      a := acts[n];
    }
  }

  /** A writer with files is one that entries were routed to. */
  lemma FilesHaveEntries(cfg: Config, acts: seq<Act>, key: Str)
    requires AllRouted(cfg, acts) && (forall a | a in acts :: StorableOp(a.op)) && Alone(cfg, acts, key).cuts != []
    ensures exists c :: WriterKey(cfg, c) == key && Storable(c.name)
  {
    hide Storable;
    if op :| op in OpsFor(cfg, acts, key) && op.Add? {
      var a := AddIsCalled(cfg, acts, key, op);
      assert WriterKey(cfg, op.entry.channel) == key && StorableOp(a.op);
    } else {
      NoEntriesNoFiles(cfg.version, cfg.dir, WriterBase(cfg, key), cfg.limit, OpsFor(cfg, acts, key));
    }
  }

  /** No channel's file name is another's followed by an underscore and a number. */
  ghost predicate Apart(keys: set<Str>) {
    forall k, l, n: nat | k in keys && l in keys :: !Numbers(EscapeFile(Unescape(k)), EscapeFile(Unescape(l)), n)
  }

  lemma ApartPaths(cfg: Config, k: Str, m: nat, l: Str, n: nat)
    requires cfg.perChannel && EscapeTopic(Unescape(k)) == k && EscapeTopic(Unescape(l)) == l
    requires FilePath(cfg.dir, WriterBase(cfg, k), m) == FilePath(cfg.dir, WriterBase(cfg, l), n)
    requires !Numbers(EscapeFile(Unescape(k)), EscapeFile(Unescape(l)), n) && !Numbers(EscapeFile(Unescape(l)), EscapeFile(Unescape(k)), m)
    ensures k == l
  {
    SamePathIff(cfg.dir, cfg.base, Unescape(k), m, Unescape(l), n);
  }

  lemma HasWriter(cfg: Config, acts: seq<Act>, key: Str)
    requires Written(cfg, acts) && Alone(cfg, acts, key).cuts != []
    ensures key in RunDir(cfg, acts).value.writers
  {
    RunIsShared(cfg, acts);
    AloneIsFiled(cfg, acts, key);
    assert WriterOk(cfg, RunDir(cfg, acts).value, acts, key);
  }

  lemma KeyOfFile(cfg: Config, acts: seq<Act>, key: Str, k: nat)
    requires Written(cfg, acts) && k < |Alone(cfg, acts, key).cuts|
    requires cfg.perChannel ==> Apart(RunDir(cfg, acts).value.writers.Keys)
    requires FilePath(cfg.dir, WriterBase(cfg, key), k) in RunDir(cfg, acts).value.disk
    ensures (var d, p := RunDir(cfg, acts).value, FilePath(cfg.dir, WriterBase(cfg, key), k);
             p in d.makers && d.makers[p].key == key)
  {
    var d, p := RunDir(cfg, acts).value, FilePath(cfg.dir, WriterBase(cfg, key), k);
    FileIsArchive(cfg, acts, p);
    var m := d.makers[p];
    FilesHaveEntries(cfg, acts, key);
    FilesHaveEntries(cfg, acts, m.key);
    if cfg.perChannel {
      HasWriter(cfg, acts, key);
      HasWriter(cfg, acts, m.key);
      ApartPaths(cfg, key, k, m.key, m.split);
    }
  }

  /** With one writer, or with file names that are apart, no file is ever replaced. */
  lemma ApartKeepsAll(cfg: Config, acts: seq<Act>, c: Channel)
    requires Written(cfg, acts)
    requires cfg.perChannel ==> Apart(RunDir(cfg, acts).value.writers.Keys)
    ensures Cutting(Alone(cfg, acts, WriterKey(cfg, c)).log, Alone(cfg, acts, WriterKey(cfg, c)).cuts)
    ensures NothingReplaced(RunDir(cfg, acts).value, Alone(cfg, acts, WriterKey(cfg, c)), WriterKey(cfg, c), c)
  {
    var d, key := RunDir(cfg, acts).value, WriterKey(cfg, c);
    var t := Alone(cfg, acts, key);
    AloneIsFiled(cfg, acts, key);
    forall k | 0 <= k < |t.cuts| ensures NotReplaced(d, t, key, c, k) {
      OwnBag(cfg, acts, k, c);
      KeyOfFile(cfg, acts, key, k);
    }
  }
}
