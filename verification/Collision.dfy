/** A recording with one file per channel in which a writer replaces a file of another. */
module Collision {
  import opened Strings
  import opened Escape
  import opened Entries
  import opened Layout
  import opened Recording
  import opened MeasDir
  import opened DirFacts
  import opened Lossless
  import opened ChannelFiles
  import opened Directory
  import opened DirectoryRead
  import CutFilter
  import FileOrder

  const SHARED := Config(V6, true, "out", "meas", 1000)

  /** The second file of `a` is closed when the third is begun, and then `a_1` begins its first
      file, at the same path. */
  const COLLIDING: seq<Act> := [
    Act("a", Add(WriteEntry(Channel("a", 0), "first", 0, 1, 0, 0), Answers(Opened, 0, Opened))),
    Act("a", Add(WriteEntry(Channel("a", 0), "second", 0, 2, 0, 0), Answers(Opened, 1000, Opened))),
    Act("a", Add(WriteEntry(Channel("a", 0), "third", 0, 3, 0, 0), Answers(Opened, 1000, Opened))),
    Act("a_1", Add(WriteEntry(Channel("a_1", 0), "other", 0, 4, 0, 0), Answers(Opened, 0, Opened))),
    Act("a", Close),
    Act("a_1", Close)
  ]

  /** The entries of `a`. */
  function OfA(): seq<WriteEntry> { [COLLIDING[0].op.entry, COLLIDING[1].op.entry, COLLIDING[2].op.entry] }

  ghost predicate Idle(acts: seq<Act>, key: Str) {
    Alone(SHARED, acts, key) == Trace(Fresh(V6, "out", WriterBase(SHARED, key), 1000), [], [])
  }

  /** Where the writer of `key` is: its log, the beginnings of its files, and whether the last
      is open. */
  ghost predicate Stands(acts: seq<Act>, key: Str, log: seq<WriteEntry>, cuts: seq<nat>, open: bool) {
    var t := Alone(SHARED, acts, key);
    && t.log == log && t.cuts == cuts && t.w.open == open && t.w.split == |cuts| - 1
    && t.w.dir == "out" && t.w.base == WriterBase(SHARED, key) && t.w.limit == 1000
  }

  lemma StepLimit(t: Trace, op: Op)
    requires Valid(t.w)
    ensures Step(t, op).w.limit == t.w.limit
  {
    hide FilePath, NewFile, Finish, Emptied, Fits, Valid, AddRow, Repeated;
  }

  lemma {:induction false} RunLimit(version: Version, dir: Str, base: Str, limit: nat, ops: seq<Op>)
    ensures Run(version, dir, base, limit, ops).w.limit == limit
  {
    if ops != [] {
      RunLimit(version, dir, base, limit, ops[..|ops| - 1]);
      StepLimit(Run(version, dir, base, limit, ops[..|ops| - 1]), ops[|ops| - 1]);
      hide Step;
    }
  }

  lemma StandsAfter(acts: seq<Act>, key: Str)
    ensures (var t := Alone(SHARED, acts, key); Stands(acts, key, t.log, t.cuts, t.w.open))
  {
    RunIsPlaced(V6, "out", WriterBase(SHARED, key), 1000, OpsFor(SHARED, acts, key));
    CutFilter.RunPlace(V6, "out", WriterBase(SHARED, key), 1000, OpsFor(SHARED, acts, key));
    RunLimit(V6, "out", WriterBase(SHARED, key), 1000, OpsFor(SHARED, acts, key));
    hide Run, OpsFor, WriterBase;
  }

  lemma EntryBegins(t: Trace, op: Op)
    requires Valid(t.w) && t.w.dir != [] && t.w.base != [] && t.w.limit == 1000 && op.Add?
    requires op.answers.first.Opened? && op.answers.next.Opened?
    requires if t.w.open then 1000 < op.answers.fileSize + |op.entry.data| < TWO64
             else t.w.split == -1 && op.answers.fileSize + |op.entry.data| <= 1000
    ensures (var r := Step(t, op); r.log == t.log + [op.entry] && r.cuts == t.cuts + [|t.log|] && r.w.open)
  {
    if t.w.open {
      FileOrder.AddSplits(t, op.entry, op.answers);
    } else {
      FileOrder.AddToNewFile(t, op.entry, op.answers);
    }
    hide Step;
  }

  lemma OthersIdle(acts: seq<Act>, a: Act)
    requires forall k | k != a.key :: Idle(acts, k)
    ensures Undisturbed(SHARED, acts, a)
  {
    forall k | k != a.key ensures !Alone(SHARED, acts, k).w.open {
      assert Idle(acts, k);
    }
    hide Alone, Step, FilePath, WriterBase;
  }

  predicate IsEntryOfA(a: Act, first: bool) {
    && a.key == "a" && a.op.Add? && a.op.answers.first.Opened? && a.op.answers.next.Opened?
    && (if first then a.op.answers.fileSize + |a.op.entry.data| <= 1000
        else 1000 < a.op.answers.fileSize + |a.op.entry.data| < TWO64)
  }

  /** The first entry of `a` begins a file, and each further one another. */
  lemma EntryOfA(acts: seq<Act>, a: Act, log: seq<WriteEntry>, cuts: seq<nat>)
    requires RunDir(SHARED, acts).Some? && Stands(acts, "a", log, cuts, cuts != [])
    requires IsEntryOfA(a, cuts == [])
    requires forall k: Str | k != "a" :: Idle(acts, k)
    ensures RunDir(SHARED, acts + [a]).Some?
    ensures Stands(acts + [a], "a", log + [a.op.entry], cuts + [|log|], true)
    ensures forall k: Str | k != "a" :: Idle(acts + [a], k)
  {
    assert WriterBase(SHARED, "a") != [];
    hide Alone, Step, RunDir, WriterBase, Undisturbed, Remade;
    EntryBegins(Alone(SHARED, acts, "a"), a.op);
    OthersIdle(acts, a);
    CallHappens(SHARED, acts, a);
    StandsAfter(acts + [a], "a");
    forall k: Str | k != "a" ensures Idle(acts + [a], k) {
      assert Idle(acts, k);
    }
  }

  lemma NobodyYet()
    ensures RunDir(SHARED, []).Some? && Stands([], "a", [], [], false)
    ensures forall k: Str :: Idle([], k)
  {
  }

  lemma ThreeCalls(c0: Act, c1: Act, c2: Act)
    requires IsEntryOfA(c0, true) && IsEntryOfA(c1, false) && IsEntryOfA(c2, false)
    ensures (var acts := [c0, c1, c2];
             && RunDir(SHARED, acts).Some?
             && Stands(acts, "a", [c0.op.entry, c1.op.entry, c2.op.entry], [0, 1, 2], true)
             && forall k: Str | k != "a" :: Idle(acts, k))
  {
    NobodyYet();
    hide RunDir, Stands, Idle;
    var e0, e1, e2 := c0.op.entry, c1.op.entry, c2.op.entry;
    EntryOfA([], c0, [], []);
    assert [] + [c0] == [c0] && [] + [e0] == [e0] && [] + [0] == [0];
    EntryOfA([c0], c1, [e0], [0]);
    assert [c0] + [c1] == [c0, c1] && [e0] + [e1] == [e0, e1] && [0] + [1] == [0, 1];
    EntryOfA([c0, c1], c2, [e0, e1], [0, 1]);
    assert [c0, c1] + [c2] == [c0, c1, c2] && [e0, e1] + [e2] == [e0, e1, e2] && [0, 1] + [2] == [0, 1, 2];
  }

  /** The path of the second file of `a` and of the first of `a_1`. */
  function SharedPath(): Str { FilePath("out", WriterBase(SHARED, "a"), 1) }

  lemma SamePath()
    ensures SharedPath() == FilePath("out", WriterBase(SHARED, "a_1"), 0)
  {
    EscapeFixes(TopicName, "a");
    EscapeFixes(TopicName, "a_1");
    PathsCollide("out", "meas");
    hide EscapeWith, Unescape;
  }

  /** Only the writer of `a` has a file open, which is its third. */
  lemma NotDisturbedByA(acts: seq<Act>, b: Act, log: seq<WriteEntry>)
    requires Stands(acts, "a", log, [0, 1, 2], true) && b.key == "a_1"
    requires forall k: Str | k != "a" :: Idle(acts, k)
    requires Step(Alone(SHARED, acts, "a_1"), b.op).w.split == 0
    ensures Undisturbed(SHARED, acts, b)
  {
    SamePath();
    forall j: nat, k: Str | Alone(SHARED, acts, "a_1").w.split < j <= 0 && k != "a_1"
      ensures !IsOpenAt(Alone(SHARED, acts, k).w, FilePath("out", WriterBase(SHARED, "a_1"), j))
    {
      assert j == 0;
      if k == "a" {
        if FilePath("out", WriterBase(SHARED, "a"), 2) == FilePath("out", WriterBase(SHARED, "a"), 1) {
          PathInjective("out", WriterBase(SHARED, "a"), 2, 1);
        }
      } else {
        assert Idle(acts, k);
      }
    }
    hide Alone, Step, FilePath, WriterBase;
  }

  lemma FirstOfOther(acts: seq<Act>, b: Act)
    requires Idle(acts, "a_1") && b.op.Add? && b.op.answers.first.Opened? && b.op.answers.next.Opened?
    requires b.op.answers.fileSize + |b.op.entry.data| <= 1000
    ensures (var r := Step(Alone(SHARED, acts, "a_1"), b.op); r.log == [b.op.entry] && r.cuts == [0] && r.w.open)
  {
    assert WriterBase(SHARED, "a_1") != [];
    hide Step, WriterBase;
    EntryBegins(Alone(SHARED, acts, "a_1"), b.op);
    hide Alone;
  }

  lemma StepSplit(acts: seq<Act>, a: Act)
    requires !Skips(SHARED, a)
    ensures (var r := Step(Alone(SHARED, acts, a.key), a.op); r.w.split == |r.cuts| - 1)
  {
    AloneNext(SHARED, acts, a, a.key);
    StandsAfter(acts + [a], a.key);
    hide Alone, Step;
  }

  /** Then the writer of `a_1` begins its first file in place of the second of `a`. */
  lemma OtherBegins(acts: seq<Act>, b: Act, log: seq<WriteEntry>)
    requires RunDir(SHARED, acts).Some? && Stands(acts, "a", log, [0, 1, 2], true)
    requires forall k: Str | k != "a" :: Idle(acts, k)
    requires b.key == "a_1" && b.op.Add? && b.op.answers.first.Opened? && b.op.answers.next.Opened?
    requires b.op.answers.fileSize + |b.op.entry.data| <= 1000
    ensures RunDir(SHARED, acts + [b]).Some?
    ensures Stands(acts + [b], "a", log, [0, 1, 2], true) && Stands(acts + [b], "a_1", [b.op.entry], [0], true)
    ensures forall k: Str | k != "a" && k != "a_1" :: Idle(acts + [b], k)
    ensures (var d := RunDir(SHARED, acts + [b]).value; SharedPath() in d.makers && d.makers[SharedPath()].key == "a_1")
  {
    var t := Alone(SHARED, acts, "a_1");
    assert Idle(acts, "a_1");
    FirstOfOther(acts, b);
    StepSplit(acts, b);
    NotDisturbedByA(acts, b, log);
    CallHappens(SHARED, acts, b);
    StandsAfter(acts + [b], "a_1");
    SamePath();
    hide Alone, Step, RunDir, WriterBase, FilePath, Undisturbed;
    RemadeAt(RunDir(SHARED, acts).value.makers, t.w, "a_1", -1, 0, SharedPath());
    forall k: Str | k != "a" && k != "a_1" ensures Idle(acts + [b], k) {
      assert Idle(acts, k);
    }
  }

  lemma ClosedStands(t: Trace)
    requires Valid(t.w)
    ensures (var r := Step(t, Close); !r.w.open && r.cuts == t.cuts && r.log == t.log && r.w.split == t.w.split)
  {
    hide FilePath, Finish;
  }

  lemma CloseOf(acts: seq<Act>, key: Str)
    requires RunDir(SHARED, acts).Some?
    ensures RunDir(SHARED, acts + [Act(key, Close)]).Some?
    ensures (var t, r := Alone(SHARED, acts, key), Alone(SHARED, acts + [Act(key, Close)], key);
             r.log == t.log && r.cuts == t.cuts && !r.w.open)
    ensures forall k: Str | k != key :: Alone(SHARED, acts + [Act(key, Close)], k) == Alone(SHARED, acts, k)
    ensures RunDir(SHARED, acts + [Act(key, Close)]).value.makers == RunDir(SHARED, acts).value.makers
  {
    var a := Act(key, Close);
    ClosedStands(Alone(SHARED, acts, key));
    hide Alone, Step, RunDir, WriterBase, FilePath;
    assert Undisturbed(SHARED, acts, a);
    CallHappens(SHARED, acts, a);
  }

  lemma SixCalls(c0: Act, c1: Act, c2: Act, b: Act)
    requires IsEntryOfA(c0, true) && IsEntryOfA(c1, false) && IsEntryOfA(c2, false)
    requires b.key == "a_1" && b.op.Add? && b.op.answers.first.Opened? && b.op.answers.next.Opened?
    requires b.op.answers.fileSize + |b.op.entry.data| <= 1000
    ensures (var acts := [c0, c1, c2] + [b] + [Act("a", Close)] + [Act("a_1", Close)];
             && RunDir(SHARED, acts).Some?
             && Alone(SHARED, acts, "a").log == [c0.op.entry, c1.op.entry, c2.op.entry] && Alone(SHARED, acts, "a").cuts == [0, 1, 2]
             && (forall k: Str :: !Alone(SHARED, acts, k).w.open)
             && (var d := RunDir(SHARED, acts).value; SharedPath() in d.makers && d.makers[SharedPath()].key == "a_1"))
  {
    hide RunDir, Alone, SharedPath;
    ThreeCalls(c0, c1, c2);
    var three, log := [c0, c1, c2], [c0.op.entry, c1.op.entry, c2.op.entry];
    OtherBegins(three, b, log);
    CloseOf(three + [b], "a");
    CloseOf(three + [b] + [Act("a", Close)], "a_1");
    var acts := three + [b] + [Act("a", Close)] + [Act("a_1", Close)];
    forall k: Str ensures !Alone(SHARED, acts, k).w.open {
      if k != "a" && k != "a_1" {
        assert Idle(three + [b], k);
      }
    }
  }

  lemma NamesAreStorable()
    ensures Storable("a") && Storable("a_1")
  {
    EscapeFixes(TopicName, "a");
    EscapeFixes(TopicName, "a_1");
    StorableIff("a");
    StorableIff("a_1");
    hide EscapeWith, Unescape, Storable;
  }

  lemma NoneLeftOpen(acts: seq<Act>)
    requires RunDir(SHARED, acts).Some? && forall k: Str :: !Alone(SHARED, acts, k).w.open
    ensures (var d := RunDir(SHARED, acts).value; forall k | k in d.writers :: !d.writers[k].open)
  {
    RunIsShared(SHARED, acts);
    var d := RunDir(SHARED, acts).value;
    forall k | k in d.writers ensures !d.writers[k].open {
      assert WriterOk(SHARED, d, acts, k);
    }
  }

  lemma CollidingFits()
    ensures AllRouted(SHARED, COLLIDING) && forall a | a in COLLIDING :: StorableOp(a.op)
  {
    NamesAreStorable();
    hide Storable;
  }

  lemma CollidingRuns()
    ensures RunDir(SHARED, COLLIDING).Some? && forall k: Str :: !Alone(SHARED, COLLIDING, k).w.open
    ensures Alone(SHARED, COLLIDING, "a").log == OfA()
    ensures Alone(SHARED, COLLIDING, "a").cuts == [0, 1, 2]
    ensures (var d := RunDir(SHARED, COLLIDING).value; SharedPath() in d.makers && d.makers[SharedPath()].key == "a_1")
  {
    assert COLLIDING == [COLLIDING[0], COLLIDING[1], COLLIDING[2]] + [COLLIDING[3]] + [Act("a", Close)] + [Act("a_1", Close)];
    hide RunDir, Alone, SharedPath;
    SixCalls(COLLIDING[0], COLLIDING[1], COLLIDING[2], COLLIDING[3]);
  }

  lemma CollidingIsWritten()
    ensures Written(SHARED, COLLIDING)
  {
    CollidingFits();
    CollidingRuns();
    hide RunDir, Alone, SharedPath, StorableOp, COLLIDING, AllRouted;
    NoneLeftOpen(COLLIDING);
  }

  lemma ThreeRecs(log: seq<WriteEntry>, c: Channel)
    requires |log| == 3 && forall i | 0 <= i < 3 :: Key(V6, log[i].channel) == c
    ensures Recs(V6, log, c) == [RecordOf(log[0]), RecordOf(log[1]), RecordOf(log[2])]
  {
    assert log[..2][..1] == log[..1] && log[..1][..0] == [];
    assert Recs(V6, log[..1], c) == [RecordOf(log[0])];
    assert Recs(V6, log[..2], c) == [RecordOf(log[0]), RecordOf(log[1])];
    hide RecordOf;
  }

  lemma SecondIsReplaced(d: Dir, t: Trace)
    requires t.w.version == V6 && t.w.dir == "out" && t.w.base == WriterBase(SHARED, "a") && t.cuts == [0, 1, 2]
    requires t.log == OfA()
    requires SharedPath() in d.makers && d.makers[SharedPath()].key == "a_1"
    ensures Cutting(t.log, t.cuts) && !NothingReplaced(d, t, "a", Channel("a", 0))
  {
    assert Segment(t.log, t.cuts, 1) == [COLLIDING[1].op.entry];
    assert [COLLIDING[1].op.entry][..0] == [];
    hide FilePath, WriterBase;
    assert Recs(V6, [COLLIDING[1].op.entry], Channel("a", 0)) != [];
    assert !NotReplaced(d, t, "a", Channel("a", 0), 1);
  }

  /** All three entries of `a` are accepted. */
  lemma CollidingIsAccepted()
    ensures RunDir(SHARED, COLLIDING).Some?
    ensures Recs(V6, AcceptedIn(SHARED, COLLIDING), Channel("a", 0))
         == [RecordOf(OfA()[0]), RecordOf(OfA()[1]), RecordOf(OfA()[2])]
  {
    CollidingRuns();
    CollidingFits();
    hide RunDir, Alone, SharedPath, AcceptedIn, Recs, RecordOf;
    ThreeRecs(Alone(SHARED, COLLIDING, "a").log, Channel("a", 0));
    AcceptedIsAlone(SHARED, COLLIDING, Channel("a", 0));
  }

  lemma CollidingIsReplaced()
    ensures Written(SHARED, COLLIDING)
    ensures Cutting(Alone(SHARED, COLLIDING, "a").log, Alone(SHARED, COLLIDING, "a").cuts)
    ensures !NothingReplaced(RunDir(SHARED, COLLIDING).value, Alone(SHARED, COLLIDING, "a"), "a", Channel("a", 0))
  {
    CollidingIsWritten();
    CollidingRuns();
    AloneIsFiled(SHARED, COLLIDING, "a");
    hide RunDir, Alone, SharedPath, Written, Filed, WriterBase, NothingReplaced;
    SecondIsReplaced(RunDir(SHARED, COLLIDING).value, Alone(SHARED, COLLIDING, "a"));
  }

  /** But no reader gets them back. */
  lemma CollisionLoses(paths: seq<Str>, origins: seq<Origin>, byId: map<int, Ref>, byChn: map<Channel, EntrySet>)
    requires RunDir(SHARED, COLLIDING).Some? && ListsAll(RunDir(SHARED, COLLIDING).value, paths)
    requires (var files := FilesAt(RunDir(SHARED, COLLIDING).value, paths);
              Indexed(files, origins, byId, byChn) && Complete(files, origins))
    ensures multiset(Range(ReadBack(FilesAt(RunDir(SHARED, COLLIDING).value, paths), byId, byChn, Channel("a", 0))))
         != multiset(Recs(V6, AcceptedIn(SHARED, COLLIDING), Channel("a", 0)))
  {
    CollidingIsReplaced();
    hide RunDir, Alone, Written, Indexed, Complete, NothingReplaced, AcceptedIn, Recs, ReadBack, Once, COLLIDING;
    SharedLosslessIff(SHARED, COLLIDING, paths, origins, byId, byChn, Channel("a", 0));
  }
}
