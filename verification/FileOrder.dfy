/** When the order in which a directory lists its files matters
    (contrib/ecalhdf5/src/eh5_meas_dir.cpp:378-488). */
module FileOrder {
  import opened Strings
  import opened Escape
  import opened Layout
  import opened Recording
  import opened MeasDir
  import opened DirFacts
  import opened Lossless
  import Api

  /** No two files have different records of the channel at one timestamp. */
  ghost predicate NoConflict(files: Files, c: Channel) {
    forall i, j, t | 0 <= i < |files| && 0 <= j < |files| && t in FileRecs(files[i], c) && t in FileRecs(files[j], c) ::
      FileRecs(files[i], c)[t] == FileRecs(files[j], c)[t]
  }

  /** The directory gives the same records of the channel in this order of its files. */
  ghost predicate SameIn(files: Files, c: Channel, order: seq<nat>)
    requires Orders(order, |files|)
  {
    OrdersBelow(order, |files|);
    Merged(Pick(files, order), c) == Merged(files, c)
  }

  lemma OrderHasAll(order: seq<nat>, n: nat, k: nat)
    requires Orders(order, n) && k < n
    ensures exists i :: 0 <= i < |order| && order[i] == k
  {
    assert Upto(n)[k] == k;
    assert k in multiset(Upto(n));
    assert k in multiset(order);
  }

  lemma HeldInOrder(files: Files, c: Channel, order: seq<nat>, t: int)
    requires Orders(order, |files|) && InRange(order, |files|)
    ensures t in Merged(Pick(files, order), c) <==> t in Merged(files, c)
  {
    hide FileRecs, Merged, Orders;
    MergedIsFirst(files, c, t);
    MergedIsFirst(Pick(files, order), c, t);
    if k: nat :| k < |files| && t in FileRecs(files[k], c) {
      OrderHasAll(order, |files|, k);
      var i :| 0 <= i < |order| && order[i] == k;
      assert t in FileRecs(Pick(files, order)[i], c);
    }
    if i: nat :| i < |order| && t in FileRecs(Pick(files, order)[i], c) {
      assert t in FileRecs(files[order[i]], c);
    }
  }

  /** Some file has the record that is read. */
  lemma MergedIsFrom(files: Files, c: Channel, t: int) returns (k: nat)
    requires t in Merged(files, c)
    ensures k < |files| && t in FileRecs(files[k], c) && Merged(files, c)[t] == FileRecs(files[k], c)[t]
  {
    hide FileRecs, Merged;
    MergedIsFirst(files, c, t);
    var i: nat :| i < |files| && t in FileRecs(files[i], c);
    k := FirstFile(files, c, t, i);
  }

  lemma NoConflictIsSame(files: Files, c: Channel, order: seq<nat>)
    requires NoConflict(files, c) && Orders(order, |files|)
    ensures SameIn(files, c, order)
  {
    OrdersBelow(order, |files|);
    hide FileRecs, Merged, Orders;
    var picked := Pick(files, order);
    forall t ensures t in Merged(picked, c) <==> t in Merged(files, c) {
      HeldInOrder(files, c, order, t);
    }
    forall t | t in Merged(files, c) ensures Merged(picked, c)[t] == Merged(files, c)[t] {
      HeldInOrder(files, c, order, t);
      var i := MergedIsFrom(picked, c, t);
      var k := MergedIsFrom(files, c, t);
      assert picked[i] == files[order[i]];
    }
  }

  function ToFront(n: nat, k: nat): seq<nat>
    requires k < n
  {
    [k] + Without(Upto(n), k)
  }

  lemma FrontFileWins(files: Files, c: Channel, k: nat, t: int)
    requires k < |files| && t in FileRecs(files[k], c)
    requires Orders(ToFront(|files|, k), |files|) && SameIn(files, c, ToFront(|files|, k))
    ensures t in Merged(files, c) && Merged(files, c)[t] == FileRecs(files[k], c)[t]
  {
    var order := ToFront(|files|, k);
    OrdersBelow(order, |files|);
    var picked := Pick(files, order);
    assert picked[0] == files[k];
    hide FileRecs;
  }

  lemma ToFrontOrders(n: nat, k: nat)
    requires k < n
    ensures Orders(ToFront(n, k), n)
  {
    WithoutBag(Upto(n), k);
  }

  /** What is read of a channel is the same for every order of the files exactly if no two
      files have different records of it at one timestamp. */
  lemma OrderMattersIff(files: Files, c: Channel)
    ensures (forall order | Orders(order, |files|) :: SameIn(files, c, order)) <==> NoConflict(files, c)
  {
    hide FileRecs, SameIn, Orders, ToFront;
    if NoConflict(files, c) {
      forall order | Orders(order, |files|) ensures SameIn(files, c, order) {
        NoConflictIsSame(files, c, order);
      }
    }
    if forall order | Orders(order, |files|) :: SameIn(files, c, order) {
      forall i, j, t | 0 <= i < |files| && 0 <= j < |files| && t in FileRecs(files[i], c) && t in FileRecs(files[j], c)
        ensures FileRecs(files[i], c)[t] == FileRecs(files[j], c)[t]
      {
        ToFrontOrders(|files|, i);
        ToFrontOrders(|files|, j);
        FrontFileWins(files, c, i, t);
        FrontFileWins(files, c, j, t);
      }
    }
  }

  // ---------- A run for which it matters ----------

  /** Two entries of one channel with one receive timestamp; the second no longer fits into
      the first file. */
  const SPLIT: seq<Op> := [
    Add(WriteEntry(Channel("speed", 1), "first", 0, 7, 0, 0), Answers(Opened, 0, Opened)),
    Add(WriteEntry(Channel("speed", 1), "second", 1, 7, 0, 1), Answers(Opened, 1000, Opened)),
    Close
  ]

  lemma AddToNewFile(t: Trace, e: WriteEntry, a: Answers)
    requires Valid(t.w) && !t.w.open && t.w.split == -1 && t.w.dir != [] && t.w.base != []
    requires a.first.Opened? && a.fileSize + |e.data| <= t.w.limit < TWO64
    ensures (var r := Step(t, Add(e, a));
             r.log == t.log + [e] && r.cuts == t.cuts + [|t.log|] && r.w.open && r.w.limit == t.w.limit
             && r.w.dir == t.w.dir && r.w.base == t.w.base)
  {
    AddTraceIsStep(t, e, a);
    hide FilePath, NewFile, Finish, Emptied, AddRow, Step;
  }

  lemma AddSplits(t: Trace, e: WriteEntry, a: Answers)
    requires Valid(t.w) && t.w.open && t.w.dir != [] && t.w.base != []
    requires a.next.Opened? && t.w.limit < a.fileSize + |e.data| < TWO64
    ensures (var r := Step(t, Add(e, a)); r.log == t.log + [e] && r.cuts == t.cuts + [|t.log|] && r.w.open)
  {
    AddTraceIsStep(t, e, a);
    hide FilePath, NewFile, Finish, Emptied, AddRow, Step;
  }

  lemma ClosesLast(t: Trace)
    requires Valid(t.w)
    ensures (var r := Step(t, Close); !r.w.open && r.cuts == t.cuts && r.log == t.log)
  {
    hide FilePath, Finish;
  }

  lemma TwoSteps(version: Version, first: Op, second: Op)
    ensures Run(version, "out", "meas", 1000, Api.FromOps([first, second, Close]))
         == Step(Step(Step(Trace(Fresh(version, "out", "meas", 1000), [], []), Api.FromOp(first)), Api.FromOp(second)), Close)
  {
    assert Api.FromOps([]) == [];
    assert Run(version, "out", "meas", 1000, Api.FromOps([])) == Trace(Fresh(version, "out", "meas", 1000), [], []);
    hide Run, Step;
    Api.RunMore(version, [], first);
    Api.RunMore(version, [first], second);
    Api.RunMore(version, [first] + [second], Close);
    assert [] + [first] == [first];
    assert [first] + [second] + [Close] == [first, second, Close];
    assert Api.FromOp(Close) == Close;
  }

  lemma TwoFiles(t: Trace, first: Op, second: Op)
    requires Valid(t.w) && !t.w.open && t.w.split == -1 && t.w.dir != [] && t.w.base != [] && t.w.limit < TWO64
    requires first.Add? && first.answers.first.Opened? && first.answers.fileSize + |first.entry.data| <= t.w.limit
    requires second.Add? && second.answers.next.Opened? && t.w.limit < second.answers.fileSize + |second.entry.data| < TWO64
    ensures (var r := Step(Step(Step(t, first), second), Close);
             && !r.w.open && r.log == t.log + [first.entry] + [second.entry]
             && r.cuts == t.cuts + [|t.log|] + [|t.log| + 1])
  {
    AddToNewFile(t, first.entry, first.answers);
    AddSplits(Step(t, first), second.entry, second.answers);
    ClosesLast(Step(Step(t, first), second));
    hide Step;
  }

  lemma SplitRun(version: Version)
    ensures (var t := Run(version, "out", "meas", 1000, Api.FromOps(SPLIT));
             !t.w.open && t.cuts == [0, 1] && t.log == Api.FromLog([SPLIT[0].entry, SPLIT[1].entry]))
  {
    hide Run, Step;
    var first, second := SPLIT[0], SPLIT[1];
    assert SPLIT == [first, second, Close];
    TwoSteps(version, first, second);
    TwoFiles(Trace(Fresh(version, "out", "meas", 1000), [], []), Api.FromOp(first), Api.FromOp(second));
    assert Api.FromLog([first.entry, second.entry]) == [] + [Api.FromEntry(first.entry)] + [Api.FromEntry(second.entry)];
    assert [] + [0] + [0 + 1] == [0, 1];
  }

  lemma OneEntryFirsts(v: Version, e: WriteEntry, c: Channel)
    requires Key(v, e.channel) == c
    ensures Firsts(v, [e], c) == map[e.rcv := RecordOf(e)]
  {
    assert [e][..0] == [];
    hide RecordOf;
  }

  lemma NotTaken(name: Str, base: nat, count: nat)
    requires name != [] && name[0] > '9'
    ensures !Taken(name, base, count)
  {
    forall k: nat ensures name != Decimal(k) {
      assert Decimal(k)[0] in Decimal(k);
    }
  }

  lemma SpeedStaysItself()
    ensures EscapeTopic("speed") == "speed"
  {
    EscapeFixes(TopicName, "speed");
  }

  /** A file that holds one entry. */
  lemma OneEntryFile(t: Trace, k: nat, e: WriteEntry, c: Channel)
    requires Filed(t) && !t.w.open && k < |t.cuts| && Segment(t.log, t.cuts, k) == [e]
    requires Key(t.w.version, e.channel) == c && c.name != [] && c.name[0] > '9'
    ensures FilePath(t.w.dir, t.w.base, k) in t.w.disk
    ensures FileRecs(t.w.disk[FilePath(t.w.dir, t.w.base, k)], c) == map[e.rcv := RecordOf(e)]
  {
    hide FilePath, Archived, Partial, Tabulated, Paths, FileRecs, Firsts, Taken, RecordOf, Segment;
    assert ArchivedAt(t.w, t.log, t.cuts, k);
    ArchiveGivesFirsts(t.w.version, t.w.disk[FilePath(t.w.dir, t.w.base, k)], [e], t.cuts[k], c);
    NotTaken(c.name, t.cuts[k], 1);
    OneEntryFirsts(t.w.version, e, c);
  }

  lemma TwoConflict(files: Files, c: Channel, i: nat, j: nat, t: int, a: Rec, b: Rec)
    requires i < |files| && j < |files| && a != b && i != j
    requires FileRecs(files[i], c) == map[t := a] && FileRecs(files[j], c) == map[t := b]
    ensures !NoConflict(files, c) && !TimesDisjoint(files)
  {
    RecExists(files, c, t, i);
    RecExists(files, c, t, j);
    hide FileRecs, Exists;
    assert t in FileRecs(files[i], c) && t in FileRecs(files[j], c);
    assert Exists(files, Origin(i, c, t)) && Exists(files, Origin(j, c, t));
  }

  lemma FilesConflict(t: Trace, order: seq<nat>, e0: WriteEntry, e1: WriteEntry, c: Channel)
    requires Filed(t) && !t.w.open && Orders(order, |t.cuts|) && t.cuts == [0, 1] && t.log == [e0, e1]
    requires Key(t.w.version, e0.channel) == c && Key(t.w.version, e1.channel) == c && c.name != [] && c.name[0] > '9'
    requires e0.rcv == e1.rcv && e0.data != e1.data
    ensures AllOnDisk(t.w, order)
    ensures !NoConflict(FilesIn(t.w, order), c) && !TimesDisjoint(FilesIn(t.w, order))
  {
    PathsOnDisk(t, order);
    assert Segment(t.log, t.cuts, 0) == [e0] && Segment(t.log, t.cuts, 1) == [e1];
    OneEntryFile(t, 0, e0, c);
    OneEntryFile(t, 1, e1, c);
    OrderHasAll(order, 2, 0);
    OrderHasAll(order, 2, 1);
    hide Filed, Orders, FileRecs, FilePath, Segment;
    var i: nat :| i < |order| && order[i] == 0;
    var j: nat :| j < |order| && order[j] == 1;
    TwoConflict(FilesIn(t.w, order), c, i, j, e0.rcv, RecordOf(e0), RecordOf(e1));
  }

  /** A closed run whose two files conflict: in whatever order they are listed, two files
      hold different entries of one channel and timestamp. Hence some order reads something
      else, and some number is missing from the channel index. */
  lemma SplitConflicts(version: Version, order: seq<nat>)
    requires Orders(order, |Run(version, "out", "meas", 1000, Api.FromOps(SPLIT)).cuts|)
    ensures AllOnDisk(Run(version, "out", "meas", 1000, Api.FromOps(SPLIT)).w, order)
    ensures (var files := FilesIn(Run(version, "out", "meas", 1000, Api.FromOps(SPLIT)).w, order);
             !NoConflict(files, Key(version, Api.FromChannel(Channel("speed", 1)))) && !TimesDisjoint(files))
  {
    hide Run, NoConflict, TimesDisjoint, FilesIn, Filed, Orders, EscapeWith, AllOnDisk, Storable;
    var t := Run(version, "out", "meas", 1000, Api.FromOps(SPLIT));
    SplitRun(version);
    Api.OpsAreStorable(SPLIT);
    RunIsFiled(version, "out", "meas", 1000, Api.FromOps(SPLIT));
    Api.RunVersion(version, "out", "meas", 1000, Api.FromOps(SPLIT));
    SpeedStaysItself();
    PathsOnDisk(t, order);
    var e0, e1 := Api.FromEntry(SPLIT[0].entry), Api.FromEntry(SPLIT[1].entry);
    FilesConflict(t, order, e0, e1, Key(version, Api.FromChannel(Channel("speed", 1))));
  }
}
