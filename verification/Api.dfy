/** The same results for callers, who name channels with any bytes: names are escaped on
    their way into the store (contrib/ecalhdf5/src/escape.h, eh5_meas_api_v3.cpp). */
module Api {
  import opened Strings
  import opened Escape
  import opened Hdf5
  import opened Entries
  import opened Layout
  import opened Recording
  import opened MeasDir
  import opened DirFacts
  import opened Lossless

  /** `SEscapedChannel::fromSChannel` */
  function FromChannel(c: Channel): Channel { Channel(EscapeTopic(c.name), c.id) }

  /** `SEscapedWriteEntry::fromSWriteEntry` */
  function FromEntry(e: WriteEntry): WriteEntry { e.(channel := FromChannel(e.channel)) }

  function FromOp(op: Op): Op {
    match op
    case Add(e, a) => Add(FromEntry(e), a)
    case Describe(c, info) => Describe(FromChannel(c), info)
    case Close => Close
  }

  function FromOps(ops: seq<Op>): (r: seq<Op>)
    ensures |r| == |ops|
  {
    seq(|ops|, i requires 0 <= i < |ops| => FromOp(ops[i]))
  }

  function FromLog(log: seq<WriteEntry>): (r: seq<WriteEntry>)
    ensures |r| == |log|
  {
    seq(|log|, i requires 0 <= i < |log| => FromEntry(log[i]))
  }

  predicate NameFits(name: Str) { name != [] && name != "." }

  /** The names a file can hold: any but the empty one and `.`. */
  predicate Nameable(op: Op) {
    match op
    case Add(e, _) => NameFits(e.channel.name)
    case Describe(c, _) => NameFits(c.name)
    case Close => true
  }

  lemma NameableIffStorable(op: Op)
    ensures StorableOp(FromOp(op)) <==> Nameable(op)
  {
    match op
    case Add(e, _) => StorableIff(e.channel.name);
    case Describe(c, _) => StorableIff(c.name);
    case Close =>
  }

  /** The entries, as the callers gave them, whose `AddEntryToFile` succeeded. */
  ghost function Accepted(version: Version, dir: Str, base: Str, limit: nat, ops: seq<Op>): seq<WriteEntry> {
    if ops == [] then []
    else
      var n := |ops| - 1;
      var before := Accepted(version, dir, base, limit, ops[..n]);
      match ops[n]
      case Add(e, a) =>
        if AddEntry(Run(version, dir, base, limit, FromOps(ops[..n])).w, FromEntry(e), a).1 then before + [e] else before
      case _ => before
  }

  lemma StepLog(t: Trace, op: Op)
    requires Valid(t.w)
    ensures Step(t, op).log
         == if op.Add? && AddEntry(t.w, op.entry, op.answers).1 then t.log + [op.entry] else t.log
  {
    hide Repeated, AddEntry, CloseFile, SetInfo, Valid;
  }

  lemma RunLast(version: Version, dir: Str, base: Str, limit: nat, ops: seq<Op>)
    requires ops != []
    ensures (var n := |ops| - 1;
             Run(version, dir, base, limit, FromOps(ops)) == Step(Run(version, dir, base, limit, FromOps(ops[..n])), FromOp(ops[n])))
  {
    var n := |ops| - 1;
    assert FromOps(ops)[..n] == FromOps(ops[..n]);
    hide Step;
  }

  lemma {:induction false} LogIsAccepted(version: Version, dir: Str, base: Str, limit: nat, ops: seq<Op>)
    ensures Run(version, dir, base, limit, FromOps(ops)).log == FromLog(Accepted(version, dir, base, limit, ops))
  {
    if ops != [] {
      var n := |ops| - 1;
      LogIsAccepted(version, dir, base, limit, ops[..n]);
      RunLast(version, dir, base, limit, ops);
      StepLog(Run(version, dir, base, limit, FromOps(ops[..n])), FromOp(ops[n]));
      hide Step, AddEntry, Valid, Run, FromOps, FromEntry;
    }
  }

  /** Different names stay apart: escaping is injective. */
  lemma {:induction false} SameRecs(v: Version, log: seq<WriteEntry>, c: Channel)
    ensures Recs(v, FromLog(log), Key(v, FromChannel(c))) == Recs(v, log, Key(v, c))
  {
    if log != [] {
      var n := |log| - 1;
      SameRecs(v, log[..n], c);
      assert FromLog(log)[..n] == FromLog(log[..n]);
      if EscapeTopic(log[n].channel.name) == EscapeTopic(c.name) {
        EscapeInjective(TopicName, log[n].channel.name, c.name);
      }
    }
  }

  lemma StepVersion(t: Trace, op: Op)
    requires Valid(t.w)
    ensures Step(t, op).w.version == t.w.version
  {
    hide FilePath, NewFile, Finish, Emptied, Fits, Valid, AddRow, Repeated;
  }

  lemma {:induction false} RunVersion(version: Version, dir: Str, base: Str, limit: nat, ops: seq<Op>)
    ensures Run(version, dir, base, limit, ops).w.version == version
  {
    if ops != [] {
      RunVersion(version, dir, base, limit, ops[..|ops| - 1]);
      StepVersion(Run(version, dir, base, limit, ops[..|ops| - 1]), ops[|ops| - 1]);
      hide Step;
    }
  }

  /** The same names are numbers of payloads before and after escaping. */
  lemma SameTaken(name: Str, base: nat, count: nat)
    ensures Taken(EscapeTopic(name), base, count) <==> Taken(name, base, count)
  {
    hide EscapeTopic, Decimal;
    forall k: nat ensures EscapeTopic(name) == Decimal(k) <==> name == Decimal(k) {
      EscapedNumeral(name, k);
    }
  }

  lemma SameHidden(v: Version, log: seq<WriteEntry>, cuts: seq<nat>, c: Channel)
    requires Cutting(log, cuts)
    ensures Cutting(FromLog(log), cuts)
    ensures NothingHidden(v, FromLog(log), cuts, Key(v, FromChannel(c))) <==> NothingHidden(v, log, cuts, Key(v, c))
  {
    hide Taken, Recs;
    forall k | 0 <= k < |cuts|
      ensures NoneHidden(v, Segment(FromLog(log), cuts, k), cuts[k], Key(v, FromChannel(c)))
         <==> NoneHidden(v, Segment(log, cuts, k), cuts[k], Key(v, c))
    {
      assert Segment(FromLog(log), cuts, k) == FromLog(Segment(log, cuts, k));
      SameRecs(v, Segment(log, cuts, k), c);
      SameTaken(c.name, cuts[k], |Segment(log, cuts, k)|);
    }
    hide NoneHidden, Segment;
  }

  lemma OpsAreStorable(ops: seq<Op>)
    requires forall op | op in ops :: Nameable(op)
    ensures forall op | op in FromOps(ops) :: StorableOp(op)
  {
    hide StorableOp, Nameable;
    forall op | op in FromOps(ops) ensures StorableOp(op) {
      var i :| 0 <= i < |ops| && op == FromOp(ops[i]);
      assert Nameable(ops[i]);
      NameableIffStorable(ops[i]);
    }
  }

  lemma RunIsCut(version: Version, dir: Str, base: Str, limit: nat, ops: seq<Op>)
    requires forall op | op in ops :: Nameable(op)
    ensures Cutting(Accepted(version, dir, base, limit, ops), Run(version, dir, base, limit, FromOps(ops)).cuts)
    ensures Run(version, dir, base, limit, FromOps(ops)).log == FromLog(Accepted(version, dir, base, limit, ops))
  {
    OpsAreStorable(ops);
    RunIsFiled(version, dir, base, limit, FromOps(ops));
    LogIsAccepted(version, dir, base, limit, ops);
    hide Run, Accepted, AllArchived, Partial, Tabulated, Paths, FilePath;
  }

  /** What callers recorded is what readers get, for every channel, if and only if the
      accepted entries of that channel have distinct receive timestamps and none of them is
      in a file with a payload whose number is the channel's name. */
  lemma RecordingIsLosslessIff(version: Version, dir: Str, base: Str, limit: nat, ops: seq<Op>, order: seq<nat>,
                               origins: seq<Origin>, byId: map<int, Ref>, byChn: map<Channel, EntrySet>, c: Channel)
    requires forall op | op in ops :: Nameable(op)
    requires !Run(version, dir, base, limit, FromOps(ops)).w.open
    requires Orders(order, |Run(version, dir, base, limit, FromOps(ops)).cuts|)
    ensures AllOnDisk(Run(version, dir, base, limit, FromOps(ops)).w, order)
    ensures Cutting(Accepted(version, dir, base, limit, ops), Run(version, dir, base, limit, FromOps(ops)).cuts)
    ensures (var t := Run(version, dir, base, limit, FromOps(ops));
             var files := FilesIn(t.w, order);
             var accepted := Accepted(version, dir, base, limit, ops);
             var recorded := Recs(version, accepted, Key(version, c));
             Indexed(files, origins, byId, byChn) && Complete(files, origins) ==>
               (multiset(Range(ReadBack(files, byId, byChn, Key(version, FromChannel(c))))) == multiset(recorded)
                <==> DistinctTimes(recorded) && NothingHidden(version, accepted, t.cuts, Key(version, c))))
  {
    hide StorableOp, Nameable, Run, Indexed, Complete, Orders, DistinctTimes, Recs, ReadBack, FilePath, Accepted, NothingHidden;
    OpsAreStorable(ops);
    RunVersion(version, dir, base, limit, FromOps(ops));
    LosslessIff(version, dir, base, limit, FromOps(ops), order, origins, byId, byChn, Key(version, FromChannel(c)));
    RunIsCut(version, dir, base, limit, ops);
    SameRecs(version, Accepted(version, dir, base, limit, ops), c);
    SameHidden(version, Accepted(version, dir, base, limit, ops), Run(version, dir, base, limit, FromOps(ops)).cuts, c);
  }

  lemma {:induction false} SameFirsts(v: Version, log: seq<WriteEntry>, c: Channel)
    ensures Firsts(v, FromLog(log), Key(v, FromChannel(c))) == Firsts(v, log, Key(v, c))
  {
    if log != [] {
      var n := |log| - 1;
      SameFirsts(v, log[..n], c);
      assert FromLog(log)[..n] == FromLog(log[..n]);
      if EscapeTopic(log[n].channel.name) == EscapeTopic(c.name) {
        EscapeInjective(TopicName, log[n].channel.name, c.name);
      }
    }
  }

  /** With distinct timestamps, what is read of a channel is its accepted records by timestamp,
      in whatever order the files are listed, exactly if none is hidden. */
  lemma ReadsFirstsIff(version: Version, dir: Str, base: Str, limit: nat, ops: seq<Op>, order: seq<nat>,
                       origins: seq<Origin>, byId: map<int, Ref>, byChn: map<Channel, EntrySet>, c: Channel)
    requires forall op | op in ops :: Nameable(op)
    requires !Run(version, dir, base, limit, FromOps(ops)).w.open
    requires Orders(order, |Run(version, dir, base, limit, FromOps(ops)).cuts|)
    requires DistinctTimes(Recs(version, Accepted(version, dir, base, limit, ops), Key(version, c)))
    ensures AllOnDisk(Run(version, dir, base, limit, FromOps(ops)).w, order)
    ensures Cutting(Accepted(version, dir, base, limit, ops), Run(version, dir, base, limit, FromOps(ops)).cuts)
    ensures (var t := Run(version, dir, base, limit, FromOps(ops));
             var accepted := Accepted(version, dir, base, limit, ops);
             var files := FilesIn(t.w, order);
             Indexed(files, origins, byId, byChn) && Complete(files, origins) ==>
               (ReadBack(files, byId, byChn, Key(version, FromChannel(c))) == Firsts(version, accepted, Key(version, c))
                <==> NothingHidden(version, accepted, t.cuts, Key(version, c))))
  {
    hide Run, Indexed, Complete, Orders, DistinctTimes, Recs, Firsts, ReadBack, FilePath, Accepted,
         StorableOp, NothingHidden, ShownLog, AllArchived, Partial, Tabulated, Paths, AllOnDisk, FilesIn;
    var key := Key(version, FromChannel(c));
    var t := Run(version, dir, base, limit, FromOps(ops));
    var accepted := Accepted(version, dir, base, limit, ops);
    OpsAreStorable(ops);
    RunIsFiled(version, dir, base, limit, FromOps(ops));
    RunIsCut(version, dir, base, limit, ops);
    RunVersion(version, dir, base, limit, FromOps(ops));
    SameRecs(version, accepted, c);
    SameHidden(version, accepted, t.cuts, c);
    SameFirsts(version, accepted, c);
    DistinctReadBack(t, order, origins, byId, byChn, key);
    ShownFirstsIff(version, t.log, t.cuts, key);
  }

  /** A channel is hidden only if its name is a decimal number below the number of entries
      recorded. */
  lemma SmallNumeralsOnly(version: Version, log: seq<WriteEntry>, cuts: seq<nat>, c: Channel)
    requires Cutting(log, cuts)
    requires forall k: nat | k < |log| :: c.name != Decimal(k)
    ensures NothingHidden(version, log, cuts, c)
  {
    hide Recs, Decimal;
    forall k | 0 <= k < |cuts| ensures NoneHidden(version, Segment(log, cuts, k), cuts[k], c) {
      assert cuts[k] + |Segment(log, cuts, k)| <= |log|;
    }
  }

  // ---------- A loss ----------

  const TWICE: seq<Op> := [
    Add(WriteEntry(Channel("speed", 1), "first", 0, 7, 0, 0), Answers(Opened, 0, Opened)),
    Add(WriteEntry(Channel("speed", 1), "second", 1, 7, 0, 1), Answers(Opened, 5, Opened)),
    Close
  ]

  lemma FittingIsAccepted(w: Writer, e: WriteEntry, a: Answers)
    requires Valid(w) && (w.open || (w.dir != [] && w.base != [] && a.first.Opened?))
    requires a.fileSize + |e.data| <= w.limit < 1000000
    ensures AddEntry(w, e, a).1 && AddEntry(w, e, a).0.open
    ensures AddEntry(w, e, a).0.limit == w.limit
  {
    hide FilePath, NewFile, Finish, Emptied, AddRow;
  }

  lemma RunMore(version: Version, ops: seq<Op>, op: Op)
    ensures Run(version, "out", "meas", 1000, FromOps(ops + [op]))
         == Step(Run(version, "out", "meas", 1000, FromOps(ops)), FromOp(op))
  {
    assert (ops + [op])[..|ops|] == ops;
    hide Step, Run, FromOps;
    RunLast(version, "out", "meas", 1000, ops + [op]);
  }

  lemma AcceptedMore(version: Version, ops: seq<Op>, e: WriteEntry, a: Answers)
    requires AddEntry(Run(version, "out", "meas", 1000, FromOps(ops)).w, FromEntry(e), a).1
    ensures Accepted(version, "out", "meas", 1000, ops + [Add(e, a)]) == Accepted(version, "out", "meas", 1000, ops) + [e]
  {
    assert (ops + [Add(e, a)])[..|ops|] == ops;
    hide AddEntry, Run;
  }

  lemma StepAdds(t: Trace, e: WriteEntry, a: Answers)
    requires Valid(t.w)
    ensures Step(t, Add(e, a)).w == AddEntry(t.w, e, a).0
  {
    hide AddEntry, Repeated, Valid;
  }

  /** In the runs below, the next entry that fits is accepted. */
  lemma NextAccepted(version: Version, ops: seq<Op>, e: WriteEntry, a: Answers)
    requires a.fileSize + |e.data| <= 1000 && a.first.Opened?
    requires (var w := Run(version, "out", "meas", 1000, FromOps(ops)).w; w.limit == 1000 && (w.open || ops == []))
    ensures (var w := Run(version, "out", "meas", 1000, FromOps(ops + [Add(e, a)])).w; w.limit == 1000 && w.open)
    ensures Accepted(version, "out", "meas", 1000, ops + [Add(e, a)]) == Accepted(version, "out", "meas", 1000, ops) + [e]
  {
    var t := Run(version, "out", "meas", 1000, FromOps(ops));
    assert ops == [] ==> t.w.dir == "out" && t.w.base == "meas";
    assert t.w.open || ops == [];
    RunMore(version, ops, Add(e, a));
    StepAdds(t, FromEntry(e), a);
    FittingIsAccepted(t.w, FromEntry(e), a);
    AcceptedMore(version, ops, e, a);
    hide AddEntry, Run, Step, Accepted, FromOps;
  }

  lemma ThenClosed(version: Version, ops: seq<Op>)
    ensures !Run(version, "out", "meas", 1000, FromOps(ops + [Close])).w.open
    ensures Accepted(version, "out", "meas", 1000, ops + [Close]) == Accepted(version, "out", "meas", 1000, ops)
  {
    var more := ops + [Close];
    assert more[..|ops|] == ops && FromOps(more)[..|ops|] == FromOps(ops);
  }

  lemma FirstIsAccepted(version: Version, op: Op)
    requires op.Add? && op.answers.first.Opened? && op.answers.fileSize + |op.entry.data| <= 1000
    ensures (var w := Run(version, "out", "meas", 1000, FromOps([op])).w; w.limit == 1000 && w.open)
    ensures Accepted(version, "out", "meas", 1000, [op]) == [op.entry]
  {
    assert FromOps([]) == [];
    assert Run(version, "out", "meas", 1000, FromOps([])).w.limit == 1000;
    assert Accepted(version, "out", "meas", 1000, []) == [];
    hide Run, Accepted, FromOps;
    NextAccepted(version, [], op.entry, op.answers);
    assert [] + [op] == [op];
  }

  lemma OneIsAccepted(version: Version, op: Op)
    requires op.Add? && op.answers.first.Opened? && op.answers.fileSize + |op.entry.data| <= 1000
    ensures !Run(version, "out", "meas", 1000, FromOps([op, Close])).w.open
    ensures Accepted(version, "out", "meas", 1000, [op, Close]) == [op.entry]
  {
    hide Run, Accepted, FromOps;
    FirstIsAccepted(version, op);
    ThenClosed(version, [op]);
    assert [op] + [Close] == [op, Close];
  }

  lemma TwoAreAccepted(version: Version, first: Op, second: Op)
    requires first.Add? && first.answers.first.Opened? && first.answers.fileSize + |first.entry.data| <= 1000
    requires second.Add? && second.answers.first.Opened? && second.answers.fileSize + |second.entry.data| <= 1000
    ensures !Run(version, "out", "meas", 1000, FromOps([first, second, Close])).w.open
    ensures Accepted(version, "out", "meas", 1000, [first, second, Close]) == [first.entry, second.entry]
  {
    hide Run, Accepted, FromOps;
    FirstIsAccepted(version, first);
    NextAccepted(version, [first], second.entry, second.answers);
    ThenClosed(version, [first] + [second]);
    assert [first] + [second] + [Close] == [first, second, Close];
  }

  lemma TwiceIsAccepted(version: Version)
    ensures !Run(version, "out", "meas", 1000, FromOps(TWICE)).w.open
    ensures Accepted(version, "out", "meas", 1000, TWICE) == [TWICE[0].entry, TWICE[1].entry]
  {
    hide Run, Accepted, FromOps;
    TwoAreAccepted(version, TWICE[0], TWICE[1]);
    assert TWICE == [TWICE[0], TWICE[1], Close];
  }

  lemma TwiceIsNotDistinct(version: Version)
    ensures (var both := Recs(version, Accepted(version, "out", "meas", 1000, TWICE), Key(version, Channel("speed", 1)));
             both == [RecordOf(TWICE[0].entry), RecordOf(TWICE[1].entry)] && !DistinctTimes(both))
  {
    TwiceIsAccepted(version);
    hide Accepted;
    var log, c := [TWICE[0].entry, TWICE[1].entry], Key(version, Channel("speed", 1));
    assert log[..1] == [TWICE[0].entry] && log[..1][..0] == [];
    assert Recs(version, log[..1], c) == [RecordOf(TWICE[0].entry)];
    var both := Recs(version, log, c);
    assert both[0].rcv == both[1].rcv;
  }

  lemma SpeedIsNameable(op: Op)
    requires op in TWICE
    ensures Nameable(op)
  {
  }

  /** Two messages of one channel received at the same time: both calls succeed, and no
      reader gets both messages back. */
  lemma SameTimeIsLost(version: Version, order: seq<nat>, origins: seq<Origin>, byId: map<int, Ref>, byChn: map<Channel, EntrySet>)
    requires Orders(order, |Run(version, "out", "meas", 1000, FromOps(TWICE)).cuts|)
    ensures AllOnDisk(Run(version, "out", "meas", 1000, FromOps(TWICE)).w, order)
    ensures (var files := FilesIn(Run(version, "out", "meas", 1000, FromOps(TWICE)).w, order);
             Indexed(files, origins, byId, byChn) && Complete(files, origins) ==>
               multiset(Range(ReadBack(files, byId, byChn, Key(version, FromChannel(Channel("speed", 1))))))
               != multiset{RecordOf(TWICE[0].entry), RecordOf(TWICE[1].entry)})
  {
    hide Run, Accepted, Nameable, Recs, DistinctTimes, ReadBack, Indexed, Complete, Orders, AllOnDisk, FilePath;
    forall op | op in TWICE ensures Nameable(op) {
      SpeedIsNameable(op);
    }
    TwiceIsAccepted(version);
    TwiceIsNotDistinct(version);
    RecordingIsLosslessIff(version, "out", "meas", 1000, TWICE, order, origins, byId, byChn, Channel("speed", 1));
  }

  // ---------- Names that are lost ----------

  lemma EntryInFile(log: seq<WriteEntry>, cuts: seq<nat>, i: nat, n: nat) returns (k: nat)
    requires Cutting(log, cuts) && i < |log| && 0 < n <= |cuts| && cuts[0] == 0
    requires n < |cuts| ==> i < cuts[n]
    ensures k < |cuts| && cuts[k] <= i < cuts[k] + |Segment(log, cuts, k)|
    decreases n
  {
    if cuts[n - 1] <= i {
      k := n - 1;
    } else {
      k := EntryInFile(log, cuts, i, n - 1);
    }
  }

  lemma {:induction false} RecsHaveEntry(v: Version, log: seq<WriteEntry>, c: Channel, i: nat)
    requires i < |log| && Key(v, log[i].channel) == c
    ensures Recs(v, log, c) != []
  {
    var n := |log| - 1;
    if i < n {
      RecsHaveEntry(v, log[..n], c, i);
    }
  }

  /** An entry whose channel is named by the entry's own number is hidden. */
  lemma OwnNumberIsHidden(v: Version, log: seq<WriteEntry>, cuts: seq<nat>, c: Channel, i: nat)
    requires Cutting(log, cuts) && cuts != [] && cuts[0] == 0
    requires i < |log| && Key(v, log[i].channel) == c && c.name == Decimal(i)
    ensures !NothingHidden(v, log, cuts, c)
  {
    hide Recs, Decimal;
    var k := EntryInFile(log, cuts, i, |cuts|);
    var seg := Segment(log, cuts, k);
    assert seg[i - cuts[k]] == log[i];
    RecsHaveEntry(v, seg, c, i - cuts[k]);
    assert Taken(c.name, cuts[k], |seg|);
    assert !NoneHidden(v, seg, cuts[k], c);
  }

  lemma RunStartsAtZero(version: Version, dir: Str, base: Str, limit: nat, ops: seq<Op>)
    requires forall op | op in ops :: Nameable(op)
    ensures (var cuts := Run(version, dir, base, limit, FromOps(ops)).cuts;
             if cuts == [] then Accepted(version, dir, base, limit, ops) == [] else cuts[0] == 0)
  {
    OpsAreStorable(ops);
    RunIsFiled(version, dir, base, limit, FromOps(ops));
    LogIsAccepted(version, dir, base, limit, ops);
    hide Run, Accepted, AllArchived, Partial, Tabulated, Paths, FilePath;
  }

  /** In every run, if entry `i` is accepted for a channel that is named `i`, the channel is
      not read back in full: closing the file cannot write the channel's table, as a payload
      has its name. */
  lemma OwnNumberIsLost(version: Version, dir: Str, base: Str, limit: nat, ops: seq<Op>, order: seq<nat>,
                        origins: seq<Origin>, byId: map<int, Ref>, byChn: map<Channel, EntrySet>, c: Channel, i: nat)
    requires forall op | op in ops :: Nameable(op)
    requires !Run(version, dir, base, limit, FromOps(ops)).w.open
    requires Orders(order, |Run(version, dir, base, limit, FromOps(ops)).cuts|)
    requires i < |Accepted(version, dir, base, limit, ops)| && c.name == Decimal(i)
    requires Key(version, Accepted(version, dir, base, limit, ops)[i].channel) == Key(version, c)
    ensures AllOnDisk(Run(version, dir, base, limit, FromOps(ops)).w, order)
    ensures (var files := FilesIn(Run(version, dir, base, limit, FromOps(ops)).w, order);
             Indexed(files, origins, byId, byChn) && Complete(files, origins) ==>
               multiset(Range(ReadBack(files, byId, byChn, Key(version, FromChannel(c)))))
               != multiset(Recs(version, Accepted(version, dir, base, limit, ops), Key(version, c))))
  {
    hide Nameable, Run, Indexed, Complete, Orders, DistinctTimes, Recs, ReadBack, FilePath, Accepted, NothingHidden, AllOnDisk, Decimal;
    RecordingIsLosslessIff(version, dir, base, limit, ops, order, origins, byId, byChn, c);
    RunStartsAtZero(version, dir, base, limit, ops);
    OwnNumberIsHidden(version, Accepted(version, dir, base, limit, ops), Run(version, dir, base, limit, FromOps(ops)).cuts, Key(version, c), i);
  }

  const ZERO: Op := Add(WriteEntry(Channel("0", 1), "first", 0, 7, 0, 0), Answers(Opened, 0, Opened))

  lemma ZeroIsOne(version: Version)
    ensures Recs(version, [ZERO.entry], Key(version, Channel("0", 1))) == [RecordOf(ZERO.entry)]
    ensures forall op | op in [ZERO, Close] :: Nameable(op)
  {
    assert [ZERO.entry][..0] == [];
  }

  /** An entry of a channel named `0`, alone in its recording, is accepted and not read
      back. */
  lemma ZeroIsLost(version: Version, order: seq<nat>, origins: seq<Origin>, byId: map<int, Ref>, byChn: map<Channel, EntrySet>)
    requires Orders(order, |Run(version, "out", "meas", 1000, FromOps([ZERO, Close])).cuts|)
    ensures Accepted(version, "out", "meas", 1000, [ZERO, Close]) == [ZERO.entry]
    ensures AllOnDisk(Run(version, "out", "meas", 1000, FromOps([ZERO, Close])).w, order)
    ensures (var files := FilesIn(Run(version, "out", "meas", 1000, FromOps([ZERO, Close])).w, order);
             Indexed(files, origins, byId, byChn) && Complete(files, origins) ==>
               multiset(Range(ReadBack(files, byId, byChn, Key(version, FromChannel(Channel("0", 1))))))
               != multiset{RecordOf(ZERO.entry)})
  {
    OneIsAccepted(version, ZERO);
    var c := Channel("0", 1);
    ZeroIsOne(version);
    assert Decimal(0) == "0";
    hide Nameable, Run, Accepted, Recs, ReadBack, Indexed, Complete, Orders, AllOnDisk, FilePath;
    OwnNumberIsLost(version, "out", "meas", 1000, [ZERO, Close], order, origins, byId, byChn, c, 0);
  }

  // ---------- The empty name ----------

  lemma UnescapeKeepsSome(s: Str)
    ensures Unescape(s) == [] <==> s == []
  {
  }

  lemma {:induction false} SplitHasNoEmpty(s: Str, d: Byte)
    ensures [] !in Split(s, d)
    decreases |s|
  {
    if s != [] && s[0] == d {
      SplitHasNoEmpty(s[1..], d);
    } else if s != [] {
      SplitHasNoEmpty(s[FieldLength(s, d)..], d);
    }
  }

  lemma EmptyIsNotListed(f: File, id: Id)
    ensures Channel([], id) !in FileChannels(f)
  {
    hide Unescape, EscapeWith, Split, IsGroup, Links, ParseHex;
    SplitHasNoEmpty(GetAttribute(f.attributes, CHANNELS), ',');
    forall n | n in ListedNames(f) ensures EscapeTopic(Unescape(n)) != [] {
      UnescapeKeepsSome(n);
      EscapeFixes(TopicName, Unescape(n));
    }
  }

  lemma {:induction false} NothingMerged(files: Files, c: Channel)
    requires c.name == []
    ensures Merged(files, c) == map[]
  {
    hide FileChannels;
    if files != [] {
      EmptyIsNotListed(files[0], c.id);
      NothingMerged(files[1..], c);
    }
  }

  /** Whatever the files, nothing is ever read back for the empty channel name. */
  lemma EmptyNameIsNeverRead(files: Files, origins: seq<Origin>, byId: map<int, Ref>, byChn: map<Channel, EntrySet>, id: Id)
    requires Indexed(files, origins, byId, byChn) && Complete(files, origins)
    ensures ReadBack(files, byId, byChn, FromChannel(Channel([], id))) == map[]
  {
    var c := FromChannel(Channel([], id));
    assert c == Channel([], id);
    hide Indexed, Complete, ReadBack, Merged;
    ReadBackIsMerged(files, origins, byId, byChn, c);
    NothingMerged(files, c);
  }

  const UNNAMED: Op := Add(WriteEntry(Channel("", 1), "first", 0, 7, 0, 0), Answers(Opened, 0, Opened))

  /** Yet an entry for it is accepted. */
  lemma EmptyNameIsAccepted(version: Version)
    ensures Accepted(version, "out", "meas", 1000, [UNNAMED, Close]) == [UNNAMED.entry]
  {
    OneIsAccepted(version, UNNAMED);
  }
}
