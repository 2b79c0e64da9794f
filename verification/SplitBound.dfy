/** How large the files of a run get, and how their entries are numbered
    (contrib/ecalhdf5/src/eh5_meas_file_writer_v5.cpp:203-245, 329-336). */
module SplitBound {
  import opened Strings
  import opened Entries
  import opened Layout
  import opened Recording

  function Size(seg: seq<WriteEntry>): nat {
    if seg == [] then 0 else Size(seg[..|seg| - 1]) + |seg[|seg| - 1].data|
  }

  /** The size HDF5 reports covers the payloads in the open file, and adding the new entry
      to it stays within 64 bits. */
  ghost predicate Reported(t: Trace, op: Op) {
    op.Add? && Counted(t) ==>
      Size(CurrentSegment(t)) <= op.answers.fileSize && op.answers.fileSize + |op.entry.data| < TWO64
  }

  ghost predicate AlwaysReported(version: Version, dir: Str, base: Str, limit: nat, ops: seq<Op>) {
    forall n | 0 <= n < |ops| :: Reported(Run(version, dir, base, limit, ops[..n]), ops[n])
  }

  ghost predicate BoundedFile(t: Trace, k: nat)
    requires Cutting(t.log, t.cuts) && k < |t.cuts|
  {
    var seg := Segment(t.log, t.cuts, k);
    |seg| >= 2 ==> Size(seg) <= t.w.limit
  }

  ghost predicate Bounded(t: Trace) {
    Counted(t) && forall k | 0 <= k < |t.cuts| :: BoundedFile(t, k)
  }

  lemma CloseKeepsBound(t: Trace)
    requires Bounded(t)
    ensures Bounded(t.(w := CloseFile(t.w)))
  {
    hide FilePath, Finish, Segment;
    var r := t.(w := CloseFile(t.w));
    forall k | 0 <= k < |r.cuts| ensures BoundedFile(r, k) {
      assert BoundedFile(t, k);
    }
  }

  lemma CreateCounts(t: Trace, made: Outcome)
    requires Counted(t)
    ensures Counted(Created(t, made))
    ensures Created(t, made).w.limit == t.w.limit && Created(t, made).log == t.log
    ensures Created(t, made).cuts == t.cuts || Created(t, made).cuts == t.cuts + [|t.log|]
    ensures CreateFile(t.w, made).1 ==> Created(t, made).cuts == t.cuts + [|t.log|] && Created(t, made).w.open
    ensures !CreateFile(t.w, made).1 && !t.w.open ==> !Created(t, made).w.open
  {
    hide FilePath, Finish, NewFile, Emptied;
  }

  lemma CreateKeepsBound(t: Trace, made: Outcome)
    requires Bounded(t)
    ensures Bounded(Created(t, made))
  {
    CreateCounts(t, made);
    hide Created;
    var r := Created(t, made);
    forall k | 0 <= k < |r.cuts| ensures BoundedFile(r, k) {
      if k < |t.cuts| {
        assert BoundedFile(t, k);
        assert Segment(r.log, r.cuts, k) == Segment(t.log, t.cuts, k);
      }
    }
  }

  lemma AppendKeepsBound(t: Trace, e: WriteEntry)
    requires Bounded(t) && t.w.open
    requires CurrentSegment(t) == [] || Size(CurrentSegment(t)) + |e.data| <= t.w.limit
    ensures Bounded(Trace(Append(t.w, e), t.log + [e], t.cuts))
  {
    AppendCounts(t, e);
    assert Append(t.w, e).limit == t.w.limit;
    hide Append;
    var r := Trace(Append(t.w, e), t.log + [e], t.cuts);
    forall k | 0 <= k < |r.cuts| ensures BoundedFile(r, k) {
      if k < |t.cuts| - 1 {
        assert BoundedFile(t, k);
        assert Segment(r.log, r.cuts, k) == Segment(t.log, t.cuts, k);
      } else {
        var seg := CurrentSegment(t);
        assert Segment(r.log, r.cuts, k) == seg + [e];
        assert (seg + [e])[..|seg|] == seg;
      }
    }
  }

  lemma FitsWithin(t: Trace, op: Op)
    requires Counted(t) && op.Add? && Reported(t, op) && Fits(t.w, op.answers.fileSize, op.entry.data)
    ensures Size(CurrentSegment(t)) + |op.entry.data| <= t.w.limit
  {
  }

  lemma ReportedAfterCreate(t: Trace, op: Op)
    requires Counted(t) && op.Add? && Reported(t, op) && !t.w.open
    ensures CurrentSegment(Created(t, op.answers.first)) == []
    ensures Reported(Created(t, op.answers.first), op)
  {
    CreateCounts(t, op.answers.first);
    hide FilePath, Finish, NewFile, Emptied;
  }

  lemma RolloverKeepsBound(t: Trace, op: Op)
    requires Bounded(t) && op.Add? && CreateFile(t.w, op.answers.next).1
    ensures Valid(Created(t, op.answers.next).w) && Created(t, op.answers.next).w.open
    ensures (var r := Created(t, op.answers.next);
             Bounded(Trace(Append(r.w, op.entry), r.log + [op.entry], r.cuts)))
  {
    hide FilePath, Finish, NewFile, Emptied, Append, BoundedFile;
    CreateKeepsBound(t, op.answers.next);
    CreateCounts(t, op.answers.next);
    NextSegmentEmpty(t.log, t.cuts);
    AppendKeepsBound(Created(t, op.answers.next), op.entry);
  }

  lemma AddToOpenKeepsBound(t: Trace, op: Op)
    requires Bounded(t) && op.Add? && Reported(t, op) && t.w.open
    ensures Bounded(AddTrace(t, op.entry, op.answers))
  {
    if Fits(t.w, op.answers.fileSize, op.entry.data) {
      FitsWithin(t, op);
      AppendKeepsBound(t, op.entry);
    } else if CreateFile(t.w, op.answers.next).1 {
      RolloverKeepsBound(t, op);
    } else {
      CreateKeepsBound(t, op.answers.next);
    }
    hide BoundedFile, Append, Created, CreateFile, Fits;
  }

  lemma AddKeepsBound(t: Trace, op: Op)
    requires Bounded(t) && op.Add? && Reported(t, op)
    ensures Bounded(AddTrace(t, op.entry, op.answers))
  {
    if t.w.open {
      AddToOpenKeepsBound(t, op);
    } else {
      CreateKeepsBound(t, op.answers.first);
      ReportedAfterCreate(t, op);
      var t1 := Created(t, op.answers.first);
      if t1.w.open {
        AddToOpenKeepsBound(t1, op);
        assert AddTrace(t, op.entry, op.answers) == AddTrace(t1, op.entry, op.answers);
      }
    }
    hide Bounded, Append, Created, CreateFile, Fits, Reported;
  }

  lemma StepKeepsBound(t: Trace, op: Op)
    requires Bounded(t) && Reported(t, op)
    ensures Bounded(Step(t, op)) && Step(t, op).w.limit == t.w.limit
  {
    match op
    case Describe(c, info) =>
      var r := Step(t, op);
      forall k | 0 <= k < |r.cuts| ensures BoundedFile(r, k) {
        assert BoundedFile(t, k);
      }
    case Close => CloseKeepsBound(t);
    case Add(e, a) =>
      AddTraceIsStep(t, e, a);
      AddKeepsBound(t, op);
      hide FilePath, Finish, NewFile, Emptied, AddRow;
  }

  /** Over any run, a file that holds two or more entries holds at most `limit` bytes of
      payload; only a file with a single entry may exceed it. */
  lemma {:induction false} FilesAreBounded(version: Version, dir: Str, base: Str, limit: nat, ops: seq<Op>)
    requires AlwaysReported(version, dir, base, limit, ops)
    ensures Bounded(Run(version, dir, base, limit, ops))
    ensures Run(version, dir, base, limit, ops).w.limit == limit
  {
    if ops != [] {
      var n := |ops| - 1;
      forall m | 0 <= m < n ensures Reported(Run(version, dir, base, limit, ops[..n][..m]), ops[..n][m]) {
        assert ops[..n][..m] == ops[..m];
      }
      FilesAreBounded(version, dir, base, limit, ops[..n]);
      var t := Run(version, dir, base, limit, ops[..n]);
      assert Reported(t, ops[n]);
      StepKeepsBound(t, ops[n]);
    }
  }

  // ---------- Numbering ----------

  lemma {:induction false} RowIds(v: Version, seg: seq<WriteEntry>, base: nat, c: Channel)
    ensures forall r | r in RowsFor(v, seg, base, c) :: base <= r.id < base + |seg|
    ensures forall i, j | 0 <= i < j < |RowsFor(v, seg, base, c)| ::
              RowsFor(v, seg, base, c)[i].id < RowsFor(v, seg, base, c)[j].id
  {
    if seg != [] {
      RowIds(v, seg[..|seg| - 1], base, c);
    }
  }

  /** In-file ids increase strictly along a channel's table and from file to file. */
  lemma IdsIncrease(t: Trace, j: nat, k: nat, c: Channel, d: Channel, r: EntryInfo, s: EntryInfo)
    requires Counted(t) && j < k < |t.cuts|
    requires r in RowsFor(t.w.version, Segment(t.log, t.cuts, j), t.cuts[j], c)
    requires s in RowsFor(t.w.version, Segment(t.log, t.cuts, k), t.cuts[k], d)
    ensures r.id < s.id
  {
    RowIds(t.w.version, Segment(t.log, t.cuts, j), t.cuts[j], c);
    RowIds(t.w.version, Segment(t.log, t.cuts, k), t.cuts[k], d);
  }
}
