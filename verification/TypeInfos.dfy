/** The type information an opened directory reports: that of the last file listed
    (contrib/ecalhdf5/src/eh5_meas_dir.cpp:454-462). */
module TypeInfos {
  import opened Strings
  import opened Escape
  import opened Hdf5
  import opened Entries
  import opened Layout
  import opened Recording
  import opened MeasDir
  import opened Lossless
  import Api
  import FileOrder

  // ---------- Files in any order ----------

  /** In this order of the files the channel is reported with this information, or not at
      all. */
  ghost predicate Reports(files: Files, c: Channel, info: Info, order: seq<nat>)
    requires Orders(order, |files|)
  {
    OrdersBelow(order, |files|);
    var infos := LastInfos(Pick(files, order));
    c in infos ==> infos[c] == info
  }

  ghost predicate AllHave(files: Files, c: Channel, info: Info) {
    forall k | 0 <= k < |files| && c in FileChannels(files[k]) :: FileInfo(files[k], c) == info
  }

  lemma {:induction false} ReportedIsHad(files: Files, c: Channel, info: Info)
    requires AllHave(files, c, info)
    ensures c in LastInfos(files) ==> LastInfos(files)[c] == info
  {
    hide FileChannels, FileInfo;
    if files != [] {
      var n := |files| - 1;
      forall k | 0 <= k < n && c in FileChannels(files[..n][k]) ensures FileInfo(files[..n][k], c) == info {
        assert files[..n][k] == files[k];
      }
      ReportedIsHad(files[..n], c, info);
    }
  }

  function ToBack(n: nat, k: nat): seq<nat>
    requires k < n
  {
    Without(Upto(n), k) + [k]
  }

  lemma ToBackOrders(n: nat, k: nat)
    requires k < n
    ensures Orders(ToBack(n, k), n)
  {
    WithoutBag(Upto(n), k);
  }

  lemma BackFileWins(files: Files, c: Channel, k: nat)
    requires k < |files| && c in FileChannels(files[k]) && Orders(ToBack(|files|, k), |files|)
    ensures InRange(ToBack(|files|, k), |files|)
    ensures (var infos := LastInfos(Pick(files, ToBack(|files|, k))); c in infos && infos[c] == FileInfo(files[k], c))
  {
    var order := ToBack(|files|, k);
    OrdersBelow(order, |files|);
    var picked := Pick(files, order);
    assert picked[|picked| - 1] == files[k];
    hide FileChannels, FileInfo;
  }

  /** The directory reports a channel with certain information in every order of the files
      exactly if every file that lists the channel has it. */
  lemma ReportsIff(files: Files, c: Channel, info: Info)
    ensures (forall order | Orders(order, |files|) :: Reports(files, c, info, order)) <==> AllHave(files, c, info)
  {
    hide FileChannels, FileInfo, LastInfos, Orders, ToBack;
    if AllHave(files, c, info) {
      forall order | Orders(order, |files|) ensures Reports(files, c, info, order) {
        OrdersBelow(order, |files|);
        ReportedIsHad(Pick(files, order), c, info);
      }
    }
    if forall order | Orders(order, |files|) :: Reports(files, c, info, order) {
      forall k | 0 <= k < |files| && c in FileChannels(files[k]) ensures FileInfo(files[k], c) == info {
        ToBackOrders(|files|, k);
        assert Reports(files, c, info, ToBack(|files|, k));
        BackFileWins(files, c, k);
      }
    }
  }

  // ---------- What a writer was told ----------

  /** The information last set for a channel. */
  function Described(v: Version, ops: seq<Op>, c: Channel): Info {
    if ops == [] then Info([], [], [])
    else
      match ops[|ops| - 1]
      case Describe(d, info) => if Key(v, d) == c then info else Described(v, ops[..|ops| - 1], c)
      case _ => Described(v, ops[..|ops| - 1], c)
  }

  function Kept(v: Version, info: Info): Info { if v == V5 then KeptV5(info) else info }

  /** What a reader makes of the information in a file. */
  function ReadSlot(v: Version, info: Info): Info {
    if v == V5 then SplitType(LoadedAttribute(StoredAttribute(info.name)), LoadedAttribute(StoredAttribute(info.descriptor)))
    else info
  }

  /** What comes back of information that was set. */
  function Returned(v: Version, info: Info): Info { ReadSlot(v, Kept(v, info)) }

  /** What had happened before a file was closed: the operations, and the entries accepted. */
  datatype Past = Past(ops: seq<Op>, log: seq<WriteEntry>)

  /** What the writer's table says of a channel; a slot an entry opens has none. */
  function InfoIn(slots: Slots, c: Channel): Info { if c in slots then slots[c].info else Info([], [], []) }

  predicate WasDescribed(v: Version, ops: seq<Op>, c: Channel) {
    exists op | op in ops :: op.Describe? && Key(v, op.channel) == c
  }

  predicate WasAdded(v: Version, log: seq<WriteEntry>, c: Channel) {
    exists e | e in log :: Key(v, e.channel) == c
  }

  ghost predicate SlotTells(v: Version, slots: Slots, past: Past, c: Channel) {
    && InfoIn(slots, c) == Kept(v, Described(v, past.ops, c))
    && (c in slots <==> WasDescribed(v, past.ops, c) || WasAdded(v, past.log, c))
  }

  /** The writer's table has the channels mentioned, with what was last set, whatever files
      were closed meanwhile. */
  ghost predicate SlotsTell(v: Version, slots: Slots, past: Past) { forall c :: SlotTells(v, slots, past, c) }

  lemma SameDescribed(v: Version, ops: seq<Op>, op: Op, c: Channel)
    ensures Described(v, ops + [op], c) == if op.Describe? && Key(v, op.channel) == c then op.info else Described(v, ops, c)
    ensures WasDescribed(v, ops + [op], c) <==> WasDescribed(v, ops, c) || (op.Describe? && Key(v, op.channel) == c)
  {
    assert (ops + [op])[..|ops|] == ops;
    assert forall x :: x in ops + [op] <==> x in ops || x == op;
  }

  lemma AddedMore(v: Version, log: seq<WriteEntry>, e: WriteEntry, c: Channel)
    ensures WasAdded(v, log + [e], c) <==> WasAdded(v, log, c) || Key(v, e.channel) == c
  {
    assert forall x :: x in log + [e] <==> x in log || x == e;
  }

  lemma EmptiedTells(v: Version, slots: Slots, past: Past)
    requires SlotsTell(v, slots, past)
    ensures SlotsTell(v, Emptied(slots), past)
  {
    hide Described, Kept, WasDescribed, WasAdded;
    forall c ensures SlotTells(v, Emptied(slots), past, c) {
      assert SlotTells(v, slots, past, c);
    }
  }

  lemma AddedTells(v: Version, slots: Slots, past: Past, e: WriteEntry, row: EntryInfo)
    requires SlotsTell(v, slots, past)
    ensures SlotsTell(v, AddRow(slots, Key(v, e.channel), row), past.(log := past.log + [e]))
  {
    hide Described, Kept, WasDescribed, WasAdded, Key;
    forall c ensures SlotTells(v, AddRow(slots, Key(v, e.channel), row), past.(log := past.log + [e]), c) {
      assert SlotTells(v, slots, past, c);
      AddedMore(v, past.log, e, c);
    }
  }

  lemma OtherOpTells(v: Version, slots: Slots, past: Past, op: Op)
    requires SlotsTell(v, slots, past) && !op.Describe?
    ensures SlotsTell(v, slots, past.(ops := past.ops + [op]))
  {
    hide Described, InfoIn, Kept, WasDescribed, WasAdded;
    forall c ensures SlotTells(v, slots, past.(ops := past.ops + [op]), c) {
      assert SlotTells(v, slots, past, c);
      SameDescribed(v, past.ops, op, c);
    }
  }

  lemma DescribeTells(w: Writer, past: Past, op: Op)
    requires SlotsTell(w.version, w.slots, past) && op.Describe?
    ensures SlotsTell(w.version, SetInfo(w, op.channel, op.info).slots, past.(ops := past.ops + [op]))
  {
    hide Described, WasDescribed, WasAdded, Key;
    var slots := SetInfo(w, op.channel, op.info).slots;
    forall c ensures SlotTells(w.version, slots, past.(ops := past.ops + [op]), c) {
      assert SlotTells(w.version, w.slots, past, c);
      SameDescribed(w.version, past.ops, op, c);
    }
  }

  // ---------- One file ----------

  /** The channel is listed by a file whose entries are those of the past from `base` on: for
      V5 if it has one of them, for V6 if it had been mentioned at all; but not if its name is
      the number of one of them. */
  ghost predicate Mentions(v: Version, past: Past, base: nat, c: Channel) {
    && base <= |past.log| && !Taken(c.name, base, |past.log| - base)
    && (if v == V5 then WasAdded(v, past.log[base..], c)
        else WasDescribed(v, past.ops, c) || WasAdded(v, past.log, c))
  }

  ghost predicate TellsOf(v: Version, f: File, past: Past, base: nat, c: Channel) {
    && (c in ReadChannels(v, f) <==> Mentions(v, past, base, c))
    && (c in ReadChannels(v, f) ==> ReadInfo(v, f, c) == Returned(v, Described(v, past.ops, c)))
  }

  /** A reader lists the channels mentioned, each with what comes back of the information last
      set for it. */
  ghost predicate Tells(v: Version, f: File, past: Past, base: nat) { forall c :: TellsOf(v, f, past, base, c) }

  lemma ListedInfo(v: Version, f: File, slots: Slots, c: Channel)
    requires AllStorable(slots) && (v == V6 ==> Bare(f)) && (v == V5 ==> forall d | d in slots :: d.id == 0)
    ensures c in ReadChannels(v, Finish(v, f, slots)) <==> c in Free(f, slots) && (v == V5 ==> slots[c].entries != [])
    ensures c in ReadChannels(v, Finish(v, f, slots)) ==> ReadInfo(v, Finish(v, f, slots), c) == ReadSlot(v, slots[c].info)
  {
    hide Finish, ReadInfo, ListedNames, TableOf, Storable, Extends, ReadEntries, Bare;
    var h := Finish(v, f, slots);
    if v == V6 {
      hide ReadChannels;
      ReadBackV6(f, slots);
    } else {
      ReadBackV5(f, slots);
      if c in ReadChannels(v, h) {
        FinishV5(f, slots);
        assert c.name in Names(slots) && c == Channel(c.name, 0);
        assert c.name in ListedNames(h);
        ReadTableV5(h, c.name, slots[c]);
      }
    }
  }

  lemma HasRows(v: Version, seg: seq<WriteEntry>, base: nat, c: Channel)
    ensures RowsFor(v, seg, base, c) != [] <==> WasAdded(v, seg, c)
  {
    hide RowsFor;
    if WasAdded(v, seg, c) {
      var i: nat :| i < |seg| && Key(v, seg[i].channel) == c;
      RowsForSome(v, seg, base, i);
    } else {
      forall i | 0 <= i < |seg| ensures Key(v, seg[i].channel) != c {
        assert seg[i] in seg;
      }
      RowsForNone(v, seg, base, c);
    }
  }

  lemma SlotHasRows(v: Version, slots: Slots, seg: seq<WriteEntry>, base: nat, c: Channel)
    requires Tabulated(v, slots, seg, base)
    ensures c in slots && slots[c].entries != [] <==> WasAdded(v, seg, c)
  {
    HasRows(v, seg, base, c);
    hide RowsFor, Storable;
    if WasAdded(v, seg, c) {
      var i: nat :| i < |seg| && Key(v, seg[i].channel) == c;
    }
  }

  lemma FinishTellsOf(v: Version, f: File, slots: Slots, seg: seq<WriteEntry>, base: nat, past: Past, c: Channel)
    requires Partial(v, f, seg, base) && Tabulated(v, slots, seg, base) && SlotTells(v, slots, past, c)
    requires base + |seg| == |past.log| && past.log[base..] == seg
    ensures TellsOf(v, Finish(v, f, slots), past, base, c)
  {
    hide ReadChannels, ReadInfo, Finish, Storable, Bare, Described, Kept, ReadSlot, RowsFor, WasAdded, WasDescribed, Taken, Free, PayloadsOnly;
    assert AllStorable(slots);
    PayloadsAreBare(f, base, Payloads(seg));
    ListedInfo(v, f, slots, c);
    FreeIff(f, slots, seg, base, c);
    SlotHasRows(v, slots, seg, base, c);
  }

  lemma FinishTells(v: Version, f: File, slots: Slots, seg: seq<WriteEntry>, base: nat, past: Past)
    requires Partial(v, f, seg, base) && Tabulated(v, slots, seg, base) && SlotsTell(v, slots, past)
    requires base + |seg| == |past.log| && past.log[base..] == seg
    ensures Tells(v, Finish(v, f, slots), past, base)
  {
    hide Partial, Tabulated, SlotTells, TellsOf, Finish;
    forall c ensures TellsOf(v, Finish(v, f, slots), past, base, c) {
      FinishTellsOf(v, f, slots, seg, base, past, c);
    }
  }

  // ---------- A run ----------

  /** `pasts` has one more item for each file closed since. */
  function Extended(pasts: seq<Past>, count: int, past: Past): seq<Past> {
    if count > |pasts| then pasts + seq(count - |pasts|, _ => past) else pasts
  }

  /** The pasts of the files a run has closed, up to the operation that closed each. */
  ghost function Pasts(version: Version, dir: Str, base: Str, limit: nat, ops: seq<Op>): seq<Past> {
    if ops == [] then []
    else
      var front := ops[..|ops| - 1];
      Extended(Pasts(version, dir, base, limit, front), Closed(Run(version, dir, base, limit, ops).w),
               Past(front, Run(version, dir, base, limit, front).log))
  }

  ghost predicate ToldAt(t: Trace, past: Past, k: nat) {
    var p := FilePath(t.w.dir, t.w.base, k);
    k < |t.cuts| && p in t.w.disk && Tells(t.w.version, t.w.disk[p], past, t.cuts[k])
  }

  /** Each closed file tells what its past was. */
  ghost predicate Told(t: Trace, pasts: seq<Past>) {
    |pasts| == Closed(t.w) && forall k | 0 <= k < |pasts| :: ToldAt(t, pasts[k], k)
  }

  lemma ToldStays(t: Trace, r: Trace, pasts: seq<Past>, f: File)
    requires Told(t, pasts) && r.w.version == t.w.version && r.w.dir == t.w.dir && r.w.base == t.w.base
    requires r.w.disk == t.w.disk[FilePath(t.w.dir, t.w.base, |pasts|) := f] && t.cuts <= r.cuts
    ensures forall k | 0 <= k < |pasts| :: ToldAt(r, pasts[k], k)
  {
    hide FilePath, Tells;
    forall k | 0 <= k < |pasts| ensures ToldAt(r, pasts[k], k) {
      assert ToldAt(t, pasts[k], k);
      if FilePath(t.w.dir, t.w.base, k) == FilePath(t.w.dir, t.w.base, |pasts|) {
        PathInjective(t.w.dir, t.w.base, k, |pasts|);
      }
    }
  }

  lemma ToldOneMore(t: Trace, r: Trace, pasts: seq<Past>, f: File, past: Past)
    requires Told(t, pasts) && r.w.version == t.w.version && r.w.dir == t.w.dir && r.w.base == t.w.base
    requires r.w.disk == t.w.disk[FilePath(t.w.dir, t.w.base, |pasts|) := f] && t.cuts == r.cuts
    requires Closed(r.w) == |pasts| + 1 && |pasts| < |t.cuts| && Tells(t.w.version, f, past, t.cuts[|pasts|])
    ensures Told(r, Extended(pasts, Closed(r.w), past))
  {
    hide FilePath, Tells;
    ToldStays(t, r, pasts, f);
    assert Extended(pasts, Closed(r.w), past) == pasts + [past];
    assert ToldAt(r, past, |pasts|);
  }

  lemma CurrentIsRest(t: Trace)
    requires Filed(t) && t.w.open
    ensures CurrentBase(t) + |CurrentSegment(t)| == |t.log| && t.log[CurrentBase(t)..] == CurrentSegment(t)
    ensures t.w.split < |t.cuts| && CurrentBase(t) == t.cuts[t.w.split]
  {
    hide FilePath, AllArchived, Partial, Tabulated, Paths;
  }

  /** The file that is open tells, once closed, what had happened by then. */
  lemma OpenFileTells(t: Trace, past: Past)
    requires Filed(t) && t.w.open && SlotsTell(t.w.version, t.w.slots, past) && past.log == t.log
    ensures t.w.split < |t.cuts|
    ensures Tells(t.w.version, Finish(t.w.version, t.w.disk[CurrentPath(t.w)], t.w.slots), past, t.cuts[t.w.split])
  {
    CurrentIsRest(t);
    hide Finish, AllArchived, Partial, Tabulated, FilePath, Segment, Tells, SlotsTell, Paths, CurrentSegment, CurrentBase;
    FinishTells(t.w.version, t.w.disk[CurrentPath(t.w)], t.w.slots, CurrentSegment(t), CurrentBase(t), past);
  }

  lemma CloseTells(t: Trace, pasts: seq<Past>, past: Past)
    requires Filed(t) && Told(t, pasts) && SlotsTell(t.w.version, t.w.slots, past) && past.log == t.log
    ensures (var r := t.(w := CloseFile(t.w));
             Told(r, Extended(pasts, Closed(r.w), past)) && SlotsTell(r.w.version, r.w.slots, past))
  {
    assert Valid(t.w) && Closed(t.w) == |pasts|;
    if t.w.open {
      OpenFileTells(t, past);
      hide Filed, Finish, FilePath, Tells, SlotsTell, Emptied, Told, Extended;
      EmptiedTells(t.w.version, t.w.slots, past);
      ToldOneMore(t, t.(w := CloseFile(t.w)), pasts, Finish(t.w.version, t.w.disk[CurrentPath(t.w)], t.w.slots), past);
    }
  }

  lemma CreateTells(t: Trace, made: Outcome, pasts: seq<Past>, past: Past)
    requires Filed(t) && Told(t, pasts) && SlotsTell(t.w.version, t.w.slots, past) && past.log == t.log
    ensures (var r := Created(t, made); Told(r, Extended(pasts, Closed(r.w), past)) && SlotsTell(r.w.version, r.w.slots, past))
  {
    CloseTells(t, pasts, past);
    hide FilePath, Tells, SlotsTell, NewFile, Filed, ToldAt;
    if t.w.dir != [] && t.w.base != [] && !made.NoDirectory? && made.Opened? {
      var c := t.(w := CloseFile(t.w));
      ToldStays(c, Created(t, made), Extended(pasts, Closed(c.w), past), NewFile(c.w.version));
    }
  }

  lemma AppendTells(t: Trace, e: WriteEntry, pasts: seq<Past>, past: Past)
    requires Valid(t.w) && t.w.open && Told(t, pasts) && SlotsTell(t.w.version, t.w.slots, past)
    ensures (var r := Trace(Append(t.w, e), t.log + [e], t.cuts);
             Told(r, pasts) && SlotsTell(r.w.version, r.w.slots, past.(log := past.log + [e])))
  {
    hide FilePath, Tells, SlotsTell, Put, Resolve, AddRow, ToldAt;
    AddedTells(t.w.version, t.w.slots, past, e, RowOf(e, t.w.counter));
    ToldStays(t, Trace(Append(t.w, e), t.log + [e], t.cuts), pasts, Append(t.w, e).disk[CurrentPath(t.w)]);
  }

  lemma ExtendedTwice(pasts: seq<Past>, m: int, n: int, past: Past)
    requires m <= n
    ensures Extended(Extended(pasts, m, past), n, past) == Extended(pasts, n, past)
  {
  }

  /** What follows when a step leads to this trace. */
  ghost predicate Follows(r: Trace, pasts: seq<Past>, past: Past, ops: seq<Op>) {
    Told(r, Extended(pasts, Closed(r.w), past)) && SlotsTell(r.w.version, r.w.slots, Past(ops, r.log))
  }

  lemma CreateClosed(t: Trace, made: Outcome)
    requires Filed(t)
    ensures Closed(t.w) <= Closed(Created(t, made).w) && Created(t, made).log == t.log
  {
    hide FilePath, NewFile, Finish, Emptied, AllArchived, Partial, Tabulated, Paths;
  }

  lemma CreateFollows(t: Trace, made: Outcome, pasts: seq<Past>, past: Past)
    requires Filed(t) && Follows(t, pasts, past, past.ops) && past.log == t.log
    ensures Filed(Created(t, made)) && Follows(Created(t, made), pasts, past, past.ops) && Created(t, made).log == t.log
  {
    CreateKeeps(t, made);
    var before := Extended(pasts, Closed(t.w), past);
    CreateTells(t, made, before, past);
    CreateClosed(t, made);
    hide Filed, Told, SlotsTell, Closed, Created;
    ExtendedTwice(pasts, Closed(t.w), Closed(Created(t, made).w), past);
  }

  lemma AppendFollows(t: Trace, e: WriteEntry, pasts: seq<Past>, past: Past)
    requires Filed(t) && t.w.open && Follows(t, pasts, past, past.ops) && past.log == t.log
    ensures Follows(Trace(Append(t.w, e), t.log + [e], t.cuts), pasts, past, past.ops)
  {
    assert Valid(t.w);
    hide Filed, Told, SlotsTell, Put, Resolve, AddRow, FilePath;
    AppendTells(t, e, Extended(pasts, Closed(t.w), past), past);
  }

  lemma AddFollows(t: Trace, e: WriteEntry, a: Answers, pasts: seq<Past>, past: Past)
    requires Filed(t) && Follows(t, pasts, past, past.ops) && past.log == t.log
    ensures Valid(t.w) && Follows(AddTrace(t, e, a), pasts, past, past.ops)
  {
    assert Valid(t.w);
    CreateFollows(t, a.first, pasts, past);
    var t1 := if t.w.open then t else Created(t, a.first);
    hide Filed, Follows, Fits, FilePath, NewFile, Append, CreateFile;
    if t1.w.open {
      if Fits(t1.w, a.fileSize, e.data) {
        AppendFollows(t1, e, pasts, past);
      } else {
        CreateFollows(t1, a.next, pasts, past);
        if CreateFile(t1.w, a.next).1 {
          AppendFollows(Created(t1, a.next), e, pasts, past);
        }
      }
    }
  }

  lemma DescribeStepTells(t: Trace, op: Op, pasts: seq<Past>, past: Past)
    requires Valid(t.w) && Told(t, pasts) && SlotsTell(t.w.version, t.w.slots, past) && past.log == t.log && op.Describe?
    ensures Follows(Step(t, op), pasts, past, past.ops + [op])
  {
    hide Tells, FilePath, SlotsTell;
    DescribeTells(t.w, past, op);
    forall k | 0 <= k < |pasts| ensures ToldAt(Step(t, op), pasts[k], k) {
      assert ToldAt(t, pasts[k], k);
    }
  }

  lemma CloseStepTells(t: Trace, pasts: seq<Past>, past: Past)
    requires Filed(t) && Told(t, pasts) && SlotsTell(t.w.version, t.w.slots, past) && past.log == t.log
    ensures Follows(Step(t, Close), pasts, past, past.ops + [Close])
  {
    assert Valid(t.w);
    hide Filed, SlotsTell, Told, CloseFile;
    CloseTells(t, pasts, past);
    OtherOpTells(t.w.version, CloseFile(t.w).slots, past, Close);
    Api.StepVersion(t, Close);
  }

  lemma AddStepTells(t: Trace, op: Op, pasts: seq<Past>, past: Past)
    requires Filed(t) && Told(t, pasts) && SlotsTell(t.w.version, t.w.slots, past) && past.log == t.log && op.Add?
    ensures Follows(Step(t, op), pasts, past, past.ops + [op])
  {
    assert Valid(t.w);
    assert Extended(pasts, Closed(t.w), past) == pasts;
    AddTraceIsStep(t, op.entry, op.answers);
    Api.StepVersion(t, op);
    hide Filed, SlotsTell, Told, AddTrace, Step;
    AddFollows(t, op.entry, op.answers, pasts, past);
    OtherOpTells(t.w.version, Step(t, op).w.slots, Past(past.ops, Step(t, op).log), op);
  }

  lemma StepTells(t: Trace, op: Op, pasts: seq<Past>, past: Past)
    requires Filed(t) && Told(t, pasts) && SlotsTell(t.w.version, t.w.slots, past) && past.log == t.log
    ensures Valid(t.w) && Follows(Step(t, op), pasts, past, past.ops + [op])
  {
    assert Valid(t.w);
    hide Filed, Told, SlotsTell, Step, Follows;
    match op
    case Describe(_, _) => DescribeStepTells(t, op, pasts, past);
    case Close => CloseStepTells(t, pasts, past);
    case Add(_, _) => AddStepTells(t, op, pasts, past);
  }

  /** After any run, each closed file lists exactly the channels its past mentions, with the
      information last set when it was closed. */
  lemma {:induction false} RunTells(version: Version, dir: Str, base: Str, limit: nat, ops: seq<Op>)
    requires forall op | op in ops :: StorableOp(op)
    ensures (var t := Run(version, dir, base, limit, ops);
             Told(t, Pasts(version, dir, base, limit, ops)) && SlotsTell(t.w.version, t.w.slots, Past(ops, t.log)))
  {
    if ops != [] {
      var n := |ops| - 1;
      assert ops == ops[..n] + [ops[n]];
      hide Told, SlotsTell, Filed, StorableOp, Step, Extended;
      RunTells(version, dir, base, limit, ops[..n]);
      RunIsFiled(version, dir, base, limit, ops[..n]);
      var t := Run(version, dir, base, limit, ops[..n]);
      StepTells(t, ops[n], Pasts(version, dir, base, limit, ops[..n]), Past(ops[..n], t.log));
    }
  }

  // ---------- A directory ----------

  /** The past of file `k` of a finished run mentions the channel. */
  ghost predicate MentionedAt(t: Trace, pasts: seq<Past>, k: nat, c: Channel) {
    k < |pasts| && k < |t.cuts| && Mentions(t.w.version, pasts[k], t.cuts[k], c)
  }

  /** A directory listed in this order reports the channel exactly if the past of a file
      mentions it, and then with this information. */
  ghost predicate ReportsInOrder(t: Trace, pasts: seq<Past>, c: Channel, info: Info, order: seq<nat>) {
    && AllOnDisk(t.w, order)
    && (var infos := LastInfos(FilesIn(t.w, order));
        && (c in infos <==> exists i | 0 <= i < |order| :: MentionedAt(t, pasts, order[i], c))
        && (c in infos ==> infos[c] == info))
  }

  lemma {:induction false} ReportedIffListed(files: Files, c: Channel)
    ensures c in LastInfos(files) <==> exists i | 0 <= i < |files| :: c in FileChannels(files[i])
  {
    hide FileChannels, FileInfo;
    if files != [] {
      var n := |files| - 1;
      ReportedIffListed(files[..n], c);
      if c in FileChannels(files[n]) {
      } else if i: nat :| i < n && c in FileChannels(files[i]) {
        assert c in FileChannels(files[..n][i]);
      }
    }
  }

  lemma FileReports(t: Trace, pasts: seq<Past>, k: nat, c: Channel)
    requires Filed(t) && !t.w.open && Told(t, pasts) && k < |t.cuts|
    ensures |pasts| == |t.cuts| && FilePath(t.w.dir, t.w.base, k) in t.w.disk
    ensures (var f := t.w.disk[FilePath(t.w.dir, t.w.base, k)];
             && (c in FileChannels(f) <==> MentionedAt(t, pasts, k, c))
             && (MentionedAt(t, pasts, k, c) ==>
                   FileInfo(f, c) == Returned(t.w.version, Described(t.w.version, pasts[k].ops, c))))
  {
    hide FilePath, ReadChannels, ReadInfo, Partial, Tabulated, Returned, Described, FileChannels, VersionOf, Segment, Mentions;
    assert ArchivedAt(t.w, t.log, t.cuts, k);
    assert ToldAt(t, pasts[k], k);
    assert TellsOf(t.w.version, t.w.disk[FilePath(t.w.dir, t.w.base, k)], pasts[k], t.cuts[k], c);
    ArchiveChannels(t.w.version, t.w.disk[FilePath(t.w.dir, t.w.base, k)], Segment(t.log, t.cuts, k), t.cuts[k], c);
  }

  lemma UptoOrders(n: nat)
    ensures Orders(Upto(n), n)
  {
  }

  lemma PickedFiles(w: Writer, order: seq<nat>, n: nat)
    requires AllOnDisk(w, Upto(n)) && AllOnDisk(w, order) && InRange(order, n)
    ensures Pick(FilesIn(w, Upto(n)), order) == FilesIn(w, order)
  {
    hide FilePath;
  }

  lemma ReportsInOrderIff(t: Trace, pasts: seq<Past>, c: Channel, info: Info, order: seq<nat>)
    requires Filed(t) && !t.w.open && Told(t, pasts) && AllOnDisk(t.w, Upto(|t.cuts|)) && Orders(order, |t.cuts|)
    ensures ReportsInOrder(t, pasts, c, info, order) <==> Reports(FilesIn(t.w, Upto(|t.cuts|)), c, info, order)
  {
    PathsOnDisk(t, order);
    PickedFiles(t.w, order, |t.cuts|);
    var files := FilesIn(t.w, order);
    ReportedIffListed(files, c);
    hide FilePath, FileChannels, FileInfo, LastInfos, Filed, Orders, Told, MentionedAt;
    forall i | 0 <= i < |order| ensures c in FileChannels(files[i]) <==> MentionedAt(t, pasts, order[i], c) {
      FileReports(t, pasts, order[i], c);
    }
  }

  /** Where the past of a file mentions the channel, what had last been set for it comes back
      as `info`. */
  ghost predicate AlwaysTold(t: Trace, pasts: seq<Past>, c: Channel, info: Info) {
    forall k: nat | MentionedAt(t, pasts, k, c) :: Returned(t.w.version, Described(t.w.version, pasts[k].ops, c)) == info
  }

  lemma AlwaysToldIff(t: Trace, pasts: seq<Past>, c: Channel, info: Info)
    requires Filed(t) && !t.w.open && Told(t, pasts) && AllOnDisk(t.w, Upto(|t.cuts|))
    ensures AlwaysTold(t, pasts, c, info) <==> AllHave(FilesIn(t.w, Upto(|t.cuts|)), c, info)
  {
    var files := FilesIn(t.w, Upto(|t.cuts|));
    assert |pasts| == |files|;
    hide FilePath, FileChannels, FileInfo, Filed, Told, Mentions, Returned, Described;
    forall k | 0 <= k < |files|
      ensures c in FileChannels(files[k]) <==> MentionedAt(t, pasts, k, c)
      ensures MentionedAt(t, pasts, k, c) ==> FileInfo(files[k], c) == Returned(t.w.version, Described(t.w.version, pasts[k].ops, c))
    {
      FileReports(t, pasts, k, c);
    }
  }

  lemma TraceReportsIff(t: Trace, pasts: seq<Past>, c: Channel, info: Info)
    requires Filed(t) && !t.w.open && Told(t, pasts)
    ensures (forall order | Orders(order, |t.cuts|) :: ReportsInOrder(t, pasts, c, info, order)) <==> AlwaysTold(t, pasts, c, info)
  {
    UptoOrders(|t.cuts|);
    PathsOnDisk(t, Upto(|t.cuts|));
    hide Filed, Told, ReportsInOrder, Reports, Orders, AllHave, AlwaysTold, AllOnDisk, FilesIn;
    var files := FilesIn(t.w, Upto(|t.cuts|));
    AlwaysToldIff(t, pasts, c, info);
    ReportsIff(files, c, info);
    forall order | Orders(order, |t.cuts|) ensures ReportsInOrder(t, pasts, c, info, order) <==> Reports(files, c, info, order) {
      ReportsInOrderIff(t, pasts, c, info, order);
    }
  }

  /** A finished recording reports the type information last set for a channel in every order
      of its files exactly if, whenever a file that lists the channel was closed, the same had
      been set (for V5, the same up to what its attributes can hold). A file lists what its
      past mentions. */
  lemma LatestIsReportedIff(version: Version, dir: Str, base: Str, limit: nat, ops: seq<Op>, c: Channel)
    requires forall op | op in ops :: StorableOp(op)
    requires !Run(version, dir, base, limit, ops).w.open
    ensures (var t, pasts := Run(version, dir, base, limit, ops), Pasts(version, dir, base, limit, ops);
             var latest := Returned(version, Described(version, ops, c));
             |pasts| == |t.cuts|
             && ((forall order | Orders(order, |t.cuts|) :: ReportsInOrder(t, pasts, c, latest, order))
                 <==> AlwaysTold(t, pasts, c, latest)))
  {
    RunTells(version, dir, base, limit, ops);
    RunIsFiled(version, dir, base, limit, ops);
    var t, pasts := Run(version, dir, base, limit, ops), Pasts(version, dir, base, limit, ops);
    assert |pasts| == |t.cuts|;
    hide Run, Filed, Told, AlwaysTold, ReportsInOrder, Orders, Returned, Described, StorableOp, Pasts;
    TraceReportsIff(t, pasts, c, Returned(version, Described(version, ops, c)));
  }

  // ---------- A run whose report depends on the order ----------

  const SPEED := Channel("speed", 0)
  const OLD := Info("Speed1", "proto", [])
  const NEW := Info("Speed2", "proto", [])

  /** The type information changes after the first file was closed. */
  const CHANGED: seq<Op> := [
    Describe(SPEED, OLD),
    Add(WriteEntry(SPEED, "first", 0, 7, 0, 0), Answers(Opened, 0, Opened)),
    Add(WriteEntry(SPEED, "second", 1, 8, 0, 1), Answers(Opened, 1000, Opened)),
    Describe(SPEED, NEW),
    Close
  ]

  lemma NextOp(version: Version, ops: seq<Op>, k: nat)
    requires k < |ops|
    ensures Run(version, "out", "meas", 1000, ops[..k + 1]) == Step(Run(version, "out", "meas", 1000, ops[..k]), ops[k])
  {
    assert ops[..k + 1][..k] == ops[..k];
    hide Step;
  }

  lemma DescribeCounts(t: Trace, op: Op)
    requires Valid(t.w) && op.Describe?
    ensures (var r := Step(t, op);
             r.log == t.log && r.cuts == t.cuts && r.w == t.w.(slots := r.w.slots) && Closed(r.w) == Closed(t.w))
  {
  }

  /** Which files are closed follows from whether one is open. */
  lemma ClosedFiles(version: Version, ops: seq<Op>)
    requires forall op | op in ops :: StorableOp(op)
    ensures (var t := Run(version, "out", "meas", 1000, ops);
             Filed(t) && t.w.version == version && Closed(t.w) == if t.w.open then |t.cuts| - 1 else |t.cuts|)
  {
    RunIsFiled(version, "out", "meas", 1000, ops);
    Api.RunVersion(version, "out", "meas", 1000, ops);
    hide Run, StorableOp;
  }

  lemma SpeedIsStorable()
    ensures Storable(SPEED.name)
  {
    FileOrder.SpeedStaysItself();
    UnescapeEscape(TopicName, "speed");
  }

  lemma ChangedIsStorable()
    ensures forall op | op in CHANGED :: StorableOp(op)
  {
    SpeedIsStorable();
    hide Storable, SPEED;
  }

  lemma ChangedFirst(version: Version)
    ensures (var t := Run(version, "out", "meas", 1000, CHANGED[..2]);
             t.w.open && t.cuts == [0] && t.log == [CHANGED[1].entry] && t.w.dir == "out" && t.w.base == "meas" && t.w.limit == 1000)
  {
    assert Run(version, "out", "meas", 1000, CHANGED[..0]) == Trace(Fresh(version, "out", "meas", 1000), [], []);
    hide Run, Step, Pasts;
    NextOp(version, CHANGED, 0);
    NextOp(version, CHANGED, 1);
    DescribeCounts(Run(version, "out", "meas", 1000, CHANGED[..0]), CHANGED[0]);
    FileOrder.AddToNewFile(Run(version, "out", "meas", 1000, CHANGED[..1]), CHANGED[1].entry, CHANGED[1].answers);
  }

  lemma ChangedSplit(version: Version)
    ensures (var t := Run(version, "out", "meas", 1000, CHANGED[..3]);
             t.w.open && t.cuts == [0, 1] && t.log == [CHANGED[1].entry, CHANGED[2].entry])
  {
    hide Run, Step, Pasts;
    ChangedFirst(version);
    NextOp(version, CHANGED, 2);
    FileOrder.AddSplits(Run(version, "out", "meas", 1000, CHANGED[..2]), CHANGED[2].entry, CHANGED[2].answers);
  }

  lemma ChangedRun(version: Version)
    ensures (var t := Run(version, "out", "meas", 1000, CHANGED);
             !t.w.open && t.cuts == [0, 1] && t.log == [CHANGED[1].entry, CHANGED[2].entry])
  {
    hide Run, Step, Pasts;
    ChangedSplit(version);
    NextOp(version, CHANGED, 3);
    NextOp(version, CHANGED, 4);
    DescribeCounts(Run(version, "out", "meas", 1000, CHANGED[..3]), CHANGED[3]);
    FileOrder.ClosesLast(Run(version, "out", "meas", 1000, CHANGED[..4]));
    assert CHANGED[..5] == CHANGED;
  }

  lemma PastsAreClosed(version: Version, ops: seq<Op>)
    requires forall op | op in ops :: StorableOp(op)
    ensures (var t, pasts := Run(version, "out", "meas", 1000, ops), Pasts(version, "out", "meas", 1000, ops);
             |pasts| == if t.w.open then |t.cuts| - 1 else |t.cuts|)
  {
    RunTells(version, "out", "meas", 1000, ops);
    ClosedFiles(version, ops);
    hide Run, Pasts, Filed, StorableOp, SlotsTell;
  }

  lemma {:induction false} PastsGrow(version: Version, ops: seq<Op>, k: nat)
    requires k <= |ops|
    ensures Pasts(version, "out", "meas", 1000, ops[..k]) <= Pasts(version, "out", "meas", 1000, ops)
  {
    if k == |ops| {
      assert ops[..k] == ops;
    } else {
      assert ops[..|ops| - 1][..k] == ops[..k];
      PastsGrow(version, ops[..|ops| - 1], k);
    }
    hide Run;
  }

  /** The past of the first file, when the operation after the first `k` closes it. */
  lemma FirstPast(version: Version, ops: seq<Op>, k: nat)
    requires k < |ops| && forall op | op in ops :: StorableOp(op)
    requires (var t := Run(version, "out", "meas", 1000, ops[..k]); t.w.open && |t.cuts| == 1)
    requires (var t := Run(version, "out", "meas", 1000, ops[..k + 1]); t.w.open && |t.cuts| == 2)
    ensures Pasts(version, "out", "meas", 1000, ops) != []
    ensures Pasts(version, "out", "meas", 1000, ops)[0] == Past(ops[..k], Run(version, "out", "meas", 1000, ops[..k]).log)
  {
    hide Run, StorableOp;
    assert ops[..k + 1][..k] == ops[..k];
    PastsAreClosed(version, ops[..k]);
    PastsAreClosed(version, ops[..k + 1]);
    PastsGrow(version, ops, k + 1);
    assert Pasts(version, "out", "meas", 1000, ops[..k]) == [];
    assert Pasts(version, "out", "meas", 1000, ops[..k + 1])[0].ops == ops[..k];
  }

  lemma ReturnedIfSurvives(v: Version, info: Info)
    requires SurvivesV5(info)
    ensures Returned(v, info) == info
  {
    AttributeRoundTripIff(CombinedType(info));
    AttributeRoundTripIff(info.descriptor);
    SplitTypeIff(info);
  }

  lemma FirstIsMentioned(version: Version, past: Past)
    requires past.log == [CHANGED[1].entry]
    ensures Mentions(version, past, 0, SPEED)
  {
    hide Taken;
    FileOrder.NotTaken("speed", 0, 1);
    assert past.log[0..] == past.log && past.log[0].channel == SPEED;
  }

  lemma BothReturn(version: Version)
    ensures Returned(version, OLD) == OLD && Returned(version, NEW) == NEW
  {
    ReturnedIfSurvives(version, OLD);
    ReturnedIfSurvives(version, NEW);
    hide Returned;
  }

  lemma {:induction false} DescribedLast(v: Version, ops: seq<Op>, k: nat, c: Channel)
    requires k < |ops| && ops[k].Describe? && Key(v, ops[k].channel) == c
    requires forall j | k < j < |ops| :: !ops[j].Describe?
    ensures Described(v, ops, c) == ops[k].info
  {
    if k < |ops| - 1 {
      DescribedLast(v, ops[..|ops| - 1], k, c);
    }
  }

  lemma ChangedInfos(version: Version)
    ensures Returned(version, Described(version, CHANGED, SPEED)) == NEW
    ensures Returned(version, Described(version, CHANGED[..2], SPEED)) == OLD
  {
    BothReturn(version);
    hide Returned, OLD, NEW, Described;
    DescribedLast(version, CHANGED, 3, SPEED);
    DescribedLast(version, CHANGED[..2], 0, SPEED);
  }

  /** If a file was told something else, some order does not report the latest. */
  lemma StaleIsReported(version: Version, ops: seq<Op>, c: Channel)
    requires forall op | op in ops :: StorableOp(op)
    requires !Run(version, "out", "meas", 1000, ops).w.open
    requires MentionedAt(Run(version, "out", "meas", 1000, ops), Pasts(version, "out", "meas", 1000, ops), 0, c)
    requires Returned(version, Described(version, Pasts(version, "out", "meas", 1000, ops)[0].ops, c))
          != Returned(version, Described(version, ops, c))
    ensures (var t, pasts := Run(version, "out", "meas", 1000, ops), Pasts(version, "out", "meas", 1000, ops);
             exists order :: Orders(order, |t.cuts|)
                             && !ReportsInOrder(t, pasts, c, Returned(version, Described(version, ops, c)), order))
  {
    Api.RunVersion(version, "out", "meas", 1000, ops);
    hide Run, Pasts, StorableOp, Described, Returned, Mentions, ReportsInOrder, Orders;
    LatestIsReportedIff(version, "out", "meas", 1000, ops, c);
  }

  /** Of this recording some order of its two files reports other information than was last
      set. */
  lemma ChangeDependsOnOrder(version: Version)
    ensures (var t, pasts := Run(version, "out", "meas", 1000, CHANGED), Pasts(version, "out", "meas", 1000, CHANGED);
             exists order :: Orders(order, |t.cuts|) && !ReportsInOrder(t, pasts, SPEED, NEW, order))
  {
    ChangedIsStorable();
    ChangedFirst(version);
    ChangedSplit(version);
    ChangedRun(version);
    ChangedInfos(version);
    assert OLD != NEW;
    hide Run, Pasts, StorableOp, Described, Returned, Mentions, ReportsInOrder, Orders, Filed;
    ClosedFiles(version, CHANGED);
    FirstPast(version, CHANGED, 2);
    FirstIsMentioned(version, Pasts(version, "out", "meas", 1000, CHANGED)[0]);
    StaleIsReported(version, CHANGED, SPEED);
  }
}
