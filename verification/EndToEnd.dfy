/** From a recording through the measurement cutter to what a reader of the cut finds. */
module EndToEnd {
  import opened Strings
  import opened Escape
  import opened Hdf5
  import opened Ordering
  import opened Entries
  import opened Layout
  import opened Recording
  import opened MeasDir
  import opened DirFacts
  import opened Lossless
  import opened NameApi
  import opened Cutter
  import opened CutFilter
  import Api

  // ---------- The measurement an opened directory is ----------

  /** `SEscapedChannel::toSChannel` */
  function Unescaped(c: Channel): Channel { Channel(Unescape(c.name), c.id) }

  lemma ReadBackByTime(files: Files, byId: map<int, Ref>, byChn: map<Channel, EntrySet>, c: Channel)
    ensures forall t | t in ReadBack(files, byId, byChn, c) :: ReadBack(files, byId, byChn, c)[t].rcv == t
  {
    hide DataOf;
    if c in byChn {
      assert forall t | t in byChn[c] :: byChn[c][t].rcv == t;
    }
  }

  function RecordsOf(files: Files, byId: map<int, Ref>, byChn: map<Channel, EntrySet>, c: Channel): RecMap {
    ReadBackByTime(files, byId, byChn, c);
    ReadBack(files, byId, byChn, c)
  }

  /** The channels of an opened directory under their unescaped names, with their records. */
  function MeasurementOf(files: Files, byId: map<int, Ref>, byChn: map<Channel, EntrySet>): Measurement {
    map c | c in (set d | d in LastInfos(files) :: Unescaped(d)) :: RecordsOf(files, byId, byChn, Api.FromChannel(c))
  }

  ghost predicate ListedIn(files: Files, c: Channel) { exists i :: 0 <= i < |files| && c in FileChannels(files[i]) }

  lemma ListedMore(files: Files, c: Channel)
    requires files != []
    ensures ListedIn(files, c) <==> ListedIn(files[..|files| - 1], c) || c in FileChannels(files[|files| - 1])
  {
    hide FileChannels;
    var n := |files| - 1;
    if i :| 0 <= i < |files| && c in FileChannels(files[i]) {
      assert i < n ==> files[..n][i] == files[i];
    }
    if i :| 0 <= i < |files[..n]| && c in FileChannels(files[..n][i]) {
      assert files[..n][i] == files[i];
    }
  }

  /** The channels of a directory are those some file lists. */
  lemma {:induction false} ListedSomewhere(files: Files, c: Channel)
    ensures c in LastInfos(files) <==> ListedIn(files, c)
  {
    if files != [] {
      ListedMore(files, c);
      ListedSomewhere(files[..|files| - 1], c);
      hide FileChannels, FileInfo, ListedIn;
    }
  }

  lemma MergedIsListed(files: Files, c: Channel, t: int)
    requires t in Merged(files, c)
    ensures c in LastInfos(files)
  {
    MergedIsFirst(files, c, t);
    var i: nat :| i < |files| && t in FileRecs(files[i], c);
    ListedSomewhere(files, c);
    hide FileChannels, LastInfos, Merged;
  }

  // ---------- The measurement of a recording ----------

  /** The records of a name in a log, whatever the id. */
  function NameRecords(log: seq<WriteEntry>, name: Str): seq<Rec> {
    if log == [] then []
    else
      var n := |log| - 1;
      NameRecords(log[..n], name) + if log[n].channel.name == name then [RecordOf(log[n])] else []
  }

  lemma {:induction false} RecsAreNamed(v: Version, log: seq<WriteEntry>, c: Channel)
    ensures forall r | r in Recs(v, log, c) :: r in NameRecords(log, c.name)
    ensures DistinctTimes(NameRecords(log, c.name)) ==> DistinctTimes(Recs(v, log, c))
  {
    if log != [] {
      var n := |log| - 1;
      RecsAreNamed(v, log[..n], c);
      DistinctAppend(Recs(v, log[..n], c), RecordOf(log[n]));
      DistinctAppend(NameRecords(log[..n], c.name), RecordOf(log[n]));
      assert NameRecords(log[..n], c.name) + [] == NameRecords(log[..n], c.name);
      assert Recs(v, log[..n], c) + [] == Recs(v, log[..n], c);
      hide DistinctTimes, RecordOf;
    }
  }

  lemma {:induction false} NamedIsInRecs(v: Version, log: seq<WriteEntry>, name: Str, r: Rec) returns (c: Channel)
    requires r in NameRecords(log, name)
    ensures c.name == name && Key(v, c) == c && r in Recs(v, log, c)
  {
    var n := |log| - 1;
    if r in NameRecords(log[..n], name) {
      c := NamedIsInRecs(v, log[..n], name, r);
    } else {
      c := Key(v, log[n].channel);
    }
  }

  /** A recording: the calls of its writer, and the order in which a reader lists the files. */
  datatype Source = Source(version: Version, dir: Str, base: Str, limit: nat, ops: seq<Op>, order: seq<nat>)

  /** What opening the directory yields. */
  datatype Reader = Reader(origins: seq<Origin>, byId: map<int, Ref>, byChn: map<Channel, EntrySet>)

  ghost function TraceOf(s: Source): Trace { Run(s.version, s.dir, s.base, s.limit, Api.FromOps(s.ops)) }

  ghost function AcceptedBy(s: Source): seq<WriteEntry> { Api.Accepted(s.version, s.dir, s.base, s.limit, s.ops) }

  /** The writer is closed and only given names a file can hold. */
  ghost predicate Recorded(s: Source) {
    && (forall op | op in s.ops :: Api.Nameable(op))
    && !TraceOf(s).w.open && Orders(s.order, |TraceOf(s).cuts|)
  }

  lemma RecordedIsFiled(s: Source)
    requires Recorded(s)
    ensures Filed(TraceOf(s)) && AllOnDisk(TraceOf(s).w, s.order) && TraceOf(s).w.version == s.version
    ensures Cutting(AcceptedBy(s), TraceOf(s).cuts) && TraceOf(s).log == Api.FromLog(AcceptedBy(s))
  {
    hide Run, Filed, Orders, AllOnDisk;
    Api.OpsAreStorable(s.ops);
    RunIsFiled(s.version, s.dir, s.base, s.limit, Api.FromOps(s.ops));
    Api.RunIsCut(s.version, s.dir, s.base, s.limit, s.ops);
    Api.RunVersion(s.version, s.dir, s.base, s.limit, Api.FromOps(s.ops));
    PathsOnDisk(TraceOf(s), s.order);
  }

  ghost function FilesOf(s: Source): Files
    requires Recorded(s)
  {
    RecordedIsFiled(s);
    FilesIn(TraceOf(s).w, s.order)
  }

  ghost predicate OpenedBy(s: Source, r: Reader)
    requires Recorded(s)
  {
    Indexed(FilesOf(s), r.origins, r.byId, r.byChn) && Complete(FilesOf(s), r.origins)
  }

  ghost function Measured(s: Source, r: Reader): Measurement
    requires Recorded(s)
  {
    MeasurementOf(FilesOf(s), r.byId, r.byChn)
  }

  /** No record of the name is in a file with a payload whose number is the name. */
  ghost predicate NameShown(s: Source, name: Str)
    requires Recorded(s)
  {
    RecordedIsFiled(s);
    NothingHidden(V5, AcceptedBy(s), TraceOf(s).cuts, Channel(name, 0))
  }

  /** A V5 writer keeps the channels of a name together, and so does this interface. */
  lemma {:induction false} NamedIsV5(log: seq<WriteEntry>, name: Str)
    ensures NameRecords(log, name) == Recs(V5, log, Channel(name, 0))
  {
    if log != [] {
      NamedIsV5(log[..|log| - 1], name);
    }
  }

  lemma NoneHiddenByName(v: Version, log: seq<WriteEntry>, cuts: seq<nat>, c: Channel)
    requires Cutting(log, cuts) && NothingHidden(V5, log, cuts, Channel(c.name, 0))
    ensures NothingHidden(v, log, cuts, c)
  {
    hide Recs, Taken, Segment;
    forall k | 0 <= k < |cuts| ensures NoneHidden(v, Segment(log, cuts, k), cuts[k], c) {
      var seg := Segment(log, cuts, k);
      assert NoneHidden(V5, seg, cuts[k], Channel(c.name, 0));
      NamedIsV5(seg, c.name);
      RecsAreNamed(v, seg, c);
      assert Recs(v, seg, c) != [] ==> Recs(v, seg, c)[0] in Recs(v, seg, c);
    }
  }

  /** What is read of one id of a name. */
  lemma IdRecords(s: Source, r: Reader, c: Channel)
    requires Recorded(s) && OpenedBy(s, r) && Key(s.version, c) == c
    requires NameShown(s, c.name) && DistinctTimes(NameRecords(AcceptedBy(s), c.name))
    ensures ReadBack(FilesOf(s), r.byId, r.byChn, Api.FromChannel(c)) == Firsts(s.version, AcceptedBy(s), c)
  {
    hide Run, Indexed, Complete, Orders, DistinctTimes, Firsts, ReadBack, NothingHidden, NameRecords, AllOnDisk, FilesIn, Filed;
    RecordedIsFiled(s);
    RecsAreNamed(s.version, AcceptedBy(s), c);
    NoneHiddenByName(s.version, AcceptedBy(s), TraceOf(s).cuts, c);
    Api.ReadsFirstsIff(s.version, s.dir, s.base, s.limit, s.ops, s.order, r.origins, r.byId, r.byChn, c);
  }

  // ---------- Its channels ----------

  lemma MeasuredKeys(s: Source, r: Reader, c: Channel)
    requires Recorded(s)
    ensures c in Measured(s, r) <==> exists d :: d in LastInfos(FilesOf(s)) && Unescaped(d) == c
  {
    hide FilesOf, LastInfos, Unescape, ReadBack;
  }

  lemma FileIsArchive(t: Trace, order: seq<nat>, i: nat) returns (seg: seq<WriteEntry>, base: nat)
    requires Filed(t) && !t.w.open && Orders(order, |t.cuts|) && AllOnDisk(t.w, order) && i < |order|
    ensures Archived(t.w.version, FilesIn(t.w, order)[i], seg, base)
  {
    OrdersBelow(order, |t.cuts|);
    hide Archived, Partial, Tabulated, Paths, FilePath, Orders, Segment;
    assert ArchivedAt(t.w, t.log, t.cuts, order[i]);
    seg, base := Segment(t.log, t.cuts, order[i]), t.cuts[order[i]];
  }

  lemma FilesAreArchives(s: Source, i: nat) returns (seg: seq<WriteEntry>, base: nat)
    requires Recorded(s) && i < |FilesOf(s)|
    ensures Archived(s.version, FilesOf(s)[i], seg, base)
  {
    RecordedIsFiled(s);
    hide Run, Filed, Archived, Orders, AllOnDisk;
    seg, base := FileIsArchive(TraceOf(s), s.order, i);
  }

  lemma ArchivedChannel(v: Version, f: File, seg: seq<WriteEntry>, base: nat, c: Channel)
    requires Archived(v, f, seg, base) && c in FileChannels(f)
    ensures Storable(c.name) && Key(v, c) == c
  {
    ArchiveChannels(v, f, seg, base, c);
    hide ReadEntries, ReadData, VersionOf, ParseHex, Links, IsGroup, Storable, Taken;
  }

  /** Every channel of the measurement stands for one that a file lists, whose name fits. */
  lemma MeasuredChannel(s: Source, r: Reader, c: Channel)
    requires Recorded(s) && c in Measured(s, r)
    ensures Api.FromChannel(c) in LastInfos(FilesOf(s)) && Key(s.version, c) == c && Api.NameFits(c.name)
  {
    MeasuredKeys(s, r, c);
    var d :| d in LastInfos(FilesOf(s)) && Unescaped(d) == c;
    ListedSomewhere(FilesOf(s), d);
    var i :| 0 <= i < |FilesOf(s)| && d in FileChannels(FilesOf(s)[i]);
    var seg, base := FilesAreArchives(s, i);
    ArchivedChannel(s.version, FilesOf(s)[i], seg, base, d);
    hide FilesOf, LastInfos, FileChannels, Archived, Measured;
    assert Api.FromChannel(c) == d;
    StorableIff(c.name);
  }

  /** A channel with a record is in the measurement. */
  lemma RecordedIsMeasured(s: Source, r: Reader, c: Channel, t: int)
    requires Recorded(s) && OpenedBy(s, r)
    requires t in ReadBack(FilesOf(s), r.byId, r.byChn, Api.FromChannel(c))
    ensures c in Measured(s, r)
  {
    hide Indexed, Complete, FilesOf, ReadBack, LastInfos, Unescape, EscapeWith, Merged;
    var d := Api.FromChannel(c);
    ReadBackIsMerged(FilesOf(s), r.origins, r.byId, r.byChn, d);
    MergedIsListed(FilesOf(s), d, t);
    UnescapeEscape(TopicName, c.name);
    assert Unescaped(d) == c;
    MeasuredKeys(s, r, c);
  }

  lemma MeasuredRecords(s: Source, r: Reader, c: Channel)
    requires Recorded(s) && c in Measured(s, r)
    ensures Measured(s, r)[c] == ReadBack(FilesOf(s), r.byId, r.byChn, Api.FromChannel(c))
  {
    hide FilesOf, LastInfos, ReadBack;
  }

  // ---------- The records of a name ----------

  lemma SameTimeSame(recs: seq<Rec>, x: Rec, y: Rec)
    requires DistinctTimes(recs) && x in recs && y in recs && x.rcv == y.rcv
    ensures x == y
  {
  }

  lemma NameIsAccepted(s: Source, r: Reader, name: Str, t: int)
    requires Recorded(s) && OpenedBy(s, r)
    requires NameShown(s, name) && DistinctTimes(NameRecords(AcceptedBy(s), name))
    requires t in NameRecs(Measured(s, r), name)
    ensures (var x := NameRecs(Measured(s, r), name)[t]; x in NameRecords(AcceptedBy(s), name) && x.rcv == t)
  {
    hide Recorded, OpenedBy, NameShown, Measured, FilesOf, AcceptedBy, NameRecs, NameRecords, DistinctTimes, ReadBack, Firsts, IdsOf;
    var m := Measured(s, r);
    NameRecsFrom(m, name, t);
    var id: nat :| id in IdsOf(m, name) && t in m[Channel(name, id)] && NameRecs(m, name)[t] == m[Channel(name, id)][t];
    var c := Channel(name, id);
    MeasuredChannel(s, r, c);
    MeasuredRecords(s, r, c);
    IdRecords(s, r, c);
    FirstsOfRecs(s.version, AcceptedBy(s), c);
    RecsAreNamed(s.version, AcceptedBy(s), c);
  }

  lemma AcceptedIsThere(s: Source, r: Reader, name: Str, x: Rec)
    requires Recorded(s) && OpenedBy(s, r)
    requires NameShown(s, name) && DistinctTimes(NameRecords(AcceptedBy(s), name))
    requires x in NameRecords(AcceptedBy(s), name)
    ensures x.rcv in NameRecs(Measured(s, r), name)
  {
    hide Recorded, OpenedBy, NameShown, Measured, FilesOf, AcceptedBy, NameRecs, NameRecords, DistinctTimes, ReadBack, Firsts;
    var m := Measured(s, r);
    var c := NamedIsInRecs(s.version, AcceptedBy(s), name, x);
    IdRecords(s, r, c);
    FirstsOfRecs(s.version, AcceptedBy(s), c);
    RecordedIsMeasured(s, r, c, x.rcv);
    MeasuredRecords(s, r, c);
    NameRecsFrom(m, name, x.rcv);
    assert c.id as nat in IdsOf(m, name) && x.rcv in m[Channel(name, c.id)];
  }

  /** By name the opened recording has exactly the records accepted for the name. */
  lemma NameIsMeasured(s: Source, r: Reader, name: Str, t: int, x: Rec)
    requires Recorded(s) && OpenedBy(s, r)
    requires NameShown(s, name) && DistinctTimes(NameRecords(AcceptedBy(s), name))
    ensures t in NameRecs(Measured(s, r), name) && NameRecs(Measured(s, r), name)[t] == x
       <==> x in NameRecords(AcceptedBy(s), name) && x.rcv == t
  {
    hide Recorded, OpenedBy, NameShown, Measured, FilesOf, AcceptedBy, NameRecs, NameRecords, DistinctTimes, ReadBack, Firsts;
    if t in NameRecs(Measured(s, r), name) {
      NameIsAccepted(s, r, name, t);
      var y := NameRecs(Measured(s, r), name)[t];
      if x in NameRecords(AcceptedBy(s), name) && x.rcv == t {
        SameTimeSame(NameRecords(AcceptedBy(s), name), x, y);
      }
    }
    if x in NameRecords(AcceptedBy(s), name) && x.rcv == t {
      AcceptedIsThere(s, r, name, x);
    }
  }

  // ---------- When a name has all its records ----------

  lemma FromLogAppend(a: seq<WriteEntry>, b: seq<WriteEntry>)
    ensures Api.FromLog(a + b) == Api.FromLog(a) + Api.FromLog(b)
  {
    hide Api.FromEntry;
  }

  lemma {:induction false} FlatMapped(segs: seq<seq<WriteEntry>>, mapped: seq<seq<WriteEntry>>)
    requires |mapped| == |segs| && forall k | 0 <= k < |segs| :: mapped[k] == Api.FromLog(segs[k])
    ensures Flat(mapped) == Api.FromLog(Flat(segs))
  {
    hide Api.FromLog;
    if segs != [] {
      FlatMapped(segs[1..], mapped[1..]);
      FromLogAppend(segs[0], Flat(segs[1..]));
    }
  }

  /** What is shown of a log of escaped names is what is shown of the log. */
  lemma SameShown(log: seq<WriteEntry>, cuts: seq<nat>, c: Channel)
    requires Cutting(log, cuts)
    ensures Cutting(Api.FromLog(log), cuts)
    ensures ShownLog(Api.FromLog(log), cuts, Api.FromChannel(c)) == Api.FromLog(ShownLog(log, cuts, c))
  {
    hide Taken, Decimal, EscapeWith;
    var segs := ShownAll(Segments(log, cuts), cuts, c);
    var mapped := ShownAll(Segments(Api.FromLog(log), cuts), cuts, Api.FromChannel(c));
    forall k | 0 <= k < |cuts| ensures mapped[k] == Api.FromLog(segs[k]) {
      assert Segment(Api.FromLog(log), cuts, k) == Api.FromLog(Segment(log, cuts, k));
      Api.SameTaken(c.name, cuts[k], |Segment(log, cuts, k)|);
    }
    FlatMapped(segs, mapped);
  }

  /** What is shown of a channel depends on its name only. */
  lemma ShownByName(log: seq<WriteEntry>, cuts: seq<nat>, name: Str, id: Id)
    requires Cutting(log, cuts)
    ensures ShownLog(log, cuts, Channel(name, id)) == ShownLog(log, cuts, Channel(name, 0))
  {
    hide Taken;
    var a, b := ShownAll(Segments(log, cuts), cuts, Channel(name, id)), ShownAll(Segments(log, cuts), cuts, Channel(name, 0));
    assert a == b;
  }

  ghost function ShownOf(s: Source, name: Str): seq<WriteEntry>
    requires Recorded(s)
  {
    RecordedIsFiled(s);
    ShownLog(AcceptedBy(s), TraceOf(s).cuts, Channel(name, 0))
  }

  lemma SameElements(a: seq<Rec>, b: seq<Rec>)
    requires multiset(a) == multiset(b)
    ensures forall x :: x in a <==> x in b
  {
    forall x ensures x in a <==> x in b {
      assert x in a <==> x in multiset(a);
      assert x in b <==> x in multiset(b);
    }
  }

  /** What is read of a channel is among what is shown of it, and covers its timestamps. */
  lemma ReadIsShown(s: Source, r: Reader, c: Channel)
    requires Recorded(s) && OpenedBy(s, r) && Key(s.version, c) == c
    ensures (var found, shown := ReadBack(FilesOf(s), r.byId, r.byChn, Api.FromChannel(c)), Recs(s.version, ShownOf(s, c.name), c);
             && (forall t | t in found :: found[t].rcv == t && found[t] in shown)
             && (forall x | x in shown :: x.rcv in found))
  {
    RecordedIsFiled(s);
    var t, ec := TraceOf(s), Api.FromChannel(c);
    hide Run, Indexed, Complete, ReadBack, Filed, AllOnDisk, FilesIn, EscapeWith, Merged, Segments, Recs, Firsts;
    ReadBackIsMerged(FilesOf(s), r.origins, r.byId, r.byChn, ec);
    MergedInOrder(t, s.order, ec);
    var segs := ShownAll(Segments(t.log, t.cuts), t.cuts, ec);
    FlatPicked(segs, s.order);
    var flat := Flat(Pick(segs, s.order));
    SameShown(AcceptedBy(s), t.cuts, c);
    ShownByName(AcceptedBy(s), t.cuts, c.name, c.id);
    Api.SameRecs(s.version, ShownOf(s, c.name), c);
    hide Orders, Flat, Pick, ShownAll;
    RecsPermuted(s.version, flat, Api.FromLog(ShownOf(s, c.name)), ec);
    FirstsOfRecs(s.version, flat, ec);
    var shown := Recs(s.version, ShownOf(s, c.name), c);
    assert multiset(Recs(s.version, flat, ec)) == multiset(shown);
    SameElements(Recs(s.version, flat, ec), shown);
  }

  lemma FoundIsShown(s: Source, r: Reader, name: Str, t: int)
    requires Recorded(s) && OpenedBy(s, r) && t in NameRecs(Measured(s, r), name)
    ensures (var x := NameRecs(Measured(s, r), name)[t]; x.rcv == t && x in NameRecords(ShownOf(s, name), name))
  {
    hide Recorded, OpenedBy, Measured, FilesOf, ShownOf, NameRecs, NameRecords, ReadBack, IdsOf;
    var m := Measured(s, r);
    NameRecsFrom(m, name, t);
    var id: nat :| id in IdsOf(m, name) && t in m[Channel(name, id)] && NameRecs(m, name)[t] == m[Channel(name, id)][t];
    var c := Channel(name, id);
    MeasuredChannel(s, r, c);
    MeasuredRecords(s, r, c);
    ReadIsShown(s, r, c);
    RecsAreNamed(s.version, ShownOf(s, name), c);
  }

  lemma ShownIsFound(s: Source, r: Reader, name: Str, x: Rec)
    requires Recorded(s) && OpenedBy(s, r) && x in NameRecords(ShownOf(s, name), name)
    ensures x.rcv in NameRecs(Measured(s, r), name)
  {
    hide Recorded, OpenedBy, Measured, FilesOf, ShownOf, NameRecs, NameRecords, ReadBack;
    var m := Measured(s, r);
    var c := NamedIsInRecs(s.version, ShownOf(s, name), name, x);
    ReadIsShown(s, r, c);
    RecordedIsMeasured(s, r, c, x.rcv);
    MeasuredRecords(s, r, c);
    NameRecsFrom(m, name, x.rcv);
    assert c.id as nat in IdsOf(m, name) && x.rcv in m[Channel(name, c.id)];
  }

  /** By name the opened recording has all records accepted for the name, whatever their ids,
      exactly if no two of them have the same receive timestamp and none is in a file with a
      payload whose number is the name. */
  lemma NameIsAllIff(s: Source, r: Reader, name: Str)
    requires Recorded(s) && OpenedBy(s, r)
    ensures multiset(Range(NameRecs(Measured(s, r), name))) == multiset(NameRecords(AcceptedBy(s), name))
       <==> DistinctTimes(NameRecords(AcceptedBy(s), name)) && NameShown(s, name)
  {
    RecordedIsFiled(s);
    Api.RunStartsAtZero(s.version, s.dir, s.base, s.limit, s.ops);
    ShownLogIff(V5, AcceptedBy(s), TraceOf(s).cuts, Channel(name, 0));
    NamedIsV5(AcceptedBy(s), name);
    NamedIsV5(ShownOf(s, name), name);
    hide Run, Recorded, OpenedBy, Measured, FilesOf, NameRecs, NameRecords, DistinctTimes, NothingHidden, ShownLog, Recs;
    var found, shown := NameRecs(Measured(s, r), name), NameRecords(ShownOf(s, name), name);
    forall t | t in found ensures found[t].rcv == t && found[t] in shown {
      FoundIsShown(s, r, name, t);
    }
    forall x | x in shown ensures x.rcv in found {
      ShownIsFound(s, r, name, x);
    }
    ReadIsAllIff(found, shown, NameRecords(AcceptedBy(s), name));
  }

  // ---------- Recorded, cut, and opened again ----------

  lemma {:induction false} RecsHaveData(v: Version, log: seq<WriteEntry>, c: Channel)
    ensures forall r | r in Recs(v, log, c) :: r.data.Some?
  {
    if log != [] {
      RecsHaveData(v, log[..|log| - 1], c);
    }
  }

  lemma ReadRecordsHaveData(s: Source, r: Reader, c: Channel, t: int)
    requires Recorded(s) && OpenedBy(s, r)
    requires t in ReadBack(FilesOf(s), r.byId, r.byChn, c)
    ensures ReadBack(FilesOf(s), r.byId, r.byChn, c)[t].data.Some?
  {
    RecordedIsFiled(s);
    ReadBackIsMerged(FilesOf(s), r.origins, r.byId, r.byChn, c);
    MergedInOrder(TraceOf(s), s.order, c);
    var log := Flat(Pick(ShownAll(Segments(TraceOf(s).log, TraceOf(s).cuts), TraceOf(s).cuts, c), s.order));
    FirstsOfRecs(s.version, log, c);
    hide Run, Filed, Indexed, Complete, Orders, AllOnDisk, FilesIn, ReadBack, Merged, Firsts, Flat, Pick, ShownAll, Segments, Recs;
    RecsHaveData(s.version, log, c);
  }

  /** An opened recording can be cut. */
  lemma MeasuredIsReadable(s: Source, r: Reader)
    requires Recorded(s) && OpenedBy(s, r)
    ensures Readable(Measured(s, r)) && forall n | n in ChannelNames(Measured(s, r)) :: Api.NameFits(n)
  {
    hide Recorded, OpenedBy, Measured, FilesOf, ReadBack;
    var m := Measured(s, r);
    forall c | c in m ensures Api.NameFits(c.name) && forall t | t in m[c] :: m[c][t].data.Some? {
      MeasuredChannel(s, r, c);
      MeasuredRecords(s, r, c);
      forall t | t in m[c] ensures m[c][t].data.Some? {
        ReadRecordsHaveData(s, r, Api.FromChannel(c), t);
      }
    }
  }

  /** What of a recording belongs into a cut. */
  predicate InCut(s: Selection, start: int, end: int, entries: seq<WriteEntry>, name: Str, t: int, x: Rec) {
    && (s.valid && s.operation.Include? ==> name in s.mentioned)
    && (s.valid && s.operation.Exclude? ==> name !in s.mentioned)
    && start <= t <= end && x in NameRecords(entries, name) && x.rcv == t
  }

  lemma FilteredIsInCut(src: Source, r: Reader, s: Selection, start: int, end: int, name: Str, t: int, x: Rec)
    requires Recorded(src) && OpenedBy(src, r)
    requires NameShown(src, name) && DistinctTimes(NameRecords(AcceptedBy(src), name))
    ensures (var f := Filtered(Measured(src, r), s, start, end, name);
             t in f && f[t] == x <==> InCut(s, start, end, AcceptedBy(src), name, t, x))
  {
    hide Recorded, OpenedBy, NameShown, Measured, AcceptedBy, NameRecs, NameRecords, DistinctTimes;
    NameIsMeasured(src, r, name, t, x);
    var m := Measured(src, r);
    if t in NameRecs(m, name) {
      NameRecsFrom(m, name, t);
      var id: nat :| id in IdsOf(m, name) && t in m[Channel(name, id)];
      assert name in ChannelNames(m) by {
        assert Channel(name, id) in m;
      }
    }
  }

  /** Recorded, opened, cut, and opened again: if the accepted records of a name have distinct
      receive timestamps and none is hidden, in the recording or in the cut, a reader of the
      cut finds for the name exactly the records that were accepted for it, lie in the window
      and whose name is selected; with any splits on both sides, and in whatever orders the
      files of both are listed. */
  lemma CutOfRecording(src: Source, r: Reader, infos: map<Str, Info>, s: Selection, start: int, end: int,
                       out: Source, q: Reader, name: Str, t: int, x: Rec)
    requires Recorded(src) && OpenedBy(src, r)
    requires NameShown(src, name) && DistinctTimes(NameRecords(AcceptedBy(src), name))
    requires out.version == V5 && out.dir != [] && out.base != []
    requires Carried(Cut(Measured(src, r), infos, s, start, end, Sorted(ChannelNames(Measured(src, r)))), out.ops)
    requires Recorded(out) && OpenedBy(out, q)
    requires NameShown(out, name)
    ensures (var found := ReadBack(FilesOf(out), q.byId, q.byChn, Api.FromChannel(Channel(name, 0)));
             t in found && found[t] == x <==> InCut(s, start, end, AcceptedBy(src), name, t, x))
  {
    var m := Measured(src, r);
    MeasuredIsReadable(src, r);
    FilteredIsInCut(src, r, s, start, end, name, t, x);
    CarriedIsAccepted(out.dir, out.base, out.limit, Cut(m, infos, s, start, end, Sorted(ChannelNames(m))), out.ops);
    RecordedIsFiled(out);
    hide Run, Measured, ReadBack, Cut, Carried, Filtered, InCut, Orders, Indexed, Complete, NothingHidden, DistinctTimes,
         NameRecords, ChannelNames, Sorted, Readable, AllOnDisk, FilesIn;
    CuttingIsAFilter(m, infos, s, start, end, out.dir, out.base, out.limit, out.ops, out.order, q.origins, q.byId, q.byChn, name);
  }
}
