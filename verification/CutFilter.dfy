/** Cutting is a filter: what a reader finds in the output of the measurement cutter. */
module CutFilter {
  import opened Strings
  import opened Ordering
  import opened Entries
  import opened Layout
  import opened Recording
  import opened MeasDir
  import opened DirFacts
  import opened Lossless
  import opened Queries
  import opened NameApi
  import opened Cutter
  import Api

  // ---------- From calls to the store ----------

  /** The store carries out a call, and every file it needs can be created. */
  predicate CarriesOut(call: Call, op: Op) {
    match call
    case CreateChannel(name, info) => op == Describe(Channel(name, 0), info)
    case SetData(entry) => op.Add? && op.entry == entry && op.answers.first.Opened? && op.answers.next.Opened?
  }

  /** The exporter's calls, and the close when it is destroyed. */
  predicate Carried(calls: seq<Call>, ops: seq<Op>) {
    && |ops| == |calls| + 1 && ops[|calls|].Close?
    && forall i | 0 <= i < |calls| :: CarriesOut(calls[i], ops[i])
  }

  function EntriesOf(calls: seq<Call>): seq<WriteEntry> {
    if calls == [] then []
    else
      var last := calls[|calls| - 1];
      EntriesOf(calls[..|calls| - 1]) + if last.SetData? then [last.entry] else []
  }

  lemma {:induction false} EntriesOfAppend(a: seq<Call>, b: seq<Call>)
    ensures EntriesOf(a + b) == EntriesOf(a) + EntriesOf(b)
  {
    if b == [] {
      assert a + b == a;
    } else {
      var n := |b| - 1;
      assert (a + b)[..|a + b| - 1] == a + b[..n];
      EntriesOfAppend(a, b[..n]);
    }
  }

  lemma AddSucceeds(w: Writer, e: WriteEntry, a: Answers)
    requires Valid(w) && w.dir != [] && w.base != [] && a.first.Opened? && a.next.Opened?
    ensures AddEntry(w, e, a).1
  {
    hide FilePath, NewFile, Finish, Emptied, AddRow, Fits;
  }

  lemma StepPlace(t: Trace, op: Op)
    requires Valid(t.w)
    ensures Step(t, op).w.dir == t.w.dir && Step(t, op).w.base == t.w.base
  {
    hide FilePath, NewFile, Finish, Emptied, Fits, Valid, AddRow, Repeated;
  }

  lemma {:induction false} RunPlace(version: Version, dir: Str, base: Str, limit: nat, ops: seq<Op>)
    ensures Run(version, dir, base, limit, ops).w.dir == dir && Run(version, dir, base, limit, ops).w.base == base
  {
    if ops != [] {
      RunPlace(version, dir, base, limit, ops[..|ops| - 1]);
      StepPlace(Run(version, dir, base, limit, ops[..|ops| - 1]), ops[|ops| - 1]);
      hide Step;
    }
  }

  lemma {:induction false} AllAccepted(dir: Str, base: Str, limit: nat, calls: seq<Call>, ops: seq<Op>)
    requires dir != [] && base != [] && |ops| == |calls|
    requires forall i | 0 <= i < |calls| :: CarriesOut(calls[i], ops[i])
    ensures Api.Accepted(V5, dir, base, limit, ops) == EntriesOf(calls)
  {
    if calls != [] {
      var n := |calls| - 1;
      AllAccepted(dir, base, limit, calls[..n], ops[..n]);
      assert CarriesOut(calls[n], ops[n]);
      if ops[n].Add? {
        RunPlace(V5, dir, base, limit, Api.FromOps(ops[..n]));
        AddSucceeds(Run(V5, dir, base, limit, Api.FromOps(ops[..n])).w, Api.FromEntry(ops[n].entry), ops[n].answers);
      }
      hide Run, AddEntry;
    }
  }

  lemma CarriedIsAccepted(dir: Str, base: Str, limit: nat, calls: seq<Call>, ops: seq<Op>)
    requires dir != [] && base != [] && Carried(calls, ops)
    ensures Api.Accepted(V5, dir, base, limit, ops) == EntriesOf(calls)
    ensures !Run(V5, dir, base, limit, Api.FromOps(ops)).w.open
  {
    var n := |calls|;
    AllAccepted(dir, base, limit, calls, ops[..n]);
    assert Api.FromOps(ops)[|Api.FromOps(ops)| - 1] == Close;
  }

  // ---------- The records of the output ----------

  lemma {:induction false} RecsAppend(v: Version, a: seq<WriteEntry>, b: seq<WriteEntry>, c: Channel)
    ensures Recs(v, a + b, c) == Recs(v, a, c) + Recs(v, b, c)
  {
    if b == [] {
      assert a + b == a;
    } else {
      var n := |b| - 1;
      assert (a + b)[..|a + b| - 1] == a + b[..n];
      RecsAppend(v, a, b[..n], c);
    }
  }

  function RecsAt(recs: RecMap, times: seq<int>): (r: seq<Rec>)
    requires InDomain(recs, times)
    ensures |r| == |times|
  {
    seq(|times|, i requires 0 <= i < |times| => recs[times[i]])
  }

  lemma RecsOneMore(log: seq<WriteEntry>, e: WriteEntry, c: Channel)
    ensures Recs(V5, log + [e], c) == Recs(V5, log, c) + (if Key(V5, e.channel) == c then [RecordOf(e)] else [])
  {
    assert (log + [e])[..|log|] == log;
  }

  lemma EntryOneMore(name: Str, recs: RecMap, times: seq<int>)
    requires InDomain(recs, times) && times != []
    ensures (var n := |times| - 1;
             && InDomain(recs, times[..n])
             && EntriesOf(EntriesAt(name, recs, times))
                == EntriesOf(EntriesAt(name, recs, times[..n])) + [EntryFor(name, recs[times[n]])])
  {
    var n := |times| - 1;
    var calls := EntriesAt(name, recs, times);
    assert calls[..n] == EntriesAt(name, recs, times[..n]);
    hide EntryFor;
    assert calls[n] == SetData(EntryFor(name, recs[times[n]]));
    hide EntriesAt;
  }

  lemma EntryIsRecord(name: Str, recs: RecMap, t: int)
    requires t in recs && recs[t].data.Some?
    ensures RecordOf(EntryFor(name, recs[t])) == recs[t] && Key(V5, EntryFor(name, recs[t]).channel) == Channel(name, 0)
  {
  }

  lemma RecsAtMore(recs: RecMap, times: seq<int>)
    requires InDomain(recs, times) && times != []
    ensures InDomain(recs, times[..|times| - 1])
    ensures RecsAt(recs, times) == RecsAt(recs, times[..|times| - 1]) + [recs[times[|times| - 1]]]
  {
  }

  lemma {:induction false} ChannelRecs(name: Str, recs: RecMap, times: seq<int>, c: Str)
    requires InDomain(recs, times) && forall t | t in recs :: recs[t].data.Some?
    ensures Recs(V5, EntriesOf(EntriesAt(name, recs, times)), Channel(c, 0)) == if c == name then RecsAt(recs, times) else []
  {
    if times != [] {
      var n := |times| - 1;
      EntryOneMore(name, recs, times);
      ChannelRecs(name, recs, times[..n], c);
      var entry := EntryFor(name, recs[times[n]]);
      EntryIsRecord(name, recs, times[n]);
      RecsAtMore(recs, times);
      hide Recs, RecsAt, EntriesAt, EntryFor, RecordOf, InDomain, EntriesOf;
      RecsOneMore(EntriesOf(EntriesAt(name, recs, times[..n])), entry, Channel(c, 0));
    } else {
      assert EntriesAt(name, recs, times) == [];
    }
  }

  function CutRecs(m: Measurement, s: Selection, start: int, end: int, c: Str): seq<Rec> {
    var recs := NameRecs(m, c);
    TimesInDomain(recs, start, end);
    if c in ChannelNames(m) && Selected(s, c) then RecsAt(recs, Times(Windowed(recs, start, end).Keys)) else []
  }

  lemma NameRecsReadable(m: Measurement, name: Str)
    requires Readable(m)
    ensures forall t | t in NameRecs(m, name) :: NameRecs(m, name)[t].data.Some?
  {
    forall t | t in NameRecs(m, name) ensures NameRecs(m, name)[t].data.Some? {
      NameRecsFrom(m, name, t);
      hide NameRecs;
      var id: nat :| id in IdsOf(m, name) && t in m[Channel(name, id)] && NameRecs(m, name)[t] == m[Channel(name, id)][t];
      assert Channel(name, id) in m;
    }
  }

  lemma OneChannelCut(m: Measurement, infos: map<Str, Info>, start: int, end: int, name: Str, c: Str)
    requires Readable(m)
    ensures (var recs := NameRecs(m, name);
             && InDomain(recs, Times(Windowed(recs, start, end).Keys))
             && Recs(V5, EntriesOf(ChannelCalls(m, infos, name, start, end)), Channel(c, 0))
                == if c == name then RecsAt(recs, Times(Windowed(recs, start, end).Keys)) else [])
  {
    hide NameRecs, Times, Windowed, EntriesAt, Recs, RecsAt, ExportedInfo, Readable;
    var recs := NameRecs(m, name);
    TimesInDomain(recs, start, end);
    NameRecsReadable(m, name);
    var times := Times(Windowed(recs, start, end).Keys);
    var head := CreateChannel(name, ExportedInfo(infos, name));
    assert EntriesOf([head]) == [] by {
      assert [head][..0] == [];
    }
    EntriesOfAppend([head], EntriesAt(name, recs, times));
    assert [] + EntriesOf(EntriesAt(name, recs, times)) == EntriesOf(EntriesAt(name, recs, times));
    ChannelRecs(name, recs, times, c);
  }

  lemma CutStep(m: Measurement, infos: map<Str, Info>, s: Selection, start: int, end: int, names: seq<Str>, c: Str)
    requires Readable(m) && names != []
    ensures (var n := |names| - 1;
             Recs(V5, EntriesOf(Cut(m, infos, s, start, end, names)), Channel(c, 0))
             == Recs(V5, EntriesOf(Cut(m, infos, s, start, end, names[..n])), Channel(c, 0))
                + if Selected(s, names[n]) then Recs(V5, EntriesOf(ChannelCalls(m, infos, names[n], start, end)), Channel(c, 0)) else [])
  {
    var n := |names| - 1;
    var front := Cut(m, infos, s, start, end, names[..n]);
    var calls := if Selected(s, names[n]) then ChannelCalls(m, infos, names[n], start, end) else [];
    assert Cut(m, infos, s, start, end, names) == front + calls;
    EntriesOfAppend(front, calls);
    RecsAppend(V5, EntriesOf(front), EntriesOf(calls), Channel(c, 0));
    hide ChannelCalls, Cut, Selected;
  }

  lemma OneNameCut(m: Measurement, infos: map<Str, Info>, s: Selection, start: int, end: int, name: Str, c: Str)
    requires Readable(m) && name in ChannelNames(m)
    ensures (if Selected(s, name) then Recs(V5, EntriesOf(ChannelCalls(m, infos, name, start, end)), Channel(c, 0)) else [])
         == if c == name then CutRecs(m, s, start, end, c) else []
  {
    OneChannelCut(m, infos, start, end, name, c);
    hide ChannelCalls, NameRecs, Times, Windowed, RecsAt, Selected, ChannelNames, Readable, EntriesOf, Recs, InDomain;
  }

  lemma NothingCutRecs(m: Measurement, infos: map<Str, Info>, s: Selection, start: int, end: int, c: Str)
    ensures Recs(V5, EntriesOf(Cut(m, infos, s, start, end, [])), Channel(c, 0)) == []
  {
    hide ChannelCalls, Selected;
  }

  lemma {:induction false} CutHasRecs(m: Measurement, infos: map<Str, Info>, s: Selection, start: int, end: int, names: seq<Str>, c: Str)
    requires Readable(m)
    requires forall i, j | 0 <= i < j < |names| :: names[i] != names[j]
    requires forall n | n in names :: n in ChannelNames(m)
    ensures Recs(V5, EntriesOf(Cut(m, infos, s, start, end, names)), Channel(c, 0))
         == if c in names then CutRecs(m, s, start, end, c) else []
  {
    NothingCutRecs(m, infos, s, start, end, c);
    hide ChannelCalls, CutRecs, Selected, ChannelNames, Readable, Recs, Cut, EntriesOf;
    if names != [] {
      var n := |names| - 1;
      CutHasRecs(m, infos, s, start, end, names[..n], c);
      CutStep(m, infos, s, start, end, names, c);
      assert names[n] in names;
      OneNameCut(m, infos, s, start, end, names[n], c);
      assert c in names <==> c in names[..n] || c == names[n];
      assert names[n] !in names[..n];
    }
  }

  lemma ListingRepresents(window: RecMap, times: seq<int>, all: seq<Rec>)
    requires Increasing(times) && |all| == |times|
    requires forall t :: t in times <==> t in window
    requires forall i | 0 <= i < |times| :: times[i] in window && all[i] == window[times[i]]
    ensures DistinctTimes(all) && Represents(window, multiset(all))
  {
    forall i, j | 0 <= i < j < |all| ensures all[i].rcv != all[j].rcv {
      assert all[i].rcv == times[i] && all[j].rcv == times[j];
    }
    forall t | t in window ensures window[t].rcv == t && window[t] in multiset(all) {
      var i :| 0 <= i < |times| && times[i] == t;
      assert all[i] in all;
    }
    forall r | r in multiset(all) ensures r.rcv in window {
      var i :| 0 <= i < |all| && all[i] == r;
      assert all[i].rcv == times[i];
    }
  }

  lemma WindowIsRepresented(recs: RecMap, start: int, end: int)
    ensures InDomain(recs, Times(Windowed(recs, start, end).Keys))
    ensures (var all := RecsAt(recs, Times(Windowed(recs, start, end).Keys));
             DistinctTimes(all) && Represents(Windowed(recs, start, end), multiset(all)))
  {
    TimesInDomain(recs, start, end);
    hide Times, DistinctTimes, Represents;
    var window := Windowed(recs, start, end);
    var times := Times(window.Keys);
    forall i | 0 <= i < |times| ensures times[i] in window && RecsAt(recs, times)[i] == window[times[i]] {
      assert times[i] in times;
    }
    assert Increasing(times);
    ListingRepresents(window, times, RecsAt(recs, times));
  }

  lemma NothingIsRepresented()
    ensures DistinctTimes([]) && Represents(map[], multiset([]))
  {
  }

  /** What the output should give back for a name. */
  function Filtered(m: Measurement, s: Selection, start: int, end: int, c: Str): RecMap {
    if c in ChannelNames(m) && Selected(s, c) then Windowed(NameRecs(m, c), start, end) else map[]
  }

  lemma CutIsRepresented(m: Measurement, s: Selection, start: int, end: int, c: Str)
    ensures DistinctTimes(CutRecs(m, s, start, end, c))
    ensures Represents(Filtered(m, s, start, end, c), multiset(CutRecs(m, s, start, end, c)))
  {
    WindowIsRepresented(NameRecs(m, c), start, end);
    NothingIsRepresented();
    hide NameRecs, Windowed, Times, DistinctTimes, Represents, Selected, ChannelNames, RecsAt;
  }

  // ---------- Main result ----------

  lemma CallsAreNameable(m: Measurement, infos: map<Str, Info>, s: Selection, start: int, end: int, names: seq<Str>, call: Call)
    requires call in Cut(m, infos, s, start, end, names)
    ensures (if call.CreateChannel? then call.name else call.entry.channel.name) in names
  {
    var n := |names| - 1;
    if call in Cut(m, infos, s, start, end, names[..n]) {
      CallsAreNameable(m, infos, s, start, end, names[..n], call);
    } else {
      assert call in ChannelCalls(m, infos, names[n], start, end);
      hide NameRecs, Times, Windowed;
    }
  }

  lemma NotCut(m: Measurement, s: Selection, start: int, end: int, c: Str)
    ensures c !in ChannelNames(m) ==> CutRecs(m, s, start, end, c) == []
  {
  }

  lemma OpsAreNameable(m: Measurement, infos: map<Str, Info>, s: Selection, start: int, end: int, ops: seq<Op>)
    requires forall n | n in ChannelNames(m) :: Api.NameFits(n)
    requires Carried(Cut(m, infos, s, start, end, Sorted(ChannelNames(m))), ops)
    ensures forall op | op in ops :: Api.Nameable(op)
  {
    hide Cut, ChannelNames, Sorted;
    var calls := Cut(m, infos, s, start, end, Sorted(ChannelNames(m)));
    forall op | op in ops ensures Api.Nameable(op) {
      var i :| 0 <= i < |ops| && op == ops[i];
      if i < |calls| {
        assert CarriesOut(calls[i], ops[i]);
        CallsAreNameable(m, infos, s, start, end, Sorted(ChannelNames(m)), calls[i]);
      }
    }
  }

  lemma FilteredIsFirsts(m: Measurement, infos: map<Str, Info>, s: Selection, start: int, end: int, c: Str)
    requires Readable(m)
    ensures (var entries := EntriesOf(Cut(m, infos, s, start, end, Sorted(ChannelNames(m))));
             && DistinctTimes(Recs(V5, entries, Channel(c, 0)))
             && Firsts(V5, entries, Channel(c, 0)) == Filtered(m, s, start, end, c))
  {
    hide DistinctTimes, Represents, Recs, Firsts, Cut, Filtered, CutRecs, ChannelNames, Sorted, Readable;
    var entries := EntriesOf(Cut(m, infos, s, start, end, Sorted(ChannelNames(m))));
    SortedOnce(ChannelNames(m));
    CutHasRecs(m, infos, s, start, end, Sorted(ChannelNames(m)), c);
    NotCut(m, s, start, end, c);
    CutIsRepresented(m, s, start, end, c);
    assert Recs(V5, entries, Channel(c, 0)) == CutRecs(m, s, start, end, c);
    FirstsRepresent(V5, entries, Channel(c, 0));
    DistinctTimesIsBag(CutRecs(m, s, start, end, c));
    hide DistinctBag;
    RepresentedOnce(Firsts(V5, entries, Channel(c, 0)), Filtered(m, s, start, end, c), multiset(CutRecs(m, s, start, end, c)));
  }

  /** Cutting is a filter: for every measurement whose names a file can hold, whatever the
      sizes and splits of the output and in whatever order its files are listed, a reader of
      the output finds for a name exactly the records of that name inside the window if it is
      selected, payloads included, and nothing if it is not; if and only if none of these
      records is in a file with a payload whose number is the name. */
  lemma CuttingIsAFilter(m: Measurement, infos: map<Str, Info>, s: Selection, start: int, end: int,
                         dir: Str, base: Str, limit: nat, ops: seq<Op>, order: seq<nat>,
                         origins: seq<Origin>, byId: map<int, Ref>, byChn: map<Channel, EntrySet>, name: Str)
    requires Readable(m) && dir != [] && base != []
    requires forall n | n in ChannelNames(m) :: Api.NameFits(n)
    requires Carried(Cut(m, infos, s, start, end, Sorted(ChannelNames(m))), ops)
    requires Orders(order, |Run(V5, dir, base, limit, Api.FromOps(ops)).cuts|)
    ensures AllOnDisk(Run(V5, dir, base, limit, Api.FromOps(ops)).w, order)
    ensures (var t := Run(V5, dir, base, limit, Api.FromOps(ops));
             var entries := EntriesOf(Cut(m, infos, s, start, end, Sorted(ChannelNames(m))));
             && Cutting(entries, t.cuts)
             && (var files := FilesIn(t.w, order);
                 Indexed(files, origins, byId, byChn) && Complete(files, origins) ==>
                   (ReadBack(files, byId, byChn, Api.FromChannel(Channel(name, 0))) == Filtered(m, s, start, end, name)
                    <==> NothingHidden(V5, entries, t.cuts, Channel(name, 0)))))
  {
    hide Run, Indexed, Complete, Orders, DistinctTimes, Recs, Firsts, ReadBack, FilePath, Cut, Filtered, ChannelNames, Sorted,
         StorableOp, Readable, NothingHidden, ShownLog, AllArchived, Partial, Tabulated, Paths, Carried, AllOnDisk;
    var entries := EntriesOf(Cut(m, infos, s, start, end, Sorted(ChannelNames(m))));
    OpsAreNameable(m, infos, s, start, end, ops);
    CarriedIsAccepted(dir, base, limit, Cut(m, infos, s, start, end, Sorted(ChannelNames(m))), ops);
    Api.RunIsCut(V5, dir, base, limit, ops);
    FilteredIsFirsts(m, infos, s, start, end, name);
    Api.ReadsFirstsIff(V5, dir, base, limit, ops, order, origins, byId, byChn, Channel(name, 0));
  }

  lemma NamedHaveRecords(m: Measurement, name: Str)
    ensures NameRecs(m, name) != map[] ==> name in ChannelNames(m)
  {
    if t :| t in NameRecs(m, name) {
      NameRecsFrom(m, name, t);
      hide NameRecs;
      var id: nat :| id in IdsOf(m, name) && t in m[Channel(name, id)];
      assert Channel(name, id) in m;
    }
  }

  /** So the output has, of a name that is not hidden in it, the records inside the window if the
      selection is valid and the name is mentioned to be included, or not mentioned to be
      excluded, or if there is no valid selection; and otherwise nothing. */
  lemma CutIsByName(m: Measurement, infos: map<Str, Info>, s: Selection, start: int, end: int,
                    dir: Str, base: Str, limit: nat, ops: seq<Op>, order: seq<nat>,
                    origins: seq<Origin>, byId: map<int, Ref>, byChn: map<Channel, EntrySet>, name: Str)
    requires Readable(m) && dir != [] && base != []
    requires forall n | n in ChannelNames(m) :: Api.NameFits(n)
    requires Carried(Cut(m, infos, s, start, end, Sorted(ChannelNames(m))), ops)
    requires Orders(order, |Run(V5, dir, base, limit, Api.FromOps(ops)).cuts|)
    requires AllOnDisk(Run(V5, dir, base, limit, Api.FromOps(ops)).w, order)
    requires (var files := FilesIn(Run(V5, dir, base, limit, Api.FromOps(ops)).w, order);
              Indexed(files, origins, byId, byChn) && Complete(files, origins))
    requires forall k: nat | k < |EntriesOf(Cut(m, infos, s, start, end, Sorted(ChannelNames(m))))| :: name != Decimal(k)
    ensures (var found := ReadBack(FilesIn(Run(V5, dir, base, limit, Api.FromOps(ops)).w, order), byId, byChn, Api.FromChannel(Channel(name, 0)));
             && (s.valid && s.operation.Include? ==>
                   forall t :: t in found <==> name in s.mentioned && t in NameRecs(m, name) && start <= t <= end)
             && (s.valid && s.operation.Exclude? ==>
                   forall t :: t in found <==> name !in s.mentioned && t in NameRecs(m, name) && start <= t <= end)
             && (!s.valid || s.operation.NoOperation? ==>
                   forall t :: t in found <==> t in NameRecs(m, name) && start <= t <= end)
             && forall t | t in found :: found[t] == NameRecs(m, name)[t])
  {
    hide Run, Indexed, Complete, Orders, ReadBack, Cut, ChannelNames, Sorted, Readable, NothingHidden, Carried, AllOnDisk, FilesIn, NameRecs,
         Decimal, EntriesOf;
    CuttingIsAFilter(m, infos, s, start, end, dir, base, limit, ops, order, origins, byId, byChn, name);
    var entries := EntriesOf(Cut(m, infos, s, start, end, Sorted(ChannelNames(m))));
    Api.SmallNumeralsOnly(V5, entries, Run(V5, dir, base, limit, Api.FromOps(ops)).cuts, Channel(name, 0));
    NamedHaveRecords(m, name);
  }

  /** The whole span trims nothing: a job whose trimming was rejected keeps every record of
      the selected names. */
  lemma WholeSpanKeepsAll(m: Measurement, s: Selection, start: int, end: int, name: Str)
    requires Timed(m) && IsSpan(m, start, end)
    ensures Filtered(m, s, start, end, name) == if name in ChannelNames(m) && Selected(s, name) then NameRecs(m, name) else map[]
  {
    SpanIsWhole(m, start, end);
    hide NameRecs, IsSpan, Selected, ChannelNames;
  }
}
