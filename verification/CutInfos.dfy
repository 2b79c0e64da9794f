/** The type information in the output of the measurement cutter
    (app/meas_cutter/src/measurement_importer.cpp:66-80,
    app/meas_cutter/src/measurement_exporter.cpp:45-72). */
module CutInfos {
  import opened Strings
  import opened Escape
  import opened Hdf5
  import opened Ordering
  import opened Layout
  import opened Recording
  import opened MeasDir
  import opened Lossless
  import opened NameApi
  import opened Queries
  import opened Cutter
  import opened CutFilter
  import opened TypeInfos
  import Api

  // ---------- What comes back of exported information ----------

  /** Of the information of a name, a reader of the cut gets all exactly if its encoding is one
      of the two the exporter knows, and a V5 file can hold it. */
  predicate Survives(info: Info) { (info.encoding == PROTO || info.encoding == []) && SurvivesV5(info) }

  lemma PlainReturn(info: Info)
    requires info.encoding == []
    ensures Returned(V5, info).encoding != [] ==> |Returned(V5, info).name| < |info.name|
  {
  }

  lemma ReturnedIff(info: Info)
    ensures Returned(V5, info) == info <==> SurvivesV5(info)
  {
    AttributeRoundTripIff(CombinedType(info));
    AttributeRoundTripIff(info.descriptor);
    SplitTypeIff(info);
    NulTypeIsLost(info);
    assert forall combined, d :: SplitType(combined, d).descriptor == d;
    hide CombinedType, SplitType;
  }

  lemma ExportedReturnsIff(infos: map<Str, Info>, name: Str)
    requires name in infos
    ensures Returned(V5, ExportedInfo(infos, name)) == infos[name] <==> Survives(infos[name])
  {
    var info, exported := infos[name], ExportedInfo(infos, name);
    ReturnedIff(info);
    if info.encoding != PROTO && info.encoding != [] {
      PlainReturn(exported);
    }
    hide Returned, SurvivesV5;
  }

  // ---------- The calls of the exporter ----------

  /** Channels are created with the exported information, and before their entries are set. */
  ghost predicate CreatedFirst(infos: map<Str, Info>, calls: seq<Call>) {
    && (forall i | 0 <= i < |calls| && calls[i].CreateChannel? :: calls[i].info == ExportedInfo(infos, calls[i].name))
    && (forall i | 0 <= i < |calls| && calls[i].SetData? ::
          exists j :: 0 <= j < i && calls[j].CreateChannel? && Channel(calls[j].name, 0) == calls[i].entry.channel)
  }

  lemma CreatedFirstAppend(infos: map<Str, Info>, a: seq<Call>, b: seq<Call>)
    requires CreatedFirst(infos, a) && CreatedFirst(infos, b)
    ensures CreatedFirst(infos, a + b)
  {
    hide ExportedInfo;
    var all := a + b;
    forall i | 0 <= i < |all| && all[i].SetData?
      ensures exists j :: 0 <= j < i && all[j].CreateChannel? && Channel(all[j].name, 0) == all[i].entry.channel
    {
      if i < |a| {
        var j :| 0 <= j < i && a[j].CreateChannel? && Channel(a[j].name, 0) == a[i].entry.channel;
        assert all[j] == a[j];
      } else {
        var j :| 0 <= j < i - |a| && b[j].CreateChannel? && Channel(b[j].name, 0) == b[i - |a|].entry.channel;
        assert all[|a| + j] == b[j];
      }
    }
  }

  lemma ChannelCreatedFirst(m: Measurement, infos: map<Str, Info>, name: Str, start: int, end: int)
    ensures CreatedFirst(infos, ChannelCalls(m, infos, name, start, end))
  {
    hide NameRecs, Times, Windowed, ExportedInfo;
    var recs := NameRecs(m, name);
    TimesInDomain(recs, start, end);
    var calls := ChannelCalls(m, infos, name, start, end);
    assert calls[0] == CreateChannel(name, ExportedInfo(infos, name));
    forall i | 1 <= i < |calls| ensures calls[i].SetData? && calls[i].entry.channel == Channel(name, 0) {
    }
  }

  lemma {:induction false} CutCreatesFirst(m: Measurement, infos: map<Str, Info>, s: Selection, start: int, end: int, names: seq<Str>)
    ensures CreatedFirst(infos, Cut(m, infos, s, start, end, names))
  {
    if names != [] {
      var n := |names| - 1;
      CutCreatesFirst(m, infos, s, start, end, names[..n]);
      ChannelCreatedFirst(m, infos, names[n], start, end);
      var calls := if Selected(s, names[n]) then ChannelCalls(m, infos, names[n], start, end) else [];
      assert Cut(m, infos, s, start, end, names) == Cut(m, infos, s, start, end, names[..n]) + calls;
      hide ChannelCalls, Cut, Selected;
      CreatedFirstAppend(infos, Cut(m, infos, s, start, end, names[..n]), calls);
    }
  }

  // ---------- The operations of the store ----------

  /** Every description of a channel gives the exported information, and an entry comes after
      one. */
  ghost predicate DescribedFirst(infos: map<Str, Info>, ops: seq<Op>, name: Str) {
    && (forall i | 0 <= i < |ops| && ops[i].Describe? && ops[i].channel == Api.FromChannel(Channel(name, 0)) ::
          ops[i].info == ExportedInfo(infos, name))
    && (forall i | 0 <= i < |ops| && ops[i].Add? && ops[i].entry.channel == Api.FromChannel(Channel(name, 0)) ::
          exists j :: 0 <= j < i && ops[j].Describe? && ops[j].channel == Api.FromChannel(Channel(name, 0)))
    && (forall i | 0 <= i < |ops| :: (ops[i].Add? ==> ops[i].entry.channel.id == 0) && (ops[i].Describe? ==> ops[i].channel.id == 0))
  }

  lemma SameStored(a: Str, b: Str)
    ensures Api.FromChannel(Channel(a, 0)) == Api.FromChannel(Channel(b, 0)) <==> a == b
  {
    if EscapeTopic(a) == EscapeTopic(b) {
      EscapeInjective(TopicName, a, b);
    }
  }

  lemma CarriedDescribesFirst(infos: map<Str, Info>, calls: seq<Call>, ops: seq<Op>, name: Str)
    requires CreatedFirst(infos, calls) && Carried(calls, ops)
    ensures DescribedFirst(infos, Api.FromOps(ops), name)
  {
    hide ExportedInfo, EscapeWith;
    var stored := Api.FromOps(ops);
    forall i | 0 <= i < |calls| ensures CarriesOut(calls[i], ops[i]) && stored[i] == Api.FromOp(ops[i]) {
    }
    hide Api.FromOps;
    var c := Api.FromChannel(Channel(name, 0));
    forall i | 0 <= i < |ops| && stored[i].Describe? && stored[i].channel == c ensures stored[i].info == ExportedInfo(infos, name) {
      SameStored(calls[i].name, name);
    }
    forall i | 0 <= i < |ops| && stored[i].Add?
      ensures stored[i].entry.channel.id == 0
      ensures stored[i].entry.channel == c ==> exists j :: 0 <= j < i && stored[j].Describe? && stored[j].channel == c
    {
      var j :| 0 <= j < i && calls[j].CreateChannel? && Channel(calls[j].name, 0) == calls[i].entry.channel;
      assert CarriesOut(calls[j], ops[j]);
    }
  }

  /** The information set for a channel that has been described. */
  lemma {:induction false} DescribedIsExported(infos: map<Str, Info>, ops: seq<Op>, name: Str, n: nat)
    requires DescribedFirst(infos, ops, name) && n <= |ops|
    requires WasDescribed(V5, ops[..n], Api.FromChannel(Channel(name, 0)))
    ensures Described(V5, ops[..n], Api.FromChannel(Channel(name, 0))) == ExportedInfo(infos, name)
  {
    hide ExportedInfo, EscapeWith, Described;
    var c := Api.FromChannel(Channel(name, 0));
    assert ops[..n] == ops[..n - 1] + [ops[n - 1]];
    SameDescribed(V5, ops[..n - 1], ops[n - 1], c);
    if !(ops[n - 1].Describe? && Key(V5, ops[n - 1].channel) == c) {
      DescribedIsExported(infos, ops, name, n - 1);
    }
  }

  /** Accepted entries come from operations. */
  lemma {:induction false} LogIsAdded(version: Version, dir: Str, base: Str, limit: nat, ops: seq<Op>, e: WriteEntry) returns (i: nat)
    requires e in Run(version, dir, base, limit, ops).log
    ensures i < |ops| && ops[i].Add? && ops[i].entry == e
  {
    var n := |ops| - 1;
    var t := Run(version, dir, base, limit, ops[..n]);
    Api.StepLog(t, ops[n]);
    hide Step, AddEntry, Valid;
    if e in t.log {
      i := LogIsAdded(version, dir, base, limit, ops[..n], e);
    } else {
      i := n;
    }
  }

  /** A channel with an entry was described. */
  lemma AddedWasDescribed(infos: map<Str, Info>, dir: Str, base: Str, limit: nat, ops: seq<Op>, name: Str, n: nat)
    requires DescribedFirst(infos, ops, name) && n <= |ops|
    requires WasAdded(V5, Run(V5, dir, base, limit, ops[..n]).log, Api.FromChannel(Channel(name, 0)))
    ensures WasDescribed(V5, ops[..n], Api.FromChannel(Channel(name, 0)))
  {
    hide Run, ExportedInfo, EscapeWith;
    var c := Api.FromChannel(Channel(name, 0));
    var e :| e in Run(V5, dir, base, limit, ops[..n]).log && Key(V5, e.channel) == c;
    var i := LogIsAdded(V5, dir, base, limit, ops[..n], e);
    assert ops[i] == ops[..n][i];
    var j :| 0 <= j < i && ops[j].Describe? && ops[j].channel == c;
    assert ops[..n][j] == ops[j];
  }

  // ---------- The output ----------

  /** The past of each closed file is a part of the run. */
  lemma {:induction false} PastsArePrefixes(version: Version, dir: Str, base: Str, limit: nat, ops: seq<Op>, k: nat)
    requires k < |Pasts(version, dir, base, limit, ops)|
    ensures (var past := Pasts(version, dir, base, limit, ops)[k];
             && |past.ops| <= |ops| && past.ops == ops[..|past.ops|]
             && past.log == Run(version, dir, base, limit, past.ops).log)
  {
    hide Run;
    var front := ops[..|ops| - 1];
    var before := Pasts(version, dir, base, limit, front);
    if k < |before| {
      PastsArePrefixes(version, dir, base, limit, front, k);
      assert front[..|before[k].ops|] == ops[..|before[k].ops|];
    }
  }

  lemma CutAlwaysTold(infos: map<Str, Info>, dir: Str, base: Str, limit: nat, ops: seq<Op>, name: Str)
    requires DescribedFirst(infos, ops, name)
    ensures AlwaysTold(Run(V5, dir, base, limit, ops), Pasts(V5, dir, base, limit, ops), Api.FromChannel(Channel(name, 0)),
                       Returned(V5, ExportedInfo(infos, name)))
  {
    Api.RunVersion(V5, dir, base, limit, ops);
    hide Run, Pasts, ExportedInfo, EscapeWith, Returned, Described, Taken, WasDescribed, DescribedFirst;
    var t, pasts, c := Run(V5, dir, base, limit, ops), Pasts(V5, dir, base, limit, ops), Api.FromChannel(Channel(name, 0));
    forall k: nat | MentionedAt(t, pasts, k, c)
      ensures Returned(V5, Described(V5, pasts[k].ops, c)) == Returned(V5, ExportedInfo(infos, name))
    {
      PastsArePrefixes(V5, dir, base, limit, ops, k);
      var n := |pasts[k].ops|;
      var e :| e in pasts[k].log[t.cuts[k]..] && Key(V5, e.channel) == c;
      assert e in pasts[k].log;
      AddedWasDescribed(infos, dir, base, limit, ops, name, n);
      DescribedIsExported(infos, ops, name, n);
    }
  }

  lemma CutReports(infos: map<Str, Info>, dir: Str, base: Str, limit: nat, ops: seq<Op>, name: Str, order: seq<nat>)
    requires forall op | op in ops :: StorableOp(op)
    requires !Run(V5, dir, base, limit, ops).w.open && Orders(order, |Run(V5, dir, base, limit, ops).cuts|)
    requires DescribedFirst(infos, ops, name)
    ensures ReportsInOrder(Run(V5, dir, base, limit, ops), Pasts(V5, dir, base, limit, ops), Api.FromChannel(Channel(name, 0)),
                           Returned(V5, ExportedInfo(infos, name)), order)
  {
    CutAlwaysTold(infos, dir, base, limit, ops, name);
    RunTells(V5, dir, base, limit, ops);
    RunIsFiled(V5, dir, base, limit, ops);
    hide Run, Pasts, AlwaysTold, ReportsInOrder, Told, Filed, SlotsTell, Orders, Returned, ExportedInfo, EscapeWith, StorableOp,
         DescribedFirst;
    TraceReportsIff(Run(V5, dir, base, limit, ops), Pasts(V5, dir, base, limit, ops), Api.FromChannel(Channel(name, 0)),
                    Returned(V5, ExportedInfo(infos, name)));
  }

  /** In every order of its files the cut reports for a name, if it has an entry of it that is
      not hidden, the type information the name had exactly if that survives. */
  lemma CutInfoIff(m: Measurement, infos: map<Str, Info>, s: Selection, start: int, end: int,
                   dir: Str, base: Str, limit: nat, ops: seq<Op>, order: seq<nat>, name: Str)
    requires dir != [] && base != []
    requires forall n | n in ChannelNames(m) :: Api.NameFits(n)
    requires Carried(Cut(m, infos, s, start, end, Sorted(ChannelNames(m))), ops)
    requires Orders(order, |Run(V5, dir, base, limit, Api.FromOps(ops)).cuts|)
    requires name in infos
    ensures AllOnDisk(Run(V5, dir, base, limit, Api.FromOps(ops)).w, order)
    ensures (var t, pasts := Run(V5, dir, base, limit, Api.FromOps(ops)), Pasts(V5, dir, base, limit, Api.FromOps(ops));
             var reported, c := LastInfos(FilesIn(t.w, order)), Api.FromChannel(Channel(name, 0));
             && (c in reported <==> exists i | 0 <= i < |order| :: MentionedAt(t, pasts, order[i], c))
             && (c in reported ==> (reported[c] == infos[name] <==> Survives(infos[name]))))
  {
    hide Run, Pasts, Cut, ChannelNames, Sorted, Carried, Orders, Survives, Returned, ExportedInfo, EscapeWith, StorableOp, AllOnDisk,
         MentionedAt, LastInfos, FilesIn, CreatedFirst, DescribedFirst;
    var calls := Cut(m, infos, s, start, end, Sorted(ChannelNames(m)));
    OpsAreNameable(m, infos, s, start, end, ops);
    Api.OpsAreStorable(ops);
    CarriedIsAccepted(dir, base, limit, calls, ops);
    CutCreatesFirst(m, infos, s, start, end, Sorted(ChannelNames(m)));
    CarriedDescribesFirst(infos, calls, ops, name);
    CutReports(infos, dir, base, limit, Api.FromOps(ops), name, order);
    ExportedReturnsIff(infos, name);
  }

  /** An encoding that is neither of the two. */
  const CAPNP := Info("Pose", "capnp", [])

  /** No cut reports it, in any order of its files. */
  lemma CapnpIsLost(m: Measurement, infos: map<Str, Info>, s: Selection, start: int, end: int,
                    dir: Str, base: Str, limit: nat, ops: seq<Op>, order: seq<nat>, name: Str)
    requires dir != [] && base != []
    requires forall n | n in ChannelNames(m) :: Api.NameFits(n)
    requires Carried(Cut(m, infos, s, start, end, Sorted(ChannelNames(m))), ops)
    requires Orders(order, |Run(V5, dir, base, limit, Api.FromOps(ops)).cuts|)
    requires name in infos && infos[name] == CAPNP
    ensures AllOnDisk(Run(V5, dir, base, limit, Api.FromOps(ops)).w, order)
    ensures (var t := Run(V5, dir, base, limit, Api.FromOps(ops));
             var reported, c := LastInfos(FilesIn(t.w, order)), Api.FromChannel(Channel(name, 0));
             c in reported ==> reported[c] != CAPNP)
  {
    assert CAPNP.encoding[0] != PROTO[0];
    assert !Survives(CAPNP);
    hide *;
    CutInfoIff(m, infos, s, start, end, dir, base, limit, ops, order, name);
  }
}
