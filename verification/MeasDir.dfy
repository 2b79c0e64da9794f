/** Opening a measurement directory: all entries of all files are renumbered and indexed
    by number and by channel (contrib/ecalhdf5/src/eh5_meas_dir.cpp). */
module MeasDir {
  import opened Strings
  import opened Escape
  import opened Hdf5
  import opened Entries
  import opened Layout

  /** Where a renumbered entry came from: the file and the entry's number in it. */
  datatype Ref = Ref(file: nat, id: int)

  /** One entry of one channel of one file; a channel's set has one per timestamp. */
  datatype Origin = Origin(file: nat, channel: Channel, rcv: int)

  /** The file's channels pass through their unescaped form. */
  function Reescaped(c: Channel): Channel { Channel(EscapeTopic(Unescape(c.name)), c.id) }

  function FileChannels(f: File): set<Channel> {
    match VersionOf(f)
    case None => {}
    case Some(v) => set c | c in ReadChannels(v, f) :: Reescaped(c)
  }

  /** A directory knows channels by escaped names: whatever spelling a file lists, it is the one
      that escaping gives to the name it stands for. */
  lemma ListedIsEscaped(f: File, c: Channel)
    requires c in FileChannels(f)
    ensures EscapeTopic(Unescape(c.name)) == c.name
    ensures VersionOf(f).Some? && exists d :: d in ReadChannels(VersionOf(f).value, f) && Unescape(d.name) == Unescape(c.name) && d.id == c.id
  {
    var d :| d in ReadChannels(VersionOf(f).value, f) && c == Reescaped(d);
    UnescapeEscape(TopicName, Unescape(d.name));
    hide ReadChannels, VersionOf, Unescape, EscapeWith;
  }

  function FileEntries(f: File, c: Channel): EntrySet {
    match VersionOf(f)
    case None => map[]
    case Some(v) => ReadEntries(v, f, c)
  }

  // ---------- The two indexes ----------

  type Files = seq<File>

  predicate Exists(files: Files, o: Origin) {
    o.file < |files| && o.channel in FileChannels(files[o.file]) && o.rcv in FileEntries(files[o.file], o.channel)
  }

  function EntryOf(files: Files, o: Origin): EntryInfo
    requires Exists(files, o)
  {
    FileEntries(files[o.file], o.channel)[o.rcv]
  }

  /** The first number given to an entry of this channel and timestamp. */
  function FirstIndex(origins: seq<Origin>, c: Channel, t: int): (k: Option<nat>)
    ensures k.Some? ==> k.value < |origins| && origins[k.value].channel == c && origins[k.value].rcv == t
    ensures k.Some? ==> forall j | 0 <= j < k.value :: !(origins[j].channel == c && origins[j].rcv == t)
    ensures k.None? ==> forall j | 0 <= j < |origins| :: !(origins[j].channel == c && origins[j].rcv == t)
  {
    if origins == [] then None
    else
      var n := |origins| - 1;
      var k := FirstIndex(origins[..n], c, t);
      if k.Some? then k
      else if origins[n].channel == c && origins[n].rcv == t then Some(n)
      else None
  }

  function Lookup(byChn: map<Channel, EntrySet>, c: Channel, t: int): Option<EntryInfo> {
    if c in byChn && t in byChn[c] then Some(byChn[c][t]) else None
  }

  ghost predicate AllExist(files: Files, origins: seq<Origin>) {
    forall k | 0 <= k < |origins| :: Exists(files, origins[k])
  }

  function Expected(files: Files, origins: seq<Origin>, c: Channel, t: int): Option<EntryInfo>
    requires AllExist(files, origins)
  {
    match FirstIndex(origins, c, t)
    case None => None
    case Some(k) => Some(EntryOf(files, origins[k]).(id := k))
  }

  /** Numbers are given once, file by file, and the number index refers to the entry. */
  ghost predicate Numbered(files: Files, origins: seq<Origin>, byId: map<int, Ref>)
    requires AllExist(files, origins)
  {
    && (forall j, k | 0 <= j < k < |origins| :: origins[j] != origins[k] && origins[j].file <= origins[k].file)
    && (forall k :: k in byId <==> 0 <= k < |origins|)
    && (forall k | 0 <= k < |origins| :: byId[k] == Ref(origins[k].file, EntryOf(files, origins[k]).id))
  }

  predicate NoEmptySets(byChn: map<Channel, EntrySet>) { forall c | c in byChn :: byChn[c] != map[] }

  /** The channel index holds an entry unless an earlier one of the same channel and
      timestamp keeps it out. */
  ghost predicate Channeled(files: Files, origins: seq<Origin>, byChn: map<Channel, EntrySet>)
    requires AllExist(files, origins)
  {
    && NoEmptySets(byChn)
    && forall c, t :: Lookup(byChn, c, t) == Expected(files, origins, c, t)
  }

  /** `origins[k]` is the entry that got number `k`, and both indexes say so. */
  ghost predicate Indexed(files: Files, origins: seq<Origin>, byId: map<int, Ref>, byChn: map<Channel, EntrySet>) {
    AllExist(files, origins) && Numbered(files, origins, byId) && Channeled(files, origins, byChn)
  }

  ghost predicate Complete(files: Files, origins: seq<Origin>) {
    forall o | Exists(files, o) :: o in origins
  }

  function Inserted(byChn: map<Channel, EntrySet>, c: Channel, e: EntryInfo): map<Channel, EntrySet> {
    byChn[c := Insert(if c in byChn then byChn[c] else map[], e)]
  }

  lemma LookupInserted(byChn: map<Channel, EntrySet>, channel: Channel, e: EntryInfo, c: Channel, t: int)
    ensures NoEmptySets(byChn) ==> NoEmptySets(Inserted(byChn, channel, e))
    ensures Lookup(Inserted(byChn, channel, e), c, t)
         == if Lookup(byChn, c, t).Some? then Lookup(byChn, c, t)
            else if c == channel && t == e.rcv then Some(e) else None
  {
  }

  lemma ExpectedOneMore(files: Files, origins: seq<Origin>, o: Origin, c: Channel, t: int)
    requires AllExist(files, origins) && Exists(files, o)
    ensures AllExist(files, origins + [o])
    ensures Expected(files, origins + [o], c, t)
         == if Expected(files, origins, c, t).Some? then Expected(files, origins, c, t)
            else if c == o.channel && t == o.rcv then Some(EntryOf(files, o).(id := |origins|)) else None
  {
    hide Exists, EntryOf;
    assert (origins + [o])[..|origins|] == origins;
  }

  lemma NumberOneMore(files: Files, origins: seq<Origin>, byId: map<int, Ref>, o: Origin)
    requires AllExist(files, origins) && Numbered(files, origins, byId)
    requires Exists(files, o) && o !in origins
    requires forall k | 0 <= k < |origins| :: origins[k].file <= o.file
    ensures AllExist(files, origins + [o])
    ensures Numbered(files, origins + [o], byId[|origins| := Ref(o.file, EntryOf(files, o).id)])
  {
    hide Exists, EntryOf;
  }

  lemma ChannelOneMore(files: Files, origins: seq<Origin>, byChn: map<Channel, EntrySet>, o: Origin)
    requires AllExist(files, origins) && Channeled(files, origins, byChn)
    requires Exists(files, o)
    ensures AllExist(files, origins + [o])
    ensures Channeled(files, origins + [o], Inserted(byChn, o.channel, EntryOf(files, o).(id := |origins|)))
  {
    assert EntryOf(files, o).rcv == o.rcv;
    hide Exists, EntryOf, Lookup, Expected, Inserted, AllExist, NoEmptySets;
    var more := origins + [o];
    var e := EntryOf(files, o).(id := |origins|);
    var chn := Inserted(byChn, o.channel, e);
    ExpectedOneMore(files, origins, o, o.channel, o.rcv);
    LookupInserted(byChn, o.channel, e, o.channel, o.rcv);
    forall c, t ensures Lookup(chn, c, t) == Expected(files, more, c, t) {
      assert Lookup(byChn, c, t) == Expected(files, origins, c, t);
      LookupInserted(byChn, o.channel, e, c, t);
      ExpectedOneMore(files, origins, o, c, t);
    }
  }

  lemma IndexOneMore(files: Files, origins: seq<Origin>, byId: map<int, Ref>, byChn: map<Channel, EntrySet>, o: Origin)
    requires Indexed(files, origins, byId, byChn)
    requires Exists(files, o) && o !in origins
    requires forall k | 0 <= k < |origins| :: origins[k].file <= o.file
    ensures Indexed(files, origins + [o], byId[|origins| := Ref(o.file, EntryOf(files, o).id)],
                    Inserted(byChn, o.channel, EntryOf(files, o).(id := |origins|)))
  {
    hide Numbered, Channeled, Exists, EntryOf;
    NumberOneMore(files, origins, byId, o);
    ChannelOneMore(files, origins, byChn, o);
  }

  // ---------- OpenRX ----------

  function FileInfo(f: File, c: Channel): Info {
    match VersionOf(f)
    case None => Info([], [], [])
    case Some(v) => ReadInfo(v, f, c)
  }

  function FileInfos(f: File, channels: set<Channel>): map<Channel, Info> { map c | c in channels :: FileInfo(f, c) }

  /** The type information of every channel: that of the last file that lists it. */
  function LastInfos(files: Files): map<Channel, Info> {
    if files == [] then map[]
    else
      var f := files[|files| - 1];
      LastInfos(files[..|files| - 1]) + FileInfos(f, FileChannels(f))
  }

  /** `now` adds to `before` exactly the entries of some channels of file `i`. */
  ghost predicate Adds(files: Files, before: seq<Origin>, now: seq<Origin>, i: nat, channels: set<Channel>) {
    forall o :: o in now <==> o in before || (o.file == i && o.channel in channels && Exists(files, o))
  }

  lemma AddsMore(files: Files, before: seq<Origin>, mid: seq<Origin>, now: seq<Origin>, i: nat, s: set<Channel>, c: Channel)
    requires Adds(files, before, mid, i, s) && Adds(files, mid, now, i, {c})
    ensures Adds(files, before, now, i, s + {c})
  {
    hide Exists;
  }

  /** No entry of channel `c` of file `i`, nor of a later file, has a number yet. */
  ghost predicate Ahead(origins: seq<Origin>, i: nat, c: Channel) {
    forall o | o in origins :: o.file <= i && !(o.file == i && o.channel == c)
  }

  lemma StillAhead(files: Files, before: seq<Origin>, now: seq<Origin>, i: nat, s: set<Channel>, c: Channel)
    requires Adds(files, before, now, i, s) && c !in s
    requires forall o | o in before :: o.file < i
    ensures Ahead(now, i, c)
  {
    hide Exists;
  }

  lemma NothingAdded(files: Files, origins: seq<Origin>, i: nat)
    ensures Adds(files, origins, origins, i, {})
  {
  }

  /** Exactly the entries of the first `i` files have numbers. */
  ghost predicate Reaches(files: Files, origins: seq<Origin>, i: nat) {
    forall o :: o in origins <==> o.file < i && Exists(files, o)
  }

  lemma ReachesOnly(files: Files, origins: seq<Origin>, i: nat)
    requires Reaches(files, origins, i)
    ensures forall o | o in origins :: o.file < i
  {
  }

  lemma ReachesNext(files: Files, before: seq<Origin>, now: seq<Origin>, i: nat)
    requires i < |files| && Reaches(files, before, i) && Adds(files, before, now, i, FileChannels(files[i]))
    ensures Reaches(files, now, i + 1)
  {
    hide FileChannels, FileEntries;
  }

  /** A file that is no measurement contributes nothing. */
  lemma Unreadable(files: Files, origins: seq<Origin>, i: nat, infos: map<Channel, Info>)
    requires i < |files| && Reaches(files, origins, i) && VersionOf(files[i]).None?
    ensures Reaches(files, origins, i + 1)
    ensures FileChannels(files[i]) == {} && infos + FileInfos(files[i], FileChannels(files[i])) == infos
  {
    hide VersionOf;
  }

  class MeasDirReader {
    var channelsInfo: map<Channel, Info>
    var entriesById: map<int, Ref>
    var entriesByChn: map<Channel, EntrySet>
    var readers: nat
    ghost var origins: seq<Origin>

    constructor ()
      ensures channelsInfo == map[] && entriesById == map[] && entriesByChn == map[] && readers == 0 && origins == []
    {
      channelsInfo, entriesById, entriesByChn, readers, origins := map[], map[], map[], 0, [];
    }

    ghost predicate Consistent(files: Files)
      reads this
    {
      Indexed(files, origins, entriesById, entriesByChn)
    }

    /** The innermost loop: number and insert the entries of one channel of one file. */
    method AddChannel(files: Files, i: nat, c: Channel, first: nat) returns (id: nat)
      requires Consistent(files) && first == |origins|
      requires i < |files| && c in FileChannels(files[i])
      requires Ahead(origins, i, c)
      modifies this`entriesById, this`entriesByChn, this`origins
      ensures Consistent(files) && id == |origins|
      ensures Adds(files, old(origins), origins, i, {c})
    {
      hide FileChannels, Indexed;
      id := first;
      var entries := FileEntries(files[i], c);
      var todo := entries.Keys;
      while todo != {}
        invariant todo <= entries.Keys
        invariant Consistent(files) && id == |origins|
        invariant forall o :: o in origins <==>
                    o in old(origins) || (o.file == i && o.channel == c && o.rcv in entries && o.rcv !in todo)
        decreases |todo|
      {
        var t :| t in todo;
        var entry := entries[t];
        ghost var o := Origin(i, c, t);
        IndexOneMore(files, origins, entriesById, entriesByChn, o);
        entriesById := entriesById[id := Ref(i, entry.id)];
        entry := entry.(id := id);
        var chosen: EntrySet := if c in entriesByChn then entriesByChn[c] else map[];
        entriesByChn := entriesByChn[c := Insert(chosen, entry)];
        origins := origins + [o];
        id := id + 1;
        todo := todo - {t};
      }
    }

    /** The loop over the channels of one file. */
    method AddFile(files: Files, i: nat, first: nat) returns (id: nat)
      requires Consistent(files) && first == |origins|
      requires i < |files|
      requires forall o | o in origins :: o.file < i
      modifies this`channelsInfo, this`entriesById, this`entriesByChn, this`origins
      ensures Consistent(files) && id == |origins|
      ensures Adds(files, old(origins), origins, i, FileChannels(files[i]))
      ensures channelsInfo == old(channelsInfo) + FileInfos(files[i], FileChannels(files[i]))
    {
      hide FileChannels, FileInfo, FileEntries, Indexed, Exists, Ahead, Adds;
      id := first;
      var channels := FileChannels(files[i]);
      var todo := channels;
      NothingAdded(files, origins, i);
      assert channels - todo == {};
      while todo != {}
        invariant todo <= channels
        invariant Consistent(files) && id == |origins|
        invariant Adds(files, old(origins), origins, i, channels - todo)
        invariant channelsInfo == old(channelsInfo) + FileInfos(files[i], channels - todo)
        decreases |todo|
      {
        var c :| c in todo;
        channelsInfo := channelsInfo[c := FileInfo(files[i], c)];
        ghost var mid := origins;
        StillAhead(files, old(origins), mid, i, channels - todo, c);
        id := AddChannel(files, i, c, id);
        AddsMore(files, old(origins), mid, origins, i, channels - todo, c);
        assert channels - (todo - {c}) == channels - todo + {c};
        todo := todo - {c};
      }
      assert channels - todo == channels;
    }

    /** Afterwards the entries are numbered 0, 1, ... file by file, every entry of every
        file got one number, and both indexes agree on it. */
    method OpenRX(files: Files) returns (ok: bool)
      requires entriesById == map[] && entriesByChn == map[] && channelsInfo == map[] && readers == 0 && origins == []
      modifies this
      ensures Consistent(files) && Complete(files, origins)
      ensures ok <==> exists i | 0 <= i < |files| :: VersionOf(files[i]).Some?
      ensures channelsInfo == LastInfos(files)
    {
      var id := 0;
      for i := 0 to |files|
        invariant Consistent(files) && id == |origins|
        invariant Reaches(files, origins, i)
        invariant channelsInfo == LastInfos(files[..i])
        invariant readers > 0 <==> exists k | 0 <= k < i :: VersionOf(files[k]).Some?
      {
        hide VersionOf, FileInfos, FileEntries, Indexed, Exists, FileInfo;
        assert files[..i + 1][..i] == files[..i];
        ghost var before := origins;
        if VersionOf(files[i]).Some? {
          ReachesOnly(files, origins, i);
          id := AddFile(files, i, id);
          readers := readers + 1;
          ReachesNext(files, before, origins, i);
        } else {
          Unreadable(files, origins, i, channelsInfo);
        }
      }
      assert files[..|files|] == files;
      ok := readers > 0;
    }
  }
}
