/** How a closing measurement file lays out its channels, and how the V5 and V6 readers
    find them again (contrib/ecalhdf5/src/eh5_meas_file_writer_v5.cpp, _v6.cpp,
    eh5_meas_file_v2.cpp, _v5.cpp, _v6.cpp, datatype_helper.cpp). */
module Layout {
  import opened Strings
  import opened Escape
  import opened Ordering
  import opened Hdf5
  import opened Entries

  datatype Version = V5 | V6

  datatype Info = Info(name: Str, encoding: Str, descriptor: Str)

  type Id = n: nat | n < TWO64

  datatype Channel = Channel(name: Str, id: Id)

  datatype Slot = Slot(info: Info, entries: seq<EntryInfo>)

  /** `channels_` of a writer. V5 writers key their channels by name only; they use id 0
      here. */
  type Slots = map<Channel, Slot>

  const CHANNELS: Str := "Channels"
  const VERSION: Str := "Version"
  const TYPE_NAME: Str := "TypeName"
  const TYPE_ENCODING: Str := "TypeEncoding"
  const TYPE_DESCRIPTOR: Str := "TypeDescriptor"
  const DATA_TABLE: Str := "DataTable"
  const CHANNEL_TYPE: Str := "Channel Type"
  const CHANNEL_DESCRIPTION: Str := "Channel Description"

  function VersionText(v: Version): Str { if v == V5 then "5.0" else "6.0" }

  function Names(slots: Slots): set<Str> { set c | c in slots :: c.name }

  function Ids(slots: Slots, name: Str): (ids: set<nat>)
    ensures forall id: nat :: id in ids <==> id < TWO64 && Channel(name, id) in slots
  {
    set c | c in slots && c.name == name :: c.id as nat
  }

  // ---------- Combined type strings of V5 ----------

  /** `FromInfo`: the encoding, a colon and the type name, in one string. */
  function CombinedType(info: Info): Str {
    if info.encoding == [] then info.name else info.encoding + [':'] + info.name
  }

  /** `CreateInfo`: cut at the first colon. */
  function SplitType(combined: Str, descriptor: Str): Info {
    var pos := FieldLength(combined, ':');
    if pos == |combined| then Info(combined, [], descriptor)
    else Info(combined[pos + 1..], combined[..pos], descriptor)
  }

  /** The combined string is taken apart correctly exactly when the encoding has no colon
      and, should it be empty, the type name has none either. */
  lemma SplitTypeIff(info: Info)
    ensures SplitType(CombinedType(info), info.descriptor) == info
       <==> ':' !in info.encoding && (info.encoding == [] ==> ':' !in info.name)
  {
    var s := CombinedType(info);
    var pos := FieldLength(s, ':');
    if info.encoding == [] {
      if ':' !in info.name {
        FieldLengthIs(s, ':', |s|);
      }
    } else if ':' !in info.encoding {
      assert s[..|info.encoding|] == info.encoding;
      FieldLengthIs(s, ':', |info.encoding|);
      assert s[|info.encoding| + 1..] == info.name;
    } else {
      assert s[|info.encoding|] == ':';
      assert ':' in info.encoding;
      assert ':' !in s[..pos];
    }
  }

  // ---------- Closing a V6 file ----------

  /** The four datasets of a channel id, by name. */
  function Leaves(slot: Slot): (l: seq<(Str, Object)>)
    ensures |l| == 4
  {
    [(TYPE_NAME, StringEntry(slot.info.name)),
     (TYPE_ENCODING, StringEntry(slot.info.encoding)),
     (TYPE_DESCRIPTOR, StringEntry(slot.info.descriptor)),
     (DATA_TABLE, Table(Cells(slot.entries), map[]))]
  }

  function PutLeaves(f: File, channel: Str, hex: Str, leaves: seq<(Str, Object)>): File
    decreases |leaves|
  {
    if leaves == [] then f
    else PutLeaves(Put(f, Resolve(GetUrl(channel, hex, leaves[0].0)), leaves[0].1), channel, hex, leaves[1..])
  }

  function DumpChannel(f: File, c: Channel, slot: Slot): File {
    var hex := PrintHex(c.id);
    var f1 := EnsureGroup(f, Resolve(c.name));
    var f2 := EnsureGroup(f1, Resolve(c.name) + Resolve(hex));
    PutLeaves(f2, c.name, hex, Leaves(slot))
  }

  function DumpIds(f: File, name: Str, ids: seq<nat>, slots: Slots): File
    requires forall id | id in ids :: id < TWO64 && Channel(name, id) in slots
    decreases |ids|
  {
    if ids == [] then f
    else
      assert ids[0] in ids;
      var c := Channel(name, ids[0]);
      DumpIds(DumpChannel(f, c, slots[c]), name, ids[1..], slots)
  }

  function DumpNames(f: File, names: seq<Str>, slots: Slots): File
    decreases |names|
  {
    if names == [] then f
    else DumpNames(DumpIds(f, names[0], SortedIds(Ids(slots, names[0])), slots), names[1..], slots)
  }

  // ---------- Closing a V5 file ----------

  function TableOf(slot: Slot): Object {
    Table(Cells(slot.entries),
          map[CHANNEL_TYPE := StoredAttribute(slot.info.name), CHANNEL_DESCRIPTION := StoredAttribute(slot.info.descriptor)])
  }

  /** The file and the names of the channels whose table could be created. */
  function DumpTables(f: File, names: seq<Str>, slots: Slots): (File, seq<Str>)
    decreases |names|
  {
    if names == [] then (f, [])
    else
      var c := Channel(names[0], 0);
      if c in slots && slots[c].entries != [] && CanCreate(f, Resolve(names[0])) then
        var (g, listed) := DumpTables(Put(f, Resolve(names[0]), TableOf(slots[c])), names[1..], slots);
        (g, [names[0]] + listed)
      else DumpTables(f, names[1..], slots)
  }

  /** The file a writer leaves behind when it closes. */
  function Finish(v: Version, f: File, slots: Slots): File {
    var names := Sorted(Names(slots));
    match v
    case V6 => SetAttribute(DumpNames(f, names, slots), CHANNELS, Join(names, ','))
    case V5 =>
      var (g, listed) := DumpTables(f, names, slots);
      SetAttribute(g, CHANNELS, Join(listed, ','))
  }

  // ---------- Reading ----------

  function VersionOf(f: File): Option<Version> {
    var text := GetAttribute(f.attributes, VERSION);
    if text == VersionText(V5) then Some(V5) else if text == VersionText(V6) then Some(V6) else None
  }

  function ListedNames(f: File): seq<Str> { Split(GetAttribute(f.attributes, CHANNELS), ',') }

  function ReadChannels(v: Version, f: File): set<Channel> {
    match v
    case V5 => set n | n in ListedNames(f) :: Channel(n, 0)
    case V6 => set n, x | n in ListedNames(f) && IsGroup(f, Resolve(n)) && x in Links(f, Resolve(n)) && ParseHex(x).Some?
                 :: Channel(n, ParseHex(x).value)
  }

  function TableUrl(v: Version, c: Channel): Str {
    if v == V5 then c.name else GetUrl(c.name, PrintHex(c.id), DATA_TABLE)
  }

  function ReadEntries(v: Version, f: File, c: Channel): EntrySet {
    match Open(f, TableUrl(v, c))
    case Some(Table(cells, _)) => SetOf(Rows(cells))
    case _ => map[]
  }

  function ReadInfo(v: Version, f: File, c: Channel): Info {
    match v
    case V6 =>
      Info(ReadStringEntry(f, GetUrl(c.name, PrintHex(c.id), TYPE_NAME)),
           ReadStringEntry(f, GetUrl(c.name, PrintHex(c.id), TYPE_ENCODING)),
           ReadStringEntry(f, GetUrl(c.name, PrintHex(c.id), TYPE_DESCRIPTOR)))
    case V5 =>
      match Open(f, c.name)
      case Some(Table(_, a)) => SplitType(GetAttribute(a, CHANNEL_TYPE), GetAttribute(a, CHANNEL_DESCRIPTION))
      case _ => SplitType([], [])
  }

  function EntryName(id: int): Str { if id < 0 then ['-'] + Decimal(-id) else Decimal(id) }

  /** `GetEntryDataAsString`: the payload dataset is named by the entry's number. */
  function ReadData(f: File, id: int): Option<Str> {
    match Open(f, EntryName(id))
    case Some(Payload(data)) => Some(data)
    case _ => None
  }

  // ---------- Names a file can hold ----------

  /** An escaped channel name HDF5 and the channel list can hold: they skip empty names, and
      `.` is the group itself. */
  predicate Storable(name: Str) {
    && EscapeTopic(Unescape(name)) == name
    && PlainName(name) && ',' !in name && name != NUL
  }

  lemma EscapeIsItself(raw: Str, plain: Str)
    requires EscapeTopic(plain) == plain
    ensures EscapeTopic(raw) == plain <==> raw == plain
  {
    if EscapeTopic(raw) == plain {
      EscapeInjective(TopicName, raw, plain);
    }
  }

  lemma EscapeKeepsPlain(plain: Str)
    requires forall c | c in plain :: '.' <= c <= '9' && c != '/'
    ensures EscapeTopic(plain) == plain
  {
    EscapeFixes(TopicName, plain);
  }

  lemma EscapedIsClean(raw: Str)
    ensures EscapeTopic(Unescape(EscapeTopic(raw))) == EscapeTopic(raw)
    ensures '/' !in EscapeTopic(raw) && ',' !in EscapeTopic(raw) && EscapeTopic(raw) != NUL
  {
    UnescapeEscape(TopicName, raw);
    var name := EscapeTopic(raw);
    forall c | c in name ensures c != '/' && c != ',' && c as int != 0 {
      EscapedBytes(TopicName, raw, c);
    }
    assert NUL[0] as int == 0;
  }

  /** An escaped name is a numeral exactly if the name itself is that numeral. */
  lemma EscapedNumeral(raw: Str, k: nat)
    ensures EscapeTopic(raw) == Decimal(k) <==> raw == Decimal(k)
  {
    EscapeKeepsPlain(Decimal(k));
    EscapeIsItself(raw, Decimal(k));
  }

  /** In terms of the unescaped name: any but the empty one and `.`. */
  lemma StorableIff(raw: Str)
    ensures Storable(EscapeTopic(raw)) <==> raw != [] && raw != "."
  {
    hide EscapeTopic, Unescape;
    EscapedIsClean(raw);
    EscapeKeepsPlain([]);
    EscapeIsItself(raw, []);
    EscapeKeepsPlain(".");
    EscapeIsItself(raw, ".");
  }

  ghost predicate AllStorable(slots: Slots) { forall c | c in slots :: Storable(c.name) }

  function PayloadPath(k: nat): Path { [Decimal(k)] }

  predicate MapsTo(f: File, p: Path, o: Object) { p in f.objects && f.objects[p] == o }

  /** A file that is still open holds payloads only, numbered from `base`. */
  ghost predicate PayloadsOnly(f: File, base: nat, data: seq<Str>) {
    && (forall i | 0 <= i < |data| :: MapsTo(f, PayloadPath(base + i), Payload(data[i])))
    && (forall p | p in f.objects :: exists k | base <= k < base + |data| :: p == PayloadPath(k))
  }

  lemma DecimalIsPlain(k: nat)
    ensures PlainName(Decimal(k))
  {
    var s := Decimal(k);
    assert s[0] in s;
  }

  lemma HexIsPlain(id: nat)
    requires id < TWO64
    ensures PlainName(PrintHex(id))
  {
    ParsePrintHex(id);
  }

  // ---------- V6: what a closed file holds ----------

  ghost predicate HoldsLeaves(f: File, channel: Str, hex: Str, leaves: seq<(Str, Object)>) {
    forall i | 0 <= i < |leaves| :: MapsTo(f, [channel, hex, leaves[i].0], leaves[i].1)
  }

  ghost predicate HoldsChannel(f: File, c: Channel, slot: Slot) {
    var hex := PrintHex(c.id);
    MapsTo(f, [c.name], Group) && MapsTo(f, [c.name, hex], Group) && HoldsLeaves(f, c.name, hex, Leaves(slot))
  }

  predicate Owns(c: Channel, p: Path) {
    p == [c.name] || (|p| >= 2 && p[0] == c.name && p[1] == PrintHex(c.id))
  }

  ghost predicate Extends(f0: File, f: File) {
    f.attributes == f0.attributes && forall p | p in f0.objects :: MapsTo(f, p, f0.objects[p])
  }

  ghost predicate Dumped(f0: File, f: File, slots: Slots, done: set<Channel>) {
    && Extends(f0, f)
    && done <= slots.Keys
    && (forall c | c in done :: HoldsChannel(f, c, slots[c]))
    && (forall p | p in f.objects && p !in f0.objects :: exists c :: c in done && Owns(c, p))
  }

  /** The file before closing has nothing under a channel's name. */
  ghost predicate Clear(f0: File, slots: Slots) {
    forall p, c | p in f0.objects && c in slots :: p != [] && p[0] != c.name
  }

  /** A file before closing holds nothing but payloads, next to each other. */
  ghost predicate Bare(f: File) { forall p | p in f.objects :: |p| == 1 && f.objects[p].Payload? }

  /** The channels whose name is not the number of a payload of the file. */
  function Free(f: File, slots: Slots): Slots { map c | c in slots && [c.name] !in f.objects :: slots[c] }

  lemma FreeIsClear(f: File, slots: Slots)
    requires Bare(f)
    ensures Clear(f, Free(f, slots))
  {
    forall p, c | p in f.objects && c in Free(f, slots) ensures p != [] && p[0] != c.name {
      assert p == [p[0]];
    }
  }

  lemma PayloadsAreBare(f: File, base: nat, data: seq<Str>)
    requires PayloadsOnly(f, base, data)
    ensures Bare(f)
  {
    forall p | p in f.objects ensures |p| == 1 && f.objects[p].Payload? {
      var k :| base <= k < base + |data| && p == PayloadPath(k);
      assert MapsTo(f, PayloadPath(base + (k - base)), Payload(data[k - base]));
    }
  }

  lemma LeafNames(slot: Slot)
    ensures forall i | 0 <= i < 4 :: PlainName(Leaves(slot)[i].0)
    ensures forall i, j | 0 <= i < j < 4 :: Leaves(slot)[i].0 != Leaves(slot)[j].0
  {
    assert |TYPE_NAME| == 8 && |TYPE_ENCODING| == 12 && |TYPE_DESCRIPTOR| == 14 && |DATA_TABLE| == 9;
  }

  lemma PutNew(f: File, p: Path, o: Object)
    requires CanCreate(f, p)
    ensures MapsTo(Put(f, p, o), p, o) && Extends(f, Put(f, p, o))
    ensures forall q | q in Put(f, p, o).objects :: q in f.objects || q == p
  {
  }

  lemma {:induction false} PutLeavesHolds(f: File, channel: Str, hex: Str, leaves: seq<(Str, Object)>)
    requires PlainName(channel) && PlainName(hex)
    requires MapsTo(f, [channel, hex], Group)
    requires forall i | 0 <= i < |leaves| :: PlainName(leaves[i].0)
    requires forall i, j | 0 <= i < j < |leaves| :: leaves[i].0 != leaves[j].0
    requires forall i | 0 <= i < |leaves| :: [channel, hex, leaves[i].0] !in f.objects
    ensures HoldsLeaves(PutLeaves(f, channel, hex, leaves), channel, hex, leaves)
    ensures Extends(f, PutLeaves(f, channel, hex, leaves))
    ensures forall p | p in PutLeaves(f, channel, hex, leaves).objects ::
              p in f.objects || (|p| == 3 && p[..2] == [channel, hex])
    decreases |leaves|
  {
    if leaves != [] {
      var p: Path := [channel, hex, leaves[0].0];
      ResolveUrl(channel, hex, leaves[0].0);
      assert p[..2] == [channel, hex];
      PutNew(f, p, leaves[0].1);
      var g := Put(f, p, leaves[0].1);
      forall i | 0 <= i < |leaves[1..]| ensures [channel, hex, leaves[1..][i].0] !in g.objects {
        var q: Path := [channel, hex, leaves[i + 1].0];
        assert q[2] != p[2];
      }
      PutLeavesHolds(g, channel, hex, leaves[1..]);
      var h := PutLeaves(f, channel, hex, leaves);
      forall i | 0 <= i < |leaves| ensures MapsTo(h, [channel, hex, leaves[i].0], leaves[i].1) {
        if i > 0 {
          assert leaves[i] == leaves[1..][i - 1];
        }
      }
    }
  }

  lemma EnsureGroupHolds(f: File, p: Path)
    requires IsGroup(f, p) || CanCreate(f, p)
    requires p != []
    ensures MapsTo(EnsureGroup(f, p), p, Group) && Extends(f, EnsureGroup(f, p))
    ensures forall q | q in EnsureGroup(f, p).objects :: q in f.objects || q == p
  {
  }

  /** A channel id not yet in the file is added without touching anything else. */
  lemma DumpNew(f: File, c: Channel, slot: Slot)
    requires Storable(c.name)
    requires IsGroup(f, [c.name]) || [c.name] !in f.objects
    requires forall p | p in f.objects && |p| >= 2 && p[0] == c.name :: p[1] != PrintHex(c.id)
    ensures HoldsChannel(DumpChannel(f, c, slot), c, slot)
    ensures Extends(f, DumpChannel(f, c, slot))
    ensures forall p | p in DumpChannel(f, c, slot).objects :: p in f.objects || Owns(c, p)
  {
    hide Leaves, PutLeaves, PrintHex;
    var hex := PrintHex(c.id);
    var group: Path, sub: Path := [c.name], [c.name, hex];
    ResolveName(c.name);
    HexIsPlain(c.id);
    ResolveName(hex);
    assert group + [hex] == sub;
    assert group[..0] == [] && sub[..1] == group;
    var f1 := EnsureGroup(f, group);
    EnsureGroupHolds(f, group);
    assert sub !in f1.objects;
    var f2 := EnsureGroup(f1, sub);
    EnsureGroupHolds(f1, sub);
    LeafNames(slot);
    forall i | 0 <= i < 4 ensures [c.name, hex, Leaves(slot)[i].0] !in f2.objects {
      var p: Path := [c.name, hex, Leaves(slot)[i].0];
      assert p[0] == c.name && p[1] == hex && |p| == 3;
    }
    PutLeavesHolds(f2, c.name, hex, Leaves(slot));
    forall p | p in DumpChannel(f, c, slot).objects ensures p in f.objects || Owns(c, p) {
      if p !in f2.objects {
        assert p[0] == p[..2][0] && p[1] == p[..2][1];
      }
    }
  }

  lemma {:induction false} PutLeavesAgain(f: File, channel: Str, hex: Str, leaves: seq<(Str, Object)>)
    requires PlainName(channel) && PlainName(hex)
    requires forall i | 0 <= i < |leaves| :: PlainName(leaves[i].0)
    requires HoldsLeaves(f, channel, hex, leaves)
    ensures PutLeaves(f, channel, hex, leaves) == f
    decreases |leaves|
  {
    if leaves != [] {
      ResolveUrl(channel, hex, leaves[0].0);
      assert MapsTo(f, [channel, hex, leaves[0].0], leaves[0].1);
      forall i | 0 <= i < |leaves[1..]| ensures MapsTo(f, [channel, hex, leaves[1..][i].0], leaves[1..][i].1) {
        assert leaves[1..][i] == leaves[i + 1];
      }
      PutLeavesAgain(f, channel, hex, leaves[1..]);
    }
  }

  lemma DumpAgain(f: File, c: Channel, slot: Slot)
    requires Storable(c.name) && HoldsChannel(f, c, slot)
    ensures DumpChannel(f, c, slot) == f
  {
    ResolveName(c.name);
    HexIsPlain(c.id);
    ResolveName(PrintHex(c.id));
    assert [c.name] + [PrintHex(c.id)] == [c.name, PrintHex(c.id)];
    LeafNames(slot);
    PutLeavesAgain(f, c.name, PrintHex(c.id), Leaves(slot));
  }

  lemma HoldsExtended(f: File, g: File, c: Channel, slot: Slot)
    requires HoldsChannel(f, c, slot) && Extends(f, g)
    ensures HoldsChannel(g, c, slot)
  {
    var hex := PrintHex(c.id);
    forall i | 0 <= i < 4 ensures MapsTo(g, [c.name, hex, Leaves(slot)[i].0], Leaves(slot)[i].1) {
      assert MapsTo(f, [c.name, hex, Leaves(slot)[i].0], Leaves(slot)[i].1);
    }
    assert MapsTo(f, [c.name], Group) && MapsTo(f, [c.name, hex], Group);
  }

  lemma NotYetDumped(f0: File, f: File, slots: Slots, done: set<Channel>, c: Channel)
    requires Dumped(f0, f, slots, done) && Clear(f0, slots)
    requires c in slots && c !in done
    ensures IsGroup(f, [c.name]) || [c.name] !in f.objects
    ensures forall p | p in f.objects && |p| >= 2 && p[0] == c.name :: p[1] != PrintHex(c.id)
  {
    forall p | p in f.objects && |p| >= 2 && p[0] == c.name ensures p[1] != PrintHex(c.id) {
      assert p !in f0.objects;
      var d :| d in done && Owns(d, p);
      if p[1] == PrintHex(c.id) {
        PrintHexInjective(c.id, d.id);
      }
    }
    if [c.name] in f.objects {
      assert [c.name] !in f0.objects;
      var d :| d in done && Owns(d, [c.name]);
      assert HoldsChannel(f, d, slots[d]);
      assert MapsTo(f, [d.name], Group);
    }
  }

  lemma OneMoreDumped(f0: File, f: File, g: File, slots: Slots, done: set<Channel>, c: Channel)
    requires Dumped(f0, f, slots, done) && c in slots
    requires HoldsChannel(g, c, slots[c]) && Extends(f, g)
    requires forall p | p in g.objects :: p in f.objects || Owns(c, p)
    ensures Dumped(f0, g, slots, done + {c})
  {
    forall d | d in done ensures HoldsChannel(g, d, slots[d]) {
      HoldsExtended(f, g, d, slots[d]);
    }
    forall p | p in g.objects && p !in f0.objects ensures exists d :: d in done + {c} && Owns(d, p) {
      if p in f.objects {
        var d :| d in done && Owns(d, p);
        assert d in done + {c};
      } else {
        assert c in done + {c} && Owns(c, p);
      }
    }
    assert forall p | p in f0.objects :: MapsTo(f, p, f0.objects[p]);
  }

  lemma {:induction false} PutLeavesNowhere(f: File, channel: Str, hex: Str, leaves: seq<(Str, Object)>)
    requires PlainName(channel) && PlainName(hex) && !IsGroup(f, [channel, hex])
    requires forall i | 0 <= i < |leaves| :: PlainName(leaves[i].0)
    ensures PutLeaves(f, channel, hex, leaves) == f
    decreases |leaves|
  {
    if leaves != [] {
      ResolveUrl(channel, hex, leaves[0].0);
      var p: Path := [channel, hex, leaves[0].0];
      assert p[..2] == [channel, hex];
      PutLeavesNowhere(f, channel, hex, leaves[1..]);
    }
  }

  /** Nothing can be written under a name that is taken by a payload. */
  lemma DumpTaken(f: File, c: Channel, slot: Slot)
    requires Storable(c.name) && [c.name] in f.objects && f.objects[[c.name]].Payload?
    requires [c.name, PrintHex(c.id)] !in f.objects
    ensures DumpChannel(f, c, slot) == f
  {
    assert PlainName(c.name);
    hide Leaves, PutLeaves, PrintHex, Storable;
    var hex := PrintHex(c.id);
    var group: Path, sub: Path := [c.name], [c.name, hex];
    ResolveName(c.name);
    HexIsPlain(c.id);
    ResolveName(hex);
    assert group + [hex] == sub;
    assert group[..0] == [] && sub[..1] == group;
    LeafNames(slot);
    PutLeavesNowhere(f, c.name, hex, Leaves(slot));
  }

  lemma TakenHasNothingBelow(f0: File, f: File, slots: Slots, done: set<Channel>, c: Channel)
    requires Dumped(f0, f, Free(f0, slots), done) && Bare(f0)
    requires c in slots && c !in Free(f0, slots)
    ensures [c.name] in f.objects && f.objects[[c.name]].Payload?
    ensures [c.name, PrintHex(c.id)] !in f.objects
  {
    hide HoldsChannel;
    assert MapsTo(f, [c.name], f0.objects[[c.name]]);
    forall q | q in f.objects && |q| >= 2 ensures q[0] != c.name {
      assert q !in f0.objects;
      var d :| d in done && Owns(d, q);
      assert d in Free(f0, slots);
    }
    var p: Path := [c.name, PrintHex(c.id)];
    assert |p| == 2 && p[0] == c.name;
  }

  lemma DumpStep(f0: File, f: File, slots: Slots, done: set<Channel>, c: Channel)
    requires Dumped(f0, f, Free(f0, slots), done) && Bare(f0)
    requires c in slots && Storable(c.name)
    ensures Dumped(f0, DumpChannel(f, c, slots[c]), Free(f0, slots), if c in Free(f0, slots) then done + {c} else done)
  {
    hide DumpChannel, HoldsChannel, Storable;
    var free := Free(f0, slots);
    FreeIsClear(f0, slots);
    if c !in free {
      TakenHasNothingBelow(f0, f, slots, done, c);
      DumpTaken(f, c, slots[c]);
    } else if c in done {
      DumpAgain(f, c, slots[c]);
      assert done + {c} == done;
    } else {
      NotYetDumped(f0, f, free, done, c);
      DumpNew(f, c, slots[c]);
      OneMoreDumped(f0, f, DumpChannel(f, c, slots[c]), free, done, c);
    }
  }

  lemma {:induction false} DumpIdsKeeps(f0: File, f: File, name: Str, ids: seq<nat>, slots: Slots, done: set<Channel>)
    returns (more: set<Channel>)
    requires Dumped(f0, f, Free(f0, slots), done) && Bare(f0) && AllStorable(slots)
    requires forall id | id in ids :: id < TWO64 && Channel(name, id) in slots
    ensures Dumped(f0, DumpIds(f, name, ids, slots), Free(f0, slots), more)
    ensures done <= more && forall id | id in ids && Channel(name, id) in Free(f0, slots) :: Channel(name, id) in more
    decreases |ids|
  {
    hide Dumped, DumpChannel, Storable, Bare, Free;
    more := done;
    if ids != [] {
      assert ids[0] in ids;
      var c := Channel(name, ids[0]);
      DumpStep(f0, f, slots, done, c);
      var next := if c in Free(f0, slots) then done + {c} else done;
      assert forall id | id in ids[1..] :: id in ids;
      more := DumpIdsKeeps(f0, DumpChannel(f, c, slots[c]), name, ids[1..], slots, next);
      assert forall id | id in ids :: id == ids[0] || id in ids[1..];
    }
  }

  lemma {:induction false} DumpNamesKeeps(f0: File, f: File, names: seq<Str>, slots: Slots, done: set<Channel>)
    returns (more: set<Channel>)
    requires Dumped(f0, f, Free(f0, slots), done) && Bare(f0) && AllStorable(slots)
    ensures Dumped(f0, DumpNames(f, names, slots), Free(f0, slots), more)
    ensures done <= more && forall c | c in Free(f0, slots) && c.name in names :: c in more
    decreases |names|
  {
    more := done;
    if names != [] {
      var ids := SortedIds(Ids(slots, names[0]));
      var next := DumpIdsKeeps(f0, f, names[0], ids, slots, done);
      forall c | c in Free(f0, slots) && c.name == names[0] ensures c in next {
        assert c.id as nat in ids;
        assert c == Channel(names[0], c.id);
      }
      hide Dumped, Free, Bare;
      more := DumpNamesKeeps(f0, DumpIds(f, names[0], ids, slots), names[1..], slots, next);
    }
  }

  lemma NothingDumped(f: File, slots: Slots)
    ensures Dumped(f, f, slots, {})
  {
  }

  lemma FinishV6Holds(f: File, slots: Slots)
    requires Bare(f) && AllStorable(slots)
    ensures Dumped(f, DumpNames(f, Sorted(Names(slots)), slots), Free(f, slots), Free(f, slots).Keys)
  {
    hide DumpNames, Bare, HoldsChannel, Extends, Owns, Storable;
    var names := Sorted(Names(slots));
    var free := Free(f, slots);
    NothingDumped(f, free);
    var more := DumpNamesKeeps(f, f, names, slots, {});
    forall c | c in free ensures c in more {
      assert c in slots && c.name in Names(slots);
    }
    hide Free;
    assert more == free.Keys;
  }

  // ---------- V5: what a closed file holds ----------

  ghost predicate Tabled(f0: File, f: File, slots: Slots, listed: set<Str>) {
    && Extends(f0, f)
    && (forall n | n in listed :: Channel(n, 0) in slots && MapsTo(f, [n], TableOf(slots[Channel(n, 0)])))
    && (forall p | p in f.objects && p !in f0.objects :: |p| == 1 && p[0] in listed)
  }

  /** Names of the channels that have entries. */
  function Filled(slots: Slots): set<Str> {
    set c | c in slots && c.id == 0 && slots[c].entries != [] :: c.name
  }

  lemma OneMoreTabled(f0: File, f: File, slots: Slots, before: set<Str>, n: Str)
    requires Tabled(f0, f, slots, before)
    requires n !in before && Channel(n, 0) in Free(f0, slots) && Storable(n)
    ensures CanCreate(f, Resolve(n))
    ensures Tabled(f0, Put(f, Resolve(n), TableOf(slots[Channel(n, 0)])), slots, before + {n})
  {
    ResolveName(n);
    var p: Path := [n];
    assert p !in f.objects by {
      assert p[0] == n;
    }
    assert p[..0] == [];
    PutNew(f, p, TableOf(slots[Channel(n, 0)]));
    var g := Put(f, p, TableOf(slots[Channel(n, 0)]));
    forall q | q in f0.objects ensures MapsTo(g, q, f0.objects[q]) {
      assert MapsTo(f, q, f0.objects[q]);
    }
    forall m | m in before ensures MapsTo(g, [m], TableOf(slots[Channel(m, 0)])) {
      assert MapsTo(f, [m], TableOf(slots[Channel(m, 0)]));
    }
  }

  lemma NotTabled(f0: File, f: File, slots: Slots, before: set<Str>, n: Str)
    requires Tabled(f0, f, slots, before)
    requires Channel(n, 0) in slots && Channel(n, 0) !in Free(f0, slots) && Storable(n)
    ensures !CanCreate(f, Resolve(n))
  {
    ResolveName(n);
    assert MapsTo(f, [n], f0.objects[[n]]);
  }

  function Elements(s: seq<Str>): set<Str> { set n | n in s }

  lemma {:induction false} DumpTablesKeeps(f0: File, f: File, names: seq<Str>, slots: Slots, before: set<Str>)
    requires Tabled(f0, f, slots, before) && AllStorable(slots)
    requires forall i, j | 0 <= i < j < |names| :: names[i] != names[j]
    requires forall n | n in names :: n !in before && n in Names(slots)
    ensures Tabled(f0, DumpTables(f, names, slots).0, slots, before + Elements(DumpTables(f, names, slots).1))
    ensures Elements(DumpTables(f, names, slots).1) == Elements(names) * Filled(Free(f0, slots))
    decreases |names|
  {
    hide Tabled, Resolve, Storable, CanCreate, Put, TableOf;
    if names != [] {
      var n := names[0];
      var c := Channel(n, 0);
      assert n in names;
      assert forall m | m in names[1..] :: m in names;
      assert Elements(names) == {n} + Elements(names[1..]);
      if c in Free(f0, slots) && slots[c].entries != [] {
        OneMoreTabled(f0, f, slots, before, n);
        var g := Put(f, Resolve(n), TableOf(slots[c]));
        DumpTablesKeeps(f0, g, names[1..], slots, before + {n});
        var (h, listed) := DumpTables(g, names[1..], slots);
        assert Elements([n] + listed) == {n} + Elements(listed);
        assert before + {n} + Elements(listed) == before + Elements([n] + listed);
        assert n in Filled(Free(f0, slots));
      } else {
        if c in slots && slots[c].entries != [] {
          NotTabled(f0, f, slots, before, n);
        }
        DumpTablesKeeps(f0, f, names[1..], slots, before);
        assert n !in Filled(Free(f0, slots));
      }
    } else {
      assert before + Elements([]) == before;
    }
  }

  // ---------- Reading back a closed file ----------

  lemma {:induction false} JoinLength(names: seq<Str>, d: Byte)
    requires [] !in names
    ensures |Join(names, d)| >= |names|
    ensures |names| >= 2 ==> |Join(names, d)| >= 3
  {
    if |names| > 1 {
      assert names[0] in names;
      assert forall n | n in names[1..] :: n in names;
      JoinLength(names[1..], d);
    }
  }

  /** The channel list is read back name by name. */
  lemma ListRoundTrip(f: File, names: seq<Str>)
    requires forall n | n in names :: n != [] && n != NUL && ',' !in n
    ensures ListedNames(SetAttribute(f, CHANNELS, Join(names, ','))) == names
  {
    var joined := Join(names, ',');
    JoinLength(names, ',');
    if |names| == 1 {
      assert names[0] in names;
    }
    assert joined != NUL;
    AttributeRoundTripIff(joined);
    SplitJoin(names, ',');
    NonEmptyKeepsAll(names);
  }

  lemma OpenPath(f: File, url: Str, p: Path, o: Object)
    requires Resolve(url) == p && MapsTo(f, p, o)
    ensures Open(f, url) == Some(o)
  {
  }

  lemma ReadLeaf(f: File, c: Channel, slot: Slot, i: nat)
    requires HoldsChannel(f, c, slot) && Storable(c.name) && i < 4
    ensures Open(f, GetUrl(c.name, PrintHex(c.id), Leaves(slot)[i].0)) == Some(Leaves(slot)[i].1)
  {
    HexIsPlain(c.id);
    LeafNames(slot);
    ResolveUrl(c.name, PrintHex(c.id), Leaves(slot)[i].0);
    OpenPath(f, GetUrl(c.name, PrintHex(c.id), Leaves(slot)[i].0), [c.name, PrintHex(c.id), Leaves(slot)[i].0], Leaves(slot)[i].1);
  }

  /** Type information and entries of a V6 channel. */
  lemma ReadChannelV6(f: File, c: Channel, slot: Slot)
    requires HoldsChannel(f, c, slot) && Storable(c.name)
    ensures ReadInfo(V6, f, c) == slot.info
    ensures ReadEntries(V6, f, c) == SetOf(slot.entries)
  {
    hide HoldsChannel, Storable;
    ReadLeaf(f, c, slot, 0);
    ReadLeaf(f, c, slot, 1);
    ReadLeaf(f, c, slot, 2);
    ReadLeaf(f, c, slot, 3);
    RowsOfCells(slot.entries);
  }

  lemma LinkIsId(f0: File, f: File, slots: Slots, name: Str, x: Str) returns (c: Channel)
    requires Dumped(f0, f, slots, slots.Keys) && Clear(f0, slots)
    requires name in Names(slots) && x in Links(f, [name])
    ensures c in slots && c.name == name && PrintHex(c.id) == x
  {
    hide HoldsChannel, Extends;
    var p :| p in f.objects && |p| == 2 && p[..1] == [name] && p[1] == x;
    assert p[0] == p[..1][0];
    assert p !in f0.objects;
    c :| c in slots.Keys && Owns(c, p);
  }

  lemma IdIsLink(f: File, c: Channel, slot: Slot)
    requires HoldsChannel(f, c, slot)
    ensures IsGroup(f, [c.name]) && PrintHex(c.id) in Links(f, [c.name])
  {
    hide HoldsLeaves;
    var p: Path := [c.name, PrintHex(c.id)];
    assert MapsTo(f, [c.name], Group) && MapsTo(f, p, Group);
    assert p[..1] == [c.name] && p[1] == PrintHex(c.id) && |p| == 2;
  }

  predicate IsListed(f: File, n: Str, x: Str) {
    n in ListedNames(f) && IsGroup(f, Resolve(n)) && x in Links(f, Resolve(n)) && ParseHex(x).Some?
  }

  /** A listed name with a link below it is no payload's number. */
  lemma ListedIsFree(f0: File, f: File, slots: Slots, n: Str, x: Str)
    requires Dumped(f0, f, Free(f0, slots), Free(f0, slots).Keys) && Bare(f0)
    requires n in Names(slots) && Storable(n) && IsListed(f, n, x)
    ensures n in Names(Free(f0, slots))
  {
    hide HoldsChannel, ParseHex, Links, ListedNames;
    ResolveName(n);
    var owner :| owner in slots && owner.name == n;
    assert [n] in f0.objects ==> MapsTo(f, [n], f0.objects[[n]]);
    assert owner in Free(f0, slots);
  }

  lemma ListedIsChannel(f0: File, f: File, slots: Slots, n: Str, x: Str)
    requires Dumped(f0, f, Free(f0, slots), Free(f0, slots).Keys) && Bare(f0)
    requires n in Names(slots) && Storable(n) && IsListed(f, n, x)
    ensures Channel(n, ParseHex(x).value) in Free(f0, slots)
  {
    ListedIsFree(f0, f, slots, n, x);
    FreeIsClear(f0, slots);
    hide Dumped, Clear, ParseHex, Links;
    ResolveName(n);
    var d := LinkIsId(f0, f, Free(f0, slots), n, x);
    ParsePrintHex(d.id);
  }

  lemma ChannelIsListed(f: File, c: Channel, slot: Slot)
    requires HoldsChannel(f, c, slot) && Storable(c.name) && c.name in ListedNames(f)
    ensures IsListed(f, c.name, PrintHex(c.id)) && ParseHex(PrintHex(c.id)) == Some(c.id)
  {
    hide HoldsChannel;
    ResolveName(c.name);
    IdIsLink(f, c, slot);
    ParsePrintHex(c.id);
  }

  lemma ChannelsV6(f0: File, f: File, slots: Slots)
    requires Dumped(f0, f, Free(f0, slots), Free(f0, slots).Keys) && Bare(f0) && AllStorable(slots)
    requires forall c | c in Free(f0, slots) :: HoldsChannel(f, c, slots[c])
    requires forall n :: n in ListedNames(f) <==> n in Names(slots)
    ensures ReadChannels(V6, f) == Free(f0, slots).Keys
  {
    hide Dumped, Bare, HoldsChannel, ListedNames, Storable, ParseHex, Resolve, Links;
    forall c | c in ReadChannels(V6, f) ensures c in Free(f0, slots) {
      var n, x :| IsListed(f, n, x) && c == Channel(n, ParseHex(x).value);
      var owner :| owner in slots && owner.name == n;
      ListedIsChannel(f0, f, slots, n, x);
    }
    forall c | c in Free(f0, slots) ensures c in ReadChannels(V6, f) {
      assert c in slots && c.name in Names(slots);
      ChannelIsListed(f, c, slots[c]);
      assert c == Channel(c.name, ParseHex(PrintHex(c.id)).value);
    }
  }

  lemma SameObjects(f: File, g: File, h: File, slots: Slots)
    requires Dumped(f, g, slots, slots.Keys) && h.objects == g.objects
    ensures Dumped(f.(attributes := h.attributes), h, slots, slots.Keys)
    ensures forall c | c in slots :: HoldsChannel(h, c, slots[c])
  {
    forall c | c in slots ensures HoldsChannel(h, c, slots[c]) {
      assert HoldsChannel(g, c, slots[c]);
      HoldsExtended(g, g.(attributes := g.attributes), c, slots[c]);
      forall i | 0 <= i < 4 ensures MapsTo(h, [c.name, PrintHex(c.id), Leaves(slots[c])[i].0], Leaves(slots[c])[i].1) {
        assert MapsTo(g, [c.name, PrintHex(c.id), Leaves(slots[c])[i].0], Leaves(slots[c])[i].1);
      }
    }
    forall p | p in f.objects ensures MapsTo(h, p, f.objects[p]) {
      assert MapsTo(g, p, f.objects[p]);
    }
  }

  lemma DumpedKeepsAttributes(f0: File, f: File, slots: Slots, done: set<Channel>)
    requires Dumped(f0, f, slots, done)
    ensures f.attributes == f0.attributes
  {
  }

  lemma FinishV6(f: File, slots: Slots)
    requires Bare(f) && AllStorable(slots)
    ensures (var h, free := Finish(V6, f, slots), Free(f, slots);
             && Dumped(f.(attributes := h.attributes), h, free, free.Keys)
             && (forall c | c in free :: HoldsChannel(h, c, slots[c]))
             && ListedNames(h) == Sorted(Names(slots))
             && VersionOf(h) == VersionOf(f))
  {
    hide Dumped, Bare, HoldsChannel, DumpNames, ListedNames;
    var names := Sorted(Names(slots));
    var g := DumpNames(f, names, slots);
    var free := Free(f, slots);
    FinishV6Holds(f, slots);
    DumpedKeepsAttributes(f, g, free, free.Keys);
    assert |CHANNELS| != |VERSION|;
    SameObjects(f, g, Finish(V6, f, slots), free);
    forall n | n in names ensures n != [] && n != NUL && ',' !in n {
      var c :| c in slots && c.name == n;
    }
    ListRoundTrip(g, names);
  }

  /** A closed V6 file lists exactly the writer's channels, for every 64-bit id, except those
      whose name is the number of a payload in the same file. Of the others it gives back the
      type information and the entries up to equal timestamps. */
  lemma ReadBackV6(f: File, slots: Slots)
    requires Bare(f) && AllStorable(slots)
    ensures ReadChannels(V6, Finish(V6, f, slots)) == Free(f, slots).Keys
    ensures forall c | c in Free(f, slots) :: ReadInfo(V6, Finish(V6, f, slots), c) == slots[c].info
    ensures forall c | c in Free(f, slots) :: ReadEntries(V6, Finish(V6, f, slots), c) == SetOf(slots[c].entries)
  {
    hide Dumped, HoldsChannel, Finish, ReadInfo, ReadEntries, ListedNames, ReadChannels, Storable;
    var h := Finish(V6, f, slots);
    FinishV6(f, slots);
    var f0 := f.(attributes := h.attributes);
    assert Free(f0, slots) == Free(f, slots);
    ChannelsV6(f0, h, slots);
    forall c | c in Free(f, slots)
      ensures ReadInfo(V6, h, c) == slots[c].info && ReadEntries(V6, h, c) == SetOf(slots[c].entries)
    {
      ReadChannelV6(h, c, slots[c]);
    }
  }

  /** The type information a V5 file gives back: what survives the combined string and
      the attributes. */
  predicate SurvivesV5(info: Info) {
    && ':' !in info.encoding && (info.encoding == [] ==> ':' !in info.name)
    && CombinedType(info) != NUL && info.descriptor != NUL
  }

  lemma TablesV5(f: File, slots: Slots)
    requires AllStorable(slots)
    ensures (var (g, listed) := DumpTables(f, Sorted(Names(slots)), slots);
             && Tabled(f, g, slots, Elements(listed))
             && Elements(listed) == Names(slots) * Filled(Free(f, slots)))
  {
    hide DumpTables, Storable, Free;
    var names := Sorted(Names(slots));
    SortedOnce(Names(slots));
    assert Tabled(f, f, slots, {});
    DumpTablesKeeps(f, f, names, slots, {});
    assert Elements(names) == Names(slots);
    assert {} + Elements(DumpTables(f, names, slots).1) == Elements(DumpTables(f, names, slots).1);
  }

  lemma ListedV5(f: File, slots: Slots)
    requires AllStorable(slots)
    ensures ListedNames(Finish(V5, f, slots)) == DumpTables(f, Sorted(Names(slots)), slots).1
  {
    hide DumpTables, ListedNames, Tabled, Free;
    TablesV5(f, slots);
    var (g, listed) := DumpTables(f, Sorted(Names(slots)), slots);
    forall n | n in listed ensures n != [] && n != NUL && ',' !in n {
      assert n in Elements(listed);
      var c :| c in slots && c.name == n;
    }
    ListRoundTrip(g, listed);
  }

  lemma FinishV5(f: File, slots: Slots)
    requires AllStorable(slots)
    ensures (var h := Finish(V5, f, slots);
             && Elements(ListedNames(h)) == Names(slots) * Filled(Free(f, slots))
             && Extends(f.(attributes := h.attributes), h)
             && VersionOf(h) == VersionOf(f)
             && (forall n | n in ListedNames(h) :: Channel(n, 0) in slots && MapsTo(h, [n], TableOf(slots[Channel(n, 0)]))))
  {
    hide DumpTables, ListedNames, TableOf, Storable, Free;
    TablesV5(f, slots);
    ListedV5(f, slots);
    var (g, listed) := DumpTables(f, Sorted(Names(slots)), slots);
    var h := Finish(V5, f, slots);
    assert h.objects == g.objects && g.attributes == f.attributes;
    assert |CHANNELS| != |VERSION|;
    forall n | n in listed ensures Channel(n, 0) in slots && MapsTo(h, [n], TableOf(slots[Channel(n, 0)])) {
      assert n in Elements(listed);
      assert MapsTo(g, [n], TableOf(slots[Channel(n, 0)]));
    }
    forall p | p in f.objects ensures MapsTo(h, p, f.objects[p]) {
      assert MapsTo(g, p, f.objects[p]);
    }
  }

  lemma ReadTableV5(f: File, n: Str, slot: Slot)
    requires MapsTo(f, [n], TableOf(slot)) && Storable(n)
    ensures ReadEntries(V5, f, Channel(n, 0)) == SetOf(slot.entries)
    ensures ReadInfo(V5, f, Channel(n, 0))
         == SplitType(LoadedAttribute(StoredAttribute(slot.info.name)), LoadedAttribute(StoredAttribute(slot.info.descriptor)))
  {
    ResolveName(n);
    OpenPath(f, n, [n], TableOf(slot));
    RowsOfCells(slot.entries);
    assert |CHANNEL_TYPE| != |CHANNEL_DESCRIPTION|;
  }

  /** What a V5 writer keeps of the type information of a channel: the combined type and
      the descriptor (`SetChannelDataTypeInformation`). */
  function KeptV5(info: Info): Info { Info(CombinedType(info), [], info.descriptor) }

  /** A closed V5 file lists exactly the channels with entries, except those whose name is
      the number of a payload in the same file, and gives back their entries up to equal
      timestamps. */
  lemma ReadBackV5(f: File, slots: Slots)
    requires AllStorable(slots)
    requires forall c | c in slots :: c.id == 0
    ensures ReadChannels(V5, Finish(V5, f, slots)) == set c | c in Free(f, slots) && slots[c].entries != []
    ensures forall c | c in Free(f, slots) && slots[c].entries != [] ::
              ReadEntries(V5, Finish(V5, f, slots), c) == SetOf(slots[c].entries)
  {
    hide Finish, ReadEntries, ListedNames, TableOf, Storable, Extends;
    var h := Finish(V5, f, slots);
    FinishV5(f, slots);
    var free := Free(f, slots);
    var filled := set c | c in free && slots[c].entries != [];
    forall c | c in free && slots[c].entries != []
      ensures c in ReadChannels(V5, h) && ReadEntries(V5, h, c) == SetOf(slots[c].entries)
    {
      assert c.name in Names(slots) && c.name in Filled(free);
      assert c.name in Elements(ListedNames(h));
      assert c == Channel(c.name, 0);
      ReadTableV5(h, c.name, slots[c]);
    }
    forall c | c in ReadChannels(V5, h) ensures c in filled {
      assert c.name in Elements(ListedNames(h));
      var d :| d in free && d.id == 0 && slots[d].entries != [] && d.name == c.name;
    }
  }

  lemma NulTypeIsLost(info: Info)
    ensures CombinedType(info) == NUL ==> forall d: Str :: SplitType([], d) != info
  {
    assert info.encoding != [] ==> |CombinedType(info)| >= 2;
  }

  /** A V5 file gives back the type information of a channel with entries exactly when
      the encoding has no colon, the type name has none if the encoding is empty, and
      neither attribute is a single NUL byte. */
  lemma ReadInfoV5Iff(f: File, slots: Slots, c: Channel, info: Info)
    requires AllStorable(slots)
    requires c in Free(f, slots) && c.id == 0 && slots[c].entries != []
    requires slots[c].info == KeptV5(info)
    ensures ReadInfo(V5, Finish(V5, f, slots), c) == info <==> SurvivesV5(info)
  {
    hide Finish, ReadInfo, ListedNames, TableOf, Storable, Extends;
    var h := Finish(V5, f, slots);
    FinishV5(f, slots);
    assert c.name in Names(slots) && c.name in Filled(Free(f, slots));
    assert c.name in Elements(ListedNames(h));
    assert c == Channel(c.name, 0);
    ReadTableV5(h, c.name, slots[c]);
    var combined := CombinedType(info);
    AttributeRoundTripIff(combined);
    AttributeRoundTripIff(info.descriptor);
    SplitTypeIff(info);
    NulTypeIsLost(info);
  }

  /** An encoding with a colon. */
  const COLON := Info("Pose", "ros:cdr", [])

  /** A V5 writer accepts it, and a reader of the closed file gets another name and
      encoding. */
  lemma ColonIsLost(row: EntryInfo)
    ensures (var slots: Slots := map[Channel("pose", 0) := Slot(KeptV5(COLON), [row])];
             ReadInfo(V5, Finish(V5, EMPTY, slots), Channel("pose", 0)) != COLON)
  {
    var c := Channel("pose", 0);
    var slots: Slots := map[c := Slot(KeptV5(COLON), [row])];
    EscapeFixes(TopicName, "pose");
    UnescapeEscape(TopicName, "pose");
    assert c in Free(EMPTY, slots);
    assert COLON.encoding[3] == ':';
    hide Finish, ReadInfo;
    ReadInfoV5Iff(EMPTY, slots, c, COLON);
  }

  lemma ReadPayload(f: File, k: nat, data: Str)
    requires MapsTo(f, PayloadPath(k), Payload(data))
    ensures ReadData(f, k) == Some(data)
  {
    DecimalIsPlain(k);
    ResolveName(Decimal(k));
  }

  /** Closing a file touches neither its payloads nor its version. */
  lemma FinishKeepsPayloads(v: Version, f: File, slots: Slots, base: nat, data: seq<Str>)
    requires PayloadsOnly(f, base, data) && AllStorable(slots)
    ensures VersionOf(Finish(v, f, slots)) == VersionOf(f)
    ensures forall i | 0 <= i < |data| :: ReadData(Finish(v, f, slots), base + i) == Some(data[i])
  {
    hide Finish, VersionOf, ReadData, HoldsChannel, Storable, ListedNames;
    var h := Finish(v, f, slots);
    if v == V6 {
      PayloadsAreBare(f, base, data);
      FinishV6(f, slots);
    } else {
      FinishV5(f, slots);
    }
    forall i | 0 <= i < |data| ensures ReadData(h, base + i) == Some(data[i]) {
      assert MapsTo(f, PayloadPath(base + i), Payload(data[i]));
      ReadPayload(h, base + i, data[i]);
    }
  }

  // ---------- What is on the disk ----------

  function StoredText(text: Str): Object { if text == [] then Null else Text(text) }

  /** A closed V6 file has, for each of its channels, a group by name with a group by id, and in
      it the three parts of the type information and the table of contents. */
  lemma OnDiskV6(f: File, slots: Slots, c: Channel)
    requires Bare(f) && AllStorable(slots) && c in Free(f, slots)
    ensures (var h, hex := Finish(V6, f, slots), PrintHex(c.id);
             && MapsTo(h, [c.name], Group) && MapsTo(h, [c.name, hex], Group)
             && MapsTo(h, [c.name, hex, "TypeName"], StoredText(slots[c].info.name))
             && MapsTo(h, [c.name, hex, "TypeEncoding"], StoredText(slots[c].info.encoding))
             && MapsTo(h, [c.name, hex, "TypeDescriptor"], StoredText(slots[c].info.descriptor))
             && MapsTo(h, [c.name, hex, "DataTable"], Table(Cells(slots[c].entries), map[])))
  {
    hide Finish, Bare, Dumped, Storable, ListedNames, VersionOf;
    FinishV6(f, slots);
    var h, hex, leaves := Finish(V6, f, slots), PrintHex(c.id), Leaves(slots[c]);
    assert HoldsChannel(h, c, slots[c]);
    assert MapsTo(h, [c.name, hex, leaves[0].0], leaves[0].1) && MapsTo(h, [c.name, hex, leaves[1].0], leaves[1].1);
    assert MapsTo(h, [c.name, hex, leaves[2].0], leaves[2].1) && MapsTo(h, [c.name, hex, leaves[3].0], leaves[3].1);
  }

  /** A closed V5 file has a table of contents by name for each channel with entries, with two
      attributes. */
  lemma OnDiskV5(f: File, slots: Slots, c: Channel)
    requires AllStorable(slots) && c in Free(f, slots) && c.id == 0 && slots[c].entries != []
    ensures MapsTo(Finish(V5, f, slots), [c.name],
                   Table(Cells(slots[c].entries),
                         map["Channel Type" := StoredAttribute(slots[c].info.name),
                             "Channel Description" := StoredAttribute(slots[c].info.descriptor)]))
  {
    hide Finish, ListedNames, Storable, Extends;
    FinishV5(f, slots);
    assert c.name in Names(slots) && c.name in Filled(Free(f, slots));
    assert c.name in Elements(ListedNames(Finish(V5, f, slots)));
    assert c == Channel(c.name, 0);
  }

  /** The list of channels is the attribute `Channels`, in the order of the names. */
  lemma ListOnDisk(f: File, slots: Slots)
    ensures Finish(V6, f, slots).attributes == DumpNames(f, Sorted(Names(slots)), slots).attributes["Channels" := StoredAttribute(Join(Sorted(Names(slots)), ','))]
  {
  }
}
