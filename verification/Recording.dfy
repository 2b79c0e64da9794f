/** The state machine of a measurement file writer: payloads are appended to the open file,
    a new file is started when the size limit is hit, and closing a file writes its table
    of contents (contrib/ecalhdf5/src/eh5_meas_file_writer_v5.cpp, _v6.cpp). */
module Recording {
  import opened Strings
  import opened Hdf5
  import opened Entries
  import opened Layout

  datatype WriteEntry = WriteEntry(channel: Channel, data: Str, snd: int, rcv: int, sender: int, clock: int)

  /** The fields of a writer and the files of its directory. */
  datatype Writer = Writer(version: Version, dir: Str, base: Str, limit: nat,
                           split: int, counter: nat, slots: Slots, open: bool, disk: map<Str, File>)

  function Fresh(version: Version, dir: Str, base: Str, limit: nat): Writer {
    Writer(version, dir, base, limit, -1, 0, map[], false, map[])
  }

  /** V5 keeps the channels of one name together. */
  function Key(v: Version, c: Channel): Channel { if v == V5 then Channel(c.name, 0) else c }

  const EXTENSION: Str := ".hdf5"

  function SplitSuffix(split: nat): Str { if split > 0 then ['_'] + Decimal(split) else [] }

  function FilePath(dir: Str, base: Str, split: nat): Str {
    dir + ['/'] + base + SplitSuffix(split) + EXTENSION
  }

  function CurrentPath(w: Writer): Str
    requires w.split >= 0
  {
    FilePath(w.dir, w.base, w.split)
  }

  /** What the writer's invariants start from: an open file exists on disk. */
  predicate Valid(w: Writer) {
    w.split >= -1 && (w.open ==> w.split >= 0 && CurrentPath(w) in w.disk)
  }

  function Emptied(slots: Slots): Slots { map c | c in slots :: slots[c].(entries := []) }

  /** `Close` */
  function CloseFile(w: Writer): (r: Writer)
    requires Valid(w)
    ensures Valid(r) && !r.open
  {
    if !w.open then w
    else w.(open := false, slots := Emptied(w.slots),
            disk := w.disk[CurrentPath(w) := Finish(w.version, w.disk[CurrentPath(w)], w.slots)])
  }

  function NewFile(v: Version): File { SetAttribute(EMPTY, VERSION, VersionText(v)) }

  /** How the creation of a file ends: the output directory does not exist and cannot be
      made, HDF5 cannot create the file, or the file is open. */
  datatype Outcome = NoDirectory | NoFile | Opened

  /** `Create`: the new file replaces whatever is at its path. Without a directory the call
      returns before it closes the open file. The second result tells whether the call
      succeeded. */
  function CreateFile(w: Writer, made: Outcome): (r: (Writer, bool))
    requires Valid(w)
    ensures Valid(r.0) && (r.1 ==> r.0.open)
  {
    if w.dir == [] || made.NoDirectory? || w.base == [] then (w, false)
    else
      var c := CloseFile(w);
      if made.Opened? then
        var path := FilePath(w.dir, w.base, c.split + 1);
        (c.(split := c.split + 1, open := true, disk := c.disk[path := NewFile(w.version)]), true)
      else (c, false)
  }

  /** A file is created exactly if there is a directory and a base name and nothing fails; it has
      the next number, and holds nothing but its version. */
  lemma CreatesIff(w: Writer, made: Outcome)
    requires Valid(w)
    ensures CreateFile(w, made).1 <==> w.dir != [] && w.base != [] && made.Opened?
    ensures CreateFile(w, made).1 ==>
              (var r := CreateFile(w, made).0;
               var path := w.dir + "/" + w.base + (if w.split == -1 then "" else "_" + Decimal(w.split + 1)) + ".hdf5";
               && r.split == w.split + 1 && r.counter == w.counter && path in r.disk
               && r.disk[path] == File(map[], map["Version" := if w.version == V5 then "5.0" else "6.0"]))
    ensures !CreateFile(w, made).1 ==> (var r := CreateFile(w, made).0; r.split == w.split && r.counter == w.counter)
  {
    hide Finish, Emptied, Decimal;
    assert |VersionText(w.version)| == 3;
    var name := w.dir + ['/'] + w.base;
    assert SplitSuffix(w.split + 1) == if w.split == -1 then "" else "_" + Decimal(w.split + 1);
    assert name == w.dir + "/" + w.base;
  }

  /** `EntryFitsTheFile`, in the 64-bit arithmetic of `hsize_t`. */
  predicate Fits(w: Writer, fileSize: nat, data: Str) { (fileSize + |data|) % TWO64 <= w.limit }

  function RowOf(e: WriteEntry, id: nat): EntryInfo { EntryInfo(e.rcv, id, e.clock, e.snd, e.sender) }

  function AddRow(slots: Slots, c: Channel, row: EntryInfo): Slots {
    var slot := if c in slots then slots[c] else Slot(Info([], [], []), []);
    slots[c := slot.(entries := slot.entries + [row])]
  }

  function Append(w: Writer, e: WriteEntry): (r: Writer)
    requires Valid(w) && w.open
    ensures Valid(r)
  {
    w.(disk := w.disk[CurrentPath(w) := Put(w.disk[CurrentPath(w)], Resolve(Decimal(w.counter)), Payload(e.data))],
       slots := AddRow(w.slots, Key(w.version, e.channel), RowOf(e, w.counter)),
       counter := w.counter + 1)
  }

  /** What the file system answers during one call: how the creation of a first file ends,
      the size of the open file, and how the creation of the next file ends. */
  datatype Answers = Answers(first: Outcome, fileSize: nat, next: Outcome)

  /** `AddEntryToFile` */
  function AddEntry(w: Writer, e: WriteEntry, a: Answers): (r: (Writer, bool))
    requires Valid(w)
    ensures Valid(r.0)
  {
    var w1 := if w.open then w else CreateFile(w, a.first).0;
    if !w1.open then (w1, false)
    else if Fits(w1, a.fileSize, e.data) then (Append(w1, e), true)
    else
      var (w2, created) := CreateFile(w1, a.next);
      if created then (Append(w2, e), true) else (w2, false)
  }

  /** An entry goes into the open file exactly if the file's size and the entry's make no more
      than the limit, in 64 bits; else that file is closed, and the entry goes into the next one
      if that can be created. */
  lemma StaysIffFits(w: Writer, e: WriteEntry, a: Answers)
    requires Valid(w) && w.open && w.dir != [] && w.base != []
    ensures (var r := AddEntry(w, e, a);
             && ((a.fileSize + |e.data|) % 0x1_0000_0000_0000_0000 <= w.limit ==>
                   r.1 && r.0.open && r.0.split == w.split && r.0.counter == w.counter + 1)
             && ((a.fileSize + |e.data|) % 0x1_0000_0000_0000_0000 > w.limit && a.next.Opened? ==>
                   r.1 && r.0.open && r.0.split == w.split + 1 && r.0.counter == w.counter + 1)
             && ((a.fileSize + |e.data|) % 0x1_0000_0000_0000_0000 > w.limit && !a.next.Opened? ==>
                   !r.1 && r.0.split == w.split && r.0.counter == w.counter && (r.0.open <==> a.next.NoDirectory?)))
  {
    hide FilePath, NewFile, Finish, Emptied, AddRow, Put, Resolve;
  }

  /** `SetChannelDataTypeInformation` */
  function SetInfo(w: Writer, c: Channel, info: Info): Writer {
    var key := Key(w.version, c);
    var slot := if key in w.slots then w.slots[key] else Slot(Info([], [], []), []);
    w.(slots := w.slots[key := slot.(info := if w.version == V5 then KeptV5(info) else info)])
  }

  // ---------- Runs ----------

  datatype Op = Add(entry: WriteEntry, answers: Answers) | Describe(channel: Channel, info: Info) | Close

  /** A writer with its history: the entries it accepted, and where in that log each of
      its files begins. */
  datatype Trace = Trace(w: Writer, log: seq<WriteEntry>, cuts: seq<nat>)

  function Repeated(cuts: seq<nat>, times: nat, at: nat): seq<nat>
    decreases times
  {
    if times == 0 then cuts else Repeated(cuts + [at], times - 1, at)
  }

  function NewFiles(before: Writer, after: Writer): nat {
    if after.split > before.split then after.split - before.split else 0
  }

  ghost function Step(t: Trace, op: Op): (r: Trace)
    requires Valid(t.w)
    ensures Valid(r.w)
  {
    match op
    case Describe(c, info) => t.(w := SetInfo(t.w, c, info))
    case Close => t.(w := CloseFile(t.w))
    case Add(e, a) =>
      var (w, ok) := AddEntry(t.w, e, a);
      Trace(w, if ok then t.log + [e] else t.log, Repeated(t.cuts, NewFiles(t.w, w), |t.log|))
  }

  ghost function Run(version: Version, dir: Str, base: Str, limit: nat, ops: seq<Op>): (r: Trace)
    ensures Valid(r.w)
  {
    if ops == [] then Trace(Fresh(version, dir, base, limit), [], [])
    else Step(Run(version, dir, base, limit, ops[..|ops| - 1]), ops[|ops| - 1])
  }

  // ---------- Where the entries are ----------

  /** The rows of channel `c` in a stretch of the log whose first entry has id `base`. */
  function RowsFor(v: Version, seg: seq<WriteEntry>, base: nat, c: Channel): seq<EntryInfo> {
    if seg == [] then []
    else
      var n := |seg| - 1;
      RowsFor(v, seg[..n], base, c) + (if Key(v, seg[n].channel) == c then [RowOf(seg[n], base + n)] else [])
  }

  function Payloads(seg: seq<WriteEntry>): seq<Str> { seq(|seg|, i requires 0 <= i < |seg| => seg[i].data) }

  predicate Cutting(log: seq<WriteEntry>, cuts: seq<nat>) {
    && (forall k | 0 <= k < |cuts| :: cuts[k] <= |log|)
    && (forall j, k | 0 <= j < k < |cuts| :: cuts[j] <= cuts[k])
  }

  /** The stretch of the log that went into file `k`. */
  function Segment(log: seq<WriteEntry>, cuts: seq<nat>, k: nat): seq<WriteEntry>
    requires k < |cuts| && Cutting(log, cuts)
  {
    log[cuts[k]..if k + 1 < |cuts| then cuts[k + 1] else |log|]
  }

  /** The name is the number of one of `count` payloads numbered from `base`. */
  ghost predicate Taken(name: Str, base: nat, count: nat) {
    exists k | base <= k < base + count :: name == Decimal(k)
  }

  /** What a reader finds in a closed file that holds the entries `seg`: their payloads, and
      the entries of every channel whose name is not the number of one of the payloads. */
  ghost predicate Archived(v: Version, f: File, seg: seq<WriteEntry>, base: nat) {
    && VersionOf(f) == Some(v)
    && (forall c | c in ReadChannels(v, f) ::
          Storable(c.name) && !Taken(c.name, base, |seg|) && ReadEntries(v, f, c) == SetOf(RowsFor(v, seg, base, c)))
    && (forall i | 0 <= i < |seg| :: Taken(seg[i].channel.name, base, |seg|) || Key(v, seg[i].channel) in ReadChannels(v, f))
    && (forall i | 0 <= i < |seg| :: ReadData(f, base + i) == Some(seg[i].data))
  }

  /** The writer's table of contents matches the stretch of the log in the open file. */
  ghost predicate Tabulated(v: Version, slots: Slots, seg: seq<WriteEntry>, base: nat) {
    && (forall c | c in slots :: Storable(c.name) && slots[c].entries == RowsFor(v, seg, base, c))
    && (forall i | 0 <= i < |seg| :: Key(v, seg[i].channel) in slots)
    && (v == V5 ==> forall c | c in slots :: c.id == 0)
  }

  ghost predicate Partial(v: Version, f: File, seg: seq<WriteEntry>, base: nat) {
    VersionOf(f) == Some(v) && PayloadsOnly(f, base, Payloads(seg))
  }

  function Paths(dir: Str, base: Str, n: nat): set<Str> { set k | 0 <= k < n :: FilePath(dir, base, k) }

  ghost predicate ArchivedAt(w: Writer, log: seq<WriteEntry>, cuts: seq<nat>, k: nat)
    requires Cutting(log, cuts) && k < |cuts|
  {
    var p := FilePath(w.dir, w.base, k);
    p in w.disk && Archived(w.version, w.disk[p], Segment(log, cuts, k), cuts[k])
  }

  /** The first `n` files are archives of their stretches of the log. */
  ghost predicate AllArchived(w: Writer, log: seq<WriteEntry>, cuts: seq<nat>, n: nat)
    requires Cutting(log, cuts) && n <= |cuts|
  {
    forall k | 0 <= k < n :: ArchivedAt(w, log, cuts, k)
  }

  function Closed(w: Writer): int { if w.open then w.split else w.split + 1 }

  function CurrentBase(t: Trace): nat
    requires Valid(t.w) && t.w.split == |t.cuts| - 1
  {
    if t.w.open then t.cuts[t.w.split] else 0
  }

  function CurrentSegment(t: Trace): seq<WriteEntry>
    requires Valid(t.w) && t.w.split == |t.cuts| - 1 && Cutting(t.log, t.cuts)
  {
    if t.w.open then Segment(t.log, t.cuts, t.w.split) else []
  }

  /** The log is cut into as many stretches as there are files, none of it before the
      first. */
  ghost predicate Counted(t: Trace) {
    && Valid(t.w)
    && t.w.split == |t.cuts| - 1
    && t.w.counter == |t.log|
    && Cutting(t.log, t.cuts)
    && (if t.cuts == [] then t.log == [] else t.cuts[0] == 0)
  }

  /** Every file on disk has its own path and holds its own stretch of the log. */
  ghost predicate Filed(t: Trace) {
    && Counted(t)
    && t.w.disk.Keys == Paths(t.w.dir, t.w.base, |t.cuts|)
    && AllArchived(t.w, t.log, t.cuts, Closed(t.w))
    && (t.w.open ==> Partial(t.w.version, t.w.disk[CurrentPath(t.w)], CurrentSegment(t), CurrentBase(t)))
    && Tabulated(t.w.version, t.w.slots, CurrentSegment(t), CurrentBase(t))
  }

  /** Names of the channels an operation mentions can be stored. */
  ghost predicate StorableOp(op: Op) {
    match op
    case Add(e, _) => Storable(e.channel.name)
    case Describe(c, _) => Storable(c.name)
    case Close => true
  }

  // ---------- Each operation keeps the files in order ----------

  lemma SuffixInjective(i: nat, j: nat)
    requires SplitSuffix(i) == SplitSuffix(j)
    ensures i == j
  {
    if i > 0 && j > 0 {
      assert SplitSuffix(i)[1..] == Decimal(i) && SplitSuffix(j)[1..] == Decimal(j);
      DecimalInjective(i, j);
    }
  }

  /** A writer's files have different paths. */
  lemma PathInjective(dir: Str, base: Str, i: nat, j: nat)
    requires FilePath(dir, base, i) == FilePath(dir, base, j)
    ensures i == j
  {
    var p := FilePath(dir, base, i);
    var n := |dir + ['/'] + base|;
    assert p[n..|p| - |EXTENSION|] == SplitSuffix(i);
    assert p[n..|p| - |EXTENSION|] == SplitSuffix(j);
    SuffixInjective(i, j);
  }

  lemma {:induction false} RowsForNone(v: Version, seg: seq<WriteEntry>, base: nat, c: Channel)
    requires forall i | 0 <= i < |seg| :: Key(v, seg[i].channel) != c
    ensures RowsFor(v, seg, base, c) == []
  {
    if seg != [] {
      RowsForNone(v, seg[..|seg| - 1], base, c);
    }
  }

  lemma {:induction false} RowsForSome(v: Version, seg: seq<WriteEntry>, base: nat, i: nat)
    requires i < |seg|
    ensures RowsFor(v, seg, base, Key(v, seg[i].channel)) != []
  {
    if i < |seg| - 1 {
      RowsForSome(v, seg[..|seg| - 1], base, i);
    }
  }

  /** A name is in a bare file exactly if it is the number of a payload. */
  lemma TakenIff(f: File, base: nat, data: seq<Str>, name: Str)
    requires PayloadsOnly(f, base, data)
    ensures [name] in f.objects <==> Taken(name, base, |data|)
  {
    var p: Path := [name];
    if p in f.objects {
      var k :| base <= k < base + |data| && p == PayloadPath(k);
      assert p[0] == Decimal(k);
    }
    if Taken(name, base, |data|) {
      var k :| base <= k < base + |data| && name == Decimal(k);
      assert MapsTo(f, PayloadPath(base + (k - base)), Payload(data[k - base]));
    }
  }

  lemma FreeIff(f: File, slots: Slots, seg: seq<WriteEntry>, base: nat, c: Channel)
    requires PayloadsOnly(f, base, Payloads(seg))
    ensures c in Free(f, slots) <==> c in slots && !Taken(c.name, base, |seg|)
  {
    TakenIff(f, base, Payloads(seg), c.name);
    hide Taken, PayloadsOnly;
  }

  /** The channels a closed file lists, with their entries. */
  lemma FinishLists(v: Version, f: File, slots: Slots, seg: seq<WriteEntry>, base: nat, c: Channel)
    requires Partial(v, f, seg, base) && Tabulated(v, slots, seg, base)
    ensures (var h := Finish(v, f, slots);
             && (c in ReadChannels(v, h) ==> c in slots && !Taken(c.name, base, |seg|) && ReadEntries(v, h, c) == SetOf(slots[c].entries))
             && (c in slots && slots[c].entries != [] && !Taken(c.name, base, |seg|) ==> c in ReadChannels(v, h)))
  {
    FreeIff(f, slots, seg, base, c);
    hide ReadChannels, ReadEntries, ReadData, Finish, Storable, Taken, RowsFor;
    assert AllStorable(slots);
    if v == V6 {
      PayloadsAreBare(f, base, Payloads(seg));
      ReadBackV6(f, slots);
    } else {
      ReadBackV5(f, slots);
    }
  }

  /** Closing turns the open file into an archive of its stretch of the log. */
  lemma FinishArchives(v: Version, f: File, slots: Slots, seg: seq<WriteEntry>, base: nat)
    requires Partial(v, f, seg, base) && Tabulated(v, slots, seg, base)
    ensures Archived(v, Finish(v, f, slots), seg, base)
  {
    var h := Finish(v, f, slots);
    assert AllStorable(slots);
    FinishKeepsPayloads(v, f, slots, base, Payloads(seg));
    forall i | 0 <= i < |seg| ensures ReadData(h, base + i) == Some(seg[i].data) {
      assert Payloads(seg)[i] == seg[i].data;
    }
    hide VersionOf, ReadChannels, ReadEntries, ReadData, Finish, Storable, PayloadsOnly, Taken;
    forall c | c in ReadChannels(v, h)
      ensures Storable(c.name) && !Taken(c.name, base, |seg|) && ReadEntries(v, h, c) == SetOf(RowsFor(v, seg, base, c))
    {
      FinishLists(v, f, slots, seg, base, c);
    }
    forall i | 0 <= i < |seg| ensures Taken(seg[i].channel.name, base, |seg|) || Key(v, seg[i].channel) in ReadChannels(v, h) {
      RowsForSome(v, seg, base, i);
      FinishLists(v, f, slots, seg, base, Key(v, seg[i].channel));
    }
  }

  lemma TabulatedEmpty(v: Version, slots: Slots, seg: seq<WriteEntry>, base: nat, other: nat)
    requires Tabulated(v, slots, seg, base)
    ensures Tabulated(v, Emptied(slots), [], other)
  {
  }

  lemma ArchiveMore(w: Writer, r: Writer, log: seq<WriteEntry>, cuts: seq<nat>, n: nat, f: File)
    requires Cutting(log, cuts) && n < |cuts| && AllArchived(w, log, cuts, n)
    requires r.version == w.version && r.dir == w.dir && r.base == w.base
    requires r.disk == w.disk[FilePath(w.dir, w.base, n) := f]
    ensures AllArchived(r, log, cuts, n)
    ensures Archived(w.version, f, Segment(log, cuts, n), cuts[n]) ==> AllArchived(r, log, cuts, n + 1)
  {
    hide Archived, FilePath, Segment;
    forall k | 0 <= k < n ensures ArchivedAt(r, log, cuts, k) {
      assert ArchivedAt(w, log, cuts, k);
      if FilePath(w.dir, w.base, k) == FilePath(w.dir, w.base, n) {
        PathInjective(w.dir, w.base, k, n);
      }
    }
  }

  lemma CloseKeeps(t: Trace)
    requires Filed(t)
    ensures Filed(t.(w := CloseFile(t.w)))
  {
    if t.w.open {
      hide Finish, Archived, Partial, Tabulated, FilePath, Segment, AllArchived;
      var k := t.w.split;
      var f := Finish(t.w.version, t.w.disk[CurrentPath(t.w)], t.w.slots);
      FinishArchives(t.w.version, t.w.disk[CurrentPath(t.w)], t.w.slots, CurrentSegment(t), CurrentBase(t));
      TabulatedEmpty(t.w.version, t.w.slots, CurrentSegment(t), CurrentBase(t), 0);
      ArchiveMore(t.w, CloseFile(t.w), t.log, t.cuts, k, f);
      assert CurrentPath(t.w) in t.w.disk.Keys;
      assert CloseFile(t.w).disk.Keys == t.w.disk.Keys;
    }
  }

  lemma NewFileIsPartial(v: Version, base: nat)
    ensures Partial(v, NewFile(v), [], base)
  {
    assert |VersionText(V5)| == 3 && VersionText(V5)[0] == '5' && VersionText(V6)[0] == '6';
    assert |NUL| == 1;
  }

  ghost function Created(t: Trace, made: Outcome): Trace
    requires Valid(t.w)
  {
    var w := CreateFile(t.w, made).0;
    Trace(w, t.log, if w.split > t.w.split then t.cuts + [|t.log|] else t.cuts)
  }

  lemma CutMore(w: Writer, log: seq<WriteEntry>, cuts: seq<nat>)
    requires Cutting(log, cuts) && AllArchived(w, log, cuts, |cuts|)
    ensures Cutting(log, cuts + [|log|]) && AllArchived(w, log, cuts + [|log|], |cuts|)
  {
    hide Archived, FilePath;
    forall k | 0 <= k < |cuts| ensures ArchivedAt(w, log, cuts + [|log|], k) {
      assert ArchivedAt(w, log, cuts, k);
      assert Segment(log, cuts + [|log|], k) == Segment(log, cuts, k);
    }
  }

  lemma OneMorePath(dir: Str, base: Str, n: nat)
    ensures Paths(dir, base, n + 1) == Paths(dir, base, n) + {FilePath(dir, base, n)}
  {
    hide FilePath;
  }

  lemma NextSegmentEmpty(log: seq<WriteEntry>, cuts: seq<nat>)
    requires Cutting(log, cuts)
    ensures Cutting(log, cuts + [|log|]) && Segment(log, cuts + [|log|], |cuts|) == []
  {
  }

  lemma TabulatedMoves(v: Version, slots: Slots, base: nat, other: nat)
    requires Tabulated(v, slots, [], base)
    ensures Tabulated(v, slots, [], other)
  {
  }

  lemma CreateAfterClose(c: Trace, made: Outcome)
    requires Filed(c) && !c.w.open && c.w.dir != [] && c.w.base != []
    ensures Filed(Created(c, made))
  {
    hide Archived, Partial, Tabulated, FilePath, Segment, NewFile, AllArchived, Paths;
    if made.Opened? {
      var r := Created(c, made);
      CutMore(c.w, c.log, c.cuts);
      ArchiveMore(c.w, r.w, r.log, r.cuts, |c.cuts|, NewFile(c.w.version));
      NextSegmentEmpty(c.log, c.cuts);
      NewFileIsPartial(r.w.version, |r.log|);
      TabulatedMoves(c.w.version, c.w.slots, 0, |r.log|);
      OneMorePath(c.w.dir, c.w.base, |c.cuts|);
    }
  }

  lemma CreateClosesFirst(t: Trace, made: Outcome)
    requires Valid(t.w) && t.w.dir != [] && t.w.base != [] && !made.NoDirectory?
    ensures Created(t, made) == Created(t.(w := CloseFile(t.w)), made)
  {
    hide FilePath, NewFile, Finish, Emptied;
  }

  lemma CreateKeeps(t: Trace, made: Outcome)
    requires Filed(t)
    ensures Filed(Created(t, made))
  {
    assert Valid(t.w);
    if t.w.dir != [] && t.w.base != [] && !made.NoDirectory? {
      CloseKeeps(t);
      CreateClosesFirst(t, made);
      var c := t.(w := CloseFile(t.w));
      assert !c.w.open && c.w.dir != [] && c.w.base != [];
      hide Filed, Created;
      CreateAfterClose(c, made);
    } else {
      assert Created(t, made) == t;
    }
  }

  lemma NextPayloadIsFree(f: File, base: nat, data: seq<Str>)
    requires PayloadsOnly(f, base, data)
    ensures CanCreate(f, PayloadPath(base + |data|))
  {
    var p := PayloadPath(base + |data|);
    assert p[..0] == [];
    if p in f.objects {
      var k :| base <= k < base + |data| && p == PayloadPath(k);
      assert p[0] == Decimal(k);
      DecimalInjective(k, base + |data|);
    }
  }

  lemma NextPayloadIsNew(f: File, base: nat, data: seq<Str>)
    requires PayloadsOnly(f, base, data)
    ensures PayloadPath(base + |data|) !in f.objects
  {
    NextPayloadIsFree(f, base, data);
  }

  lemma PayloadsMore(f: File, base: nat, data: seq<Str>, x: Str)
    requires PayloadsOnly(f, base, data)
    ensures PayloadsOnly(Put(f, PayloadPath(base + |data|), Payload(x)), base, data + [x])
  {
    NextPayloadIsFree(f, base, data);
    hide PayloadPath, CanCreate;
    var p := PayloadPath(base + |data|);
    var g := Put(f, p, Payload(x));
    forall i | 0 <= i < |data| + 1 ensures MapsTo(g, PayloadPath(base + i), Payload((data + [x])[i])) {
      if i < |data| {
        assert MapsTo(f, PayloadPath(base + i), Payload(data[i]));
        NextPayloadIsNew(f, base, data);
      }
    }
    forall q | q in g.objects ensures exists k | base <= k < base + |data + [x]| :: q == PayloadPath(k) {
      if q != p {
        var k :| base <= k < base + |data| && q == PayloadPath(k);
      }
    }
  }

  lemma PartialMore(v: Version, f: File, seg: seq<WriteEntry>, base: nat, e: WriteEntry)
    requires Partial(v, f, seg, base)
    ensures Partial(v, Put(f, Resolve(Decimal(base + |seg|)), Payload(e.data)), seg + [e], base)
  {
    DecimalIsPlain(base + |seg|);
    ResolveName(Decimal(base + |seg|));
    PayloadsMore(f, base, Payloads(seg), e.data);
    assert Payloads(seg + [e]) == Payloads(seg) + [e.data];
    hide Resolve, PayloadsOnly;
  }

  lemma RowsForAppend(v: Version, seg: seq<WriteEntry>, base: nat, c: Channel, e: WriteEntry)
    ensures RowsFor(v, seg + [e], base, c)
         == RowsFor(v, seg, base, c) + (if Key(v, e.channel) == c then [RowOf(e, base + |seg|)] else [])
  {
    assert (seg + [e])[..|seg|] == seg;
  }

  lemma TabulatedMore(v: Version, slots: Slots, seg: seq<WriteEntry>, base: nat, e: WriteEntry)
    requires Tabulated(v, slots, seg, base) && Storable(e.channel.name)
    ensures Tabulated(v, AddRow(slots, Key(v, e.channel), RowOf(e, base + |seg|)), seg + [e], base)
  {
    hide Storable, RowsFor, RowOf;
    var key := Key(v, e.channel);
    var more := AddRow(slots, key, RowOf(e, base + |seg|));
    if key !in slots {
      RowsForNone(v, seg, base, key);
    }
    forall c | c in more ensures more[c].entries == RowsFor(v, seg + [e], base, c) {
      RowsForAppend(v, seg, base, c, e);
    }
    forall i | 0 <= i < |seg + [e]| ensures Key(v, (seg + [e])[i].channel) in more {
      assert i < |seg| ==> (seg + [e])[i] == seg[i];
    }
  }

  lemma LogMore(w: Writer, log: seq<WriteEntry>, cuts: seq<nat>, n: nat, e: WriteEntry)
    requires Cutting(log, cuts) && n < |cuts| && AllArchived(w, log, cuts, n)
    ensures Cutting(log + [e], cuts) && AllArchived(w, log + [e], cuts, n)
    ensures Segment(log + [e], cuts, |cuts| - 1) == Segment(log, cuts, |cuts| - 1) + [e]
  {
    hide Archived, FilePath;
    forall k | 0 <= k < n ensures ArchivedAt(w, log + [e], cuts, k) {
      assert ArchivedAt(w, log, cuts, k);
      assert Segment(log + [e], cuts, k) == Segment(log, cuts, k);
    }
  }

  lemma CounterContinues(t: Trace)
    requires Counted(t) && t.w.open
    ensures t.w.counter == CurrentBase(t) + |CurrentSegment(t)|
  {
    hide FilePath;
  }

  lemma AppendCounts(t: Trace, e: WriteEntry)
    requires Counted(t) && t.w.open
    ensures Counted(Trace(Append(t.w, e), t.log + [e], t.cuts))
    ensures Append(t.w, e).disk.Keys == t.w.disk.Keys
  {
    hide FilePath, AddRow, Put, Resolve;
    assert CurrentPath(t.w) in t.w.disk.Keys;
  }

  lemma AppendExtends(t: Trace, e: WriteEntry)
    requires Counted(t) && t.w.open
    requires Counted(Trace(Append(t.w, e), t.log + [e], t.cuts))
    ensures (var r := Trace(Append(t.w, e), t.log + [e], t.cuts);
             CurrentSegment(r) == CurrentSegment(t) + [e] && CurrentBase(r) == CurrentBase(t) && r.w.open && Closed(r.w) == t.w.split)
  {
    hide FilePath, AddRow, Put, Resolve;
  }

  lemma AppendKeeps(t: Trace, e: WriteEntry)
    requires Filed(t) && t.w.open && Storable(e.channel.name)
    ensures Filed(Trace(Append(t.w, e), t.log + [e], t.cuts))
  {
    hide Archived, Partial, Tabulated, FilePath, Segment, AllArchived, Paths, AddRow, Put, Resolve, CurrentSegment, CurrentBase, Storable;
    var r := Trace(Append(t.w, e), t.log + [e], t.cuts);
    CounterContinues(t);
    AppendCounts(t, e);
    AppendExtends(t, e);
    PartialMore(t.w.version, t.w.disk[CurrentPath(t.w)], CurrentSegment(t), CurrentBase(t), e);
    TabulatedMore(t.w.version, t.w.slots, CurrentSegment(t), CurrentBase(t), e);
    ArchiveMore(t.w, r.w, t.log, t.cuts, t.w.split, r.w.disk[CurrentPath(t.w)]);
    LogMore(r.w, t.log, t.cuts, t.w.split, e);
  }

  lemma DescribeKeeps(t: Trace, c: Channel, info: Info)
    requires Filed(t) && Storable(c.name)
    ensures Filed(t.(w := SetInfo(t.w, c, info)))
  {
    hide Archived, Partial, FilePath, Segment, Paths, Storable;
    var r := t.(w := SetInfo(t.w, c, info));
    var key := Key(t.w.version, c);
    var seg, base := CurrentSegment(t), CurrentBase(t);
    if key !in t.w.slots {
      RowsForNone(t.w.version, seg, base, key);
    }
    forall k | 0 <= k < Closed(r.w) ensures ArchivedAt(r.w, r.log, r.cuts, k) {
      assert ArchivedAt(t.w, t.log, t.cuts, k);
    }
  }

  // ---------- Runs keep the files in order ----------

  /** One accepted or rejected entry, file creation by file creation. */
  ghost function AddTrace(t: Trace, e: WriteEntry, a: Answers): Trace
    requires Valid(t.w)
  {
    var t1 := if t.w.open then t else Created(t, a.first);
    if !t1.w.open then t1
    else if Fits(t1.w, a.fileSize, e.data) then Trace(Append(t1.w, e), t1.log + [e], t1.cuts)
    else
      var t2 := Created(t1, a.next);
      if CreateFile(t1.w, a.next).1 then Trace(Append(t2.w, e), t2.log + [e], t2.cuts) else t2
  }

  lemma AddTraceIsStep(t: Trace, e: WriteEntry, a: Answers)
    requires Valid(t.w)
    ensures Step(t, Add(e, a)) == AddTrace(t, e, a)
  {
    hide FilePath, NewFile, Finish, Emptied, Fits, Valid, AddRow;
    var cuts, x := t.cuts, |t.log|;
    assert Repeated(cuts, 1, x) == cuts + [x] && Repeated(cuts, 2, x) == cuts + [x] + [x];
  }

  lemma StepKeeps(t: Trace, op: Op)
    requires Filed(t) && StorableOp(op)
    ensures Filed(Step(t, op))
  {
    assert Valid(t.w);
    match op
    case Describe(c, info) => DescribeKeeps(t, c, info);
    case Close => CloseKeeps(t);
    case Add(e, a) =>
      AddTraceIsStep(t, e, a);
      hide Filed, Step;
      CreateKeeps(t, a.first);
      var t1 := if t.w.open then t else Created(t, a.first);
      if t1.w.open {
        CreateKeeps(t1, a.next);
        if Fits(t1.w, a.fileSize, e.data) {
          AppendKeeps(t1, e);
        } else if CreateFile(t1.w, a.next).1 {
          AppendKeeps(Created(t1, a.next), e);
        }
      }
  }

  /** After any run, every file holds its own stretch of the log of accepted entries. */
  lemma {:induction false} RunIsFiled(version: Version, dir: Str, base: Str, limit: nat, ops: seq<Op>)
    requires forall op | op in ops :: StorableOp(op)
    ensures Filed(Run(version, dir, base, limit, ops))
  {
    if ops != [] {
      var n := |ops| - 1;
      RunIsFiled(version, dir, base, limit, ops[..n]);
      assert ops[n] in ops;
      StepKeeps(Run(version, dir, base, limit, ops[..n]), ops[n]);
    }
  }
}
