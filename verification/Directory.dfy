/** A directory that is written through several writers, one for each channel name in
    one-file-per-channel mode (contrib/ecalhdf5/src/eh5_meas_dir.cpp:332-351, 490-523). */
module Directory {
  import opened Strings
  import opened Hdf5
  import opened Layout
  import opened Recording
  import opened ChannelFiles

  datatype Config = Config(version: Version, perChannel: bool, dir: Str, base: Str, limit: nat)

  /** `GetWriter`: with one file per channel the name is the key, else there is one writer. */
  function WriterKey(cfg: Config, c: Channel): Str { if cfg.perChannel then c.name else [] }

  function WriterBase(cfg: Config, key: Str): Str { if cfg.perChannel then ChannelBase(cfg.base, key) else cfg.base }

  /** A call that reaches the writer with this key; closing the directory closes each. */
  datatype Act = Act(key: Str, op: Op)

  predicate Routed(cfg: Config, a: Act) {
    match a.op
    case Add(e, _) => a.key == WriterKey(cfg, e.channel)
    case Describe(c, _) => a.key == WriterKey(cfg, c)
    case Close => true
  }

  /** The writer that made a file last, and the number the file has there. */
  datatype Maker = Maker(key: Str, split: nat)

  /** Writers share one disk. `makers` records, for each path on it, who created the file that
      is there. */
  datatype Dir = Dir(writers: map<Str, Writer>, disk: map<Str, File>, makers: map<Str, Maker>)

  /** A writer, looking at the shared disk. */
  function WriterAt(cfg: Config, d: Dir, key: Str): Writer {
    (if key in d.writers then d.writers[key] else Fresh(cfg.version, cfg.dir, WriterBase(cfg, key), cfg.limit)).(disk := d.disk)
  }

  function WriterStep(w: Writer, op: Op): (r: Writer)
    requires Valid(w)
    ensures Valid(r)
  {
    match op
    case Describe(c, info) => SetInfo(w, c, info)
    case Close => CloseFile(w)
    case Add(e, a) => AddEntry(w, e, a).0
  }

  predicate IsOpenAt(w: Writer, path: Str) { w.open && w.split >= 0 && FilePath(w.dir, w.base, w.split) == path }

  /** HDF5 creates no file at a path that is open in the process. */
  predicate NoneOpen(d: Dir, key: Str, path: Str) {
    forall k | k in d.writers && k != key :: !IsOpenAt(d.writers[k], path)
  }

  predicate Possible(d: Dir, key: Str, before: Writer, after: Writer) {
    forall j: nat | before.split < j <= after.split :: NoneOpen(d, key, FilePath(after.dir, after.base, j))
  }

  /** The files after number `before`, up to `after`, of a writer are new. */
  function Remade(makers: map<Str, Maker>, w: Writer, key: Str, before: int, after: int): map<Str, Maker>
    requires before >= -1
    decreases after - before
  {
    if after <= before then makers
    else Remade(makers, w, key, before, after - 1)[FilePath(w.dir, w.base, after) := Maker(key, after)]
  }

  /** Without a base name the directory takes no entries. */
  predicate Skips(cfg: Config, a: Act) { a.op.Add? && cfg.base == [] }

  function Next(cfg: Config, d: Dir, a: Act): Option<Dir> {
    if Skips(cfg, a) then Some(d)
    else
      var w := WriterAt(cfg, d, a.key);
      if !Valid(w) then None
      else
        var r := WriterStep(w, a.op);
        if Possible(d, a.key, w, r) then
          Some(Dir(d.writers[a.key := r.(disk := map[])], r.disk, Remade(d.makers, r, a.key, w.split, r.split)))
        else None
  }

  /** The directory after some calls, if HDF5 let each happen that way. */
  function RunDir(cfg: Config, acts: seq<Act>): Option<Dir> {
    if acts == [] then Some(Dir(map[], map[], map[]))
    else
      match RunDir(cfg, acts[..|acts| - 1])
      case None => None
      case Some(d) => Next(cfg, d, acts[|acts| - 1])
  }

  // ---------- Each writer as if it were alone ----------

  /** The operations that reach one writer. */
  function OpsFor(cfg: Config, acts: seq<Act>, key: Str): seq<Op> {
    if acts == [] then []
    else
      var a := acts[|acts| - 1];
      OpsFor(cfg, acts[..|acts| - 1], key) + if a.key == key && !Skips(cfg, a) then [a.op] else []
  }

  /** The writer's run in a directory of its own. */
  ghost function Alone(cfg: Config, acts: seq<Act>, key: Str): (t: Trace)
    ensures Valid(t.w)
  {
    Run(cfg.version, cfg.dir, WriterBase(cfg, key), cfg.limit, OpsFor(cfg, acts, key))
  }

  // ---------- What an operation does depends on its own file only ----------

  /** Writers that differ in the disk, but not at the open file. */
  ghost predicate Twins(w: Writer, x: Writer) {
    && Valid(w) && Valid(x) && x == w.(disk := x.disk)
    && (w.open ==> w.disk[CurrentPath(w)] == x.disk[CurrentPath(w)])
  }

  /** The open file, and those created on the way. */
  ghost predicate Touches(w: Writer, r: Writer, p: Str)
    requires w.split >= -1
  {
    (w.open && w.split >= 0 && p == FilePath(w.dir, w.base, w.split))
    || exists j: nat :: w.split < j <= r.split && p == FilePath(w.dir, w.base, j)
  }

  ghost predicate Within(w: Writer, r: Writer, change: map<Str, File>) {
    && r.dir == w.dir && r.base == w.base && -1 <= w.split <= r.split
    && (r.open && r.split == w.split ==> w.open)
    && (forall p | p in change :: Touches(w, r, p))
    && (forall j: nat | w.split < j <= r.split :: FilePath(w.dir, w.base, j) in change)
  }

  /** Both writers change their disks in the same way, at files of their own. */
  ghost predicate Moved(w: Writer, x: Writer, r: Writer, s: Writer, change: map<Str, File>) {
    Twins(r, s) && r.disk == w.disk + change && s.disk == x.disk + change && Within(w, r, change)
  }

  lemma NothingMoved(w: Writer, x: Writer)
    requires Twins(w, x)
    ensures Moved(w, x, w, x, map[])
  {
    hide FilePath;
  }

  lemma WithinTwice(w: Writer, m: Writer, r: Writer, first: map<Str, File>, second: map<Str, File>)
    requires Within(w, m, first) && Within(m, r, second)
    ensures Within(w, r, first + second)
  {
    hide FilePath;
    forall p | p in first + second ensures Touches(w, r, p) {
      if p in second {
        assert Touches(m, r, p);
      } else {
        assert Touches(w, m, p);
      }
    }
  }

  lemma MergedTwice(disk: map<Str, File>, first: map<Str, File>, second: map<Str, File>)
    ensures disk + (first + second) == (disk + first) + second
  {
  }

  lemma MovedTwice(w: Writer, x: Writer, m: Writer, n: Writer, r: Writer, s: Writer, first: map<Str, File>, second: map<Str, File>)
    requires Moved(w, x, m, n, first) && Moved(m, n, r, s, second)
    ensures Moved(w, x, r, s, first + second)
  {
    WithinTwice(w, m, r, first, second);
    hide Within, Twins;
    MergedTwice(w.disk, first, second);
    MergedTwice(x.disk, first, second);
  }

  lemma CloseMoves(w: Writer, x: Writer) returns (change: map<Str, File>)
    requires Twins(w, x)
    ensures Moved(w, x, CloseFile(w), CloseFile(x), change)
  {
    hide FilePath, Finish, Emptied;
    change := if w.open then map[CurrentPath(w) := Finish(w.version, w.disk[CurrentPath(w)], w.slots)] else map[];
  }

  lemma OpenMoves(c: Writer, x: Writer) returns (change: map<Str, File>)
    requires Twins(c, x) && !c.open
    ensures (var path := FilePath(c.dir, c.base, c.split + 1);
             Moved(c, x, c.(split := c.split + 1, open := true, disk := c.disk[path := NewFile(c.version)]),
                   x.(split := x.split + 1, open := true, disk := x.disk[path := NewFile(x.version)]), change))
  {
    hide FilePath, NewFile;
    change := map[FilePath(c.dir, c.base, c.split + 1) := NewFile(c.version)];
  }

  lemma MovedIsTwins(w: Writer, x: Writer, r: Writer, s: Writer, change: map<Str, File>)
    requires Moved(w, x, r, s, change)
    ensures Twins(r, s) && Valid(r) && Valid(s) && s.version == r.version && s.open == r.open && s.limit == r.limit
  {
  }

  lemma CreateMoves(w: Writer, x: Writer, made: Outcome) returns (change: map<Str, File>)
    requires Twins(w, x)
    ensures CreateFile(w, made).1 == CreateFile(x, made).1
    ensures Moved(w, x, CreateFile(w, made).0, CreateFile(x, made).0, change)
  {
    assert Valid(w) && Valid(x) && x.dir == w.dir && x.base == w.base;
    hide Moved, CloseFile, Twins, FilePath, NewFile;
    if w.dir == [] || made.NoDirectory? || w.base == [] {
      NothingMoved(w, x);
      change := map[];
    } else {
      change := CloseMoves(w, x);
      MovedIsTwins(w, x, CloseFile(w), CloseFile(x), change);
      if made.Opened? {
        var more := OpenMoves(CloseFile(w), CloseFile(x));
        MovedTwice(w, x, CloseFile(w), CloseFile(x), CreateFile(w, made).0, CreateFile(x, made).0, change, more);
        change := change + more;
      }
    }
  }

  lemma AppendMoves(w: Writer, x: Writer, e: WriteEntry) returns (change: map<Str, File>)
    requires Twins(w, x) && w.open
    ensures Moved(w, x, Append(w, e), Append(x, e), change)
  {
    hide FilePath, Put, Resolve, AddRow, RowOf;
    change := map[CurrentPath(w) := Append(w, e).disk[CurrentPath(w)]];
  }

  lemma AddMoves(w: Writer, x: Writer, e: WriteEntry, a: Answers) returns (change: map<Str, File>)
    requires Twins(w, x)
    ensures Valid(w) && Valid(x) && Moved(w, x, AddEntry(w, e, a).0, AddEntry(x, e, a).0, change)
    ensures AddEntry(w, e, a).1 == AddEntry(x, e, a).1
  {
    assert Valid(w) && Valid(x) && x.open == w.open;
    NothingMoved(w, x);
    hide Moved, Twins, CreateFile, Append;
    var w1, x1 := w, x;
    change := map[];
    if !w.open {
      change := CreateMoves(w, x, a.first);
      w1, x1 := CreateFile(w, a.first).0, CreateFile(x, a.first).0;
    }
    MovedIsTwins(w, x, w1, x1, change);
    if w1.open {
      if Fits(w1, a.fileSize, e.data) {
        var more := AppendMoves(w1, x1, e);
        MovedTwice(w, x, w1, x1, Append(w1, e), Append(x1, e), change, more);
        change := change + more;
      } else {
        var more := CreateMoves(w1, x1, a.next);
        var w2, x2 := CreateFile(w1, a.next).0, CreateFile(x1, a.next).0;
        MovedTwice(w, x, w1, x1, w2, x2, change, more);
        change := change + more;
        if CreateFile(w1, a.next).1 {
          MovedIsTwins(w, x, w2, x2, change);
          var last := AppendMoves(w2, x2, e);
          MovedTwice(w, x, w2, x2, Append(w2, e), Append(x2, e), change, last);
          change := change + last;
        }
      }
    }
  }

  lemma DescribeMoves(w: Writer, x: Writer, c: Channel, info: Info)
    requires Twins(w, x)
    ensures Moved(w, x, SetInfo(w, c, info), SetInfo(x, c, info), map[])
  {
    hide FilePath;
  }

  lemma StepMoves(w: Writer, x: Writer, op: Op) returns (change: map<Str, File>)
    requires Twins(w, x)
    ensures Moved(w, x, WriterStep(w, op), WriterStep(x, op), change)
  {
    hide Moved;
    match op
    case Describe(c, info) =>
      DescribeMoves(w, x, c, info);
      change := map[];
    case Close => change := CloseMoves(w, x);
    case Add(e, a) => change := AddMoves(w, x, e, a);
  }

  // ---------- Every writer's files are as if it were alone, but for those replaced ----------

  lemma {:induction false} RemadeAt(makers: map<Str, Maker>, w: Writer, key: Str, before: int, after: int, p: Str)
    requires before >= -1
    ensures forall j: nat | before < j <= after && p == FilePath(w.dir, w.base, j) ::
              p in Remade(makers, w, key, before, after) && Remade(makers, w, key, before, after)[p] == Maker(key, j)
    ensures (forall j: nat | before < j <= after :: p != FilePath(w.dir, w.base, j)) ==>
              (p in Remade(makers, w, key, before, after) <==> p in makers)
              && (p in makers ==> Remade(makers, w, key, before, after)[p] == makers[p])
    decreases after - before
  {
    hide FilePath;
    if after > before {
      RemadeAt(makers, w, key, before, after - 1, p);
      forall i: nat, j: nat | FilePath(w.dir, w.base, i) == FilePath(w.dir, w.base, j) ensures i == j {
        PathInjective(w.dir, w.base, i, j);
      }
    }
  }

  /** The writer is where it would be alone; its open file is its own, and none of its paths is
      free. */
  ghost predicate WriterOk(cfg: Config, d: Dir, acts: seq<Act>, key: Str) {
    var w := Alone(cfg, acts, key).w;
    && WriterAt(cfg, d, key) == w.(disk := d.disk)
    && w.dir == cfg.dir && w.base == WriterBase(cfg, key)
    && (w.open ==> CurrentPath(w) in d.makers && d.makers[CurrentPath(w)] == Maker(key, w.split))
    && (forall p | p in w.disk :: p in d.disk)
  }

  /** The file is that of the writer that made it last, as if that were alone. */
  ghost predicate FileOk(cfg: Config, d: Dir, acts: seq<Act>, p: Str)
    requires p in d.disk
  {
    && p in d.makers
    && p == FilePath(cfg.dir, WriterBase(cfg, d.makers[p].key), d.makers[p].split)
    && (var alone := Alone(cfg, acts, d.makers[p].key).w.disk; p in alone && d.disk[p] == alone[p])
  }

  ghost predicate Shared(cfg: Config, d: Dir, acts: seq<Act>) {
    (forall key :: WriterOk(cfg, d, acts, key)) && forall p | p in d.disk :: FileOk(cfg, d, acts, p)
  }

  lemma AloneNext(cfg: Config, acts: seq<Act>, a: Act, key: Str)
    ensures Alone(cfg, acts + [a], key)
         == if a.key == key && !Skips(cfg, a) then Step(Alone(cfg, acts, key), a.op) else Alone(cfg, acts, key)
  {
    assert (acts + [a])[..|acts|] == acts;
    hide Step, WriterBase;
    var ops := OpsFor(cfg, acts, key);
    assert (ops + [a.op])[..|ops|] == ops;
    assert ops + [] == ops;
  }

  lemma StepIsWriterStep(t: Trace, op: Op)
    requires Valid(t.w)
    ensures Step(t, op).w == WriterStep(t.w, op)
  {
    hide AddEntry, CloseFile, SetInfo, Repeated, Valid;
  }

  lemma AreTwins(cfg: Config, d: Dir, acts: seq<Act>, key: Str)
    requires Shared(cfg, d, acts)
    ensures Twins(Alone(cfg, acts, key).w, WriterAt(cfg, d, key))
  {
    var w := Alone(cfg, acts, key).w;
    assert WriterOk(cfg, d, acts, key);
    hide FilePath, WriterAt, WriterBase, Alone;
    if w.open {
      assert FileOk(cfg, d, acts, CurrentPath(w));
    }
  }

  /** What one call changes, for the writer in the directory and for it alone. */
  ghost predicate Acted(w: Writer, r: Writer, d: Dir, d2: Dir, key: Str, change: map<Str, File>) {
    && r.disk == w.disk + change && d2.disk == d.disk + change && Within(w, r, change) && Valid(w) && Valid(r)
    && d2.writers == d.writers[key := r.(disk := map[])]
    && d2.makers == Remade(d.makers, w, key, w.split, r.split)
    && Possible(d, key, w, r)
  }

  lemma {:induction false} RemadeSame(makers: map<Str, Maker>, w: Writer, x: Writer, key: Str, before: int, after: int)
    requires before >= -1 && w.dir == x.dir && w.base == x.base
    ensures Remade(makers, w, key, before, after) == Remade(makers, x, key, before, after)
    decreases after - before
  {
    if after > before {
      RemadeSame(makers, w, x, key, before, after - 1);
    }
  }

  lemma NextActs(cfg: Config, d: Dir, acts: seq<Act>, a: Act) returns (change: map<Str, File>)
    requires Shared(cfg, d, acts) && Next(cfg, d, a).Some? && !Skips(cfg, a)
    ensures (var t := Alone(cfg, acts, a.key);
             Acted(t.w, Step(t, a.op).w, d, Next(cfg, d, a).value, a.key, change))
  {
    var t := Alone(cfg, acts, a.key);
    AreTwins(cfg, d, acts, a.key);
    StepIsWriterStep(t, a.op);
    change := StepMoves(t.w, WriterAt(cfg, d, a.key), a.op);
    hide Shared, FilePath, WriterStep, Alone, WriterAt, Step, Within;
    RemadeSame(d.makers, WriterStep(WriterAt(cfg, d, a.key), a.op), t.w, a.key, t.w.split, Step(t, a.op).w.split);
  }

  lemma MakersOfOthers(w: Writer, r: Writer, d: Dir, d2: Dir, key: Str, change: map<Str, File>, p: Str)
    requires Acted(w, r, d, d2, key, change)
    ensures p in d2.makers && d2.makers[p].key != key ==> p in d.makers && d2.makers[p] == d.makers[p]
    ensures p in d.makers && p !in change ==> p in d2.makers && d2.makers[p] == d.makers[p]
    ensures p !in d.makers && p !in change ==> p !in d2.makers
  {
    RemadeAt(d.makers, w, key, w.split, r.split, p);
    hide FilePath, Remade, Possible;
  }

  lemma OwnWriterStays(cfg: Config, d: Dir, acts: seq<Act>, d2: Dir, more: seq<Act>, key: Str, change: map<Str, File>)
    requires WriterOk(cfg, d, acts, key)
    requires Acted(Alone(cfg, acts, key).w, Alone(cfg, more, key).w, d, d2, key, change)
    ensures WriterOk(cfg, d2, more, key)
  {
    var w, r := Alone(cfg, acts, key).w, Alone(cfg, more, key).w;
    if r.open {
      RemadeAt(d.makers, w, key, w.split, r.split, CurrentPath(r));
    }
    hide FilePath, Remade, Alone;
  }

  lemma OtherWriterStays(cfg: Config, d: Dir, acts: seq<Act>, d2: Dir, more: seq<Act>, key: Str, change: map<Str, File>, other: Str)
    requires WriterOk(cfg, d, acts, other) && other != key && Alone(cfg, more, other) == Alone(cfg, acts, other)
    requires Acted(Alone(cfg, acts, key).w, Alone(cfg, more, key).w, d, d2, key, change)
    ensures WriterOk(cfg, d2, more, other)
  {
    var w, r, x := Alone(cfg, acts, key).w, Alone(cfg, more, key).w, Alone(cfg, acts, other).w;
    if x.open {
      RemadeAt(d.makers, w, key, w.split, r.split, CurrentPath(x));
      forall j: nat | w.split < j <= r.split ensures FilePath(w.dir, w.base, j) != CurrentPath(x) {
        assert NoneOpen(d, key, FilePath(r.dir, r.base, j));
        assert other in d.writers && IsOpenAt(d.writers[other], CurrentPath(x));
      }
    }
    hide FilePath, Remade, Alone;
  }

  lemma TouchedFileIsOwn(cfg: Config, d: Dir, acts: seq<Act>, d2: Dir, more: seq<Act>, key: Str, change: map<Str, File>, p: Str)
    requires WriterOk(cfg, d, acts, key) && p in change
    requires Acted(Alone(cfg, acts, key).w, Alone(cfg, more, key).w, d, d2, key, change)
    ensures p in d2.disk && FileOk(cfg, d2, more, p)
  {
    var w, r := Alone(cfg, acts, key).w, Alone(cfg, more, key).w;
    assert Touches(w, r, p);
    RemadeAt(d.makers, w, key, w.split, r.split, p);
    hide FilePath, Remade, Alone, Possible, WriterBase;
  }

  lemma FileStays(cfg: Config, d: Dir, acts: seq<Act>, d2: Dir, more: seq<Act>, key: Str, change: map<Str, File>, p: Str)
    requires Shared(cfg, d, acts) && p in d2.disk && p !in change
    requires Acted(Alone(cfg, acts, key).w, Alone(cfg, more, key).w, d, d2, key, change)
    requires forall other | other != key :: Alone(cfg, more, other) == Alone(cfg, acts, other)
    ensures FileOk(cfg, d2, more, p)
  {
    var w, r := Alone(cfg, acts, key).w, Alone(cfg, more, key).w;
    assert p in d.disk && FileOk(cfg, d, acts, p);
    hide FilePath, Remade, Alone, Possible, WriterBase, Within, Shared;
    MakersOfOthers(w, r, d, d2, key, change, p);
  }

  lemma NextKeepsShared(cfg: Config, d: Dir, acts: seq<Act>, a: Act)
    requires Shared(cfg, d, acts) && Next(cfg, d, a).Some?
    ensures Shared(cfg, Next(cfg, d, a).value, acts + [a])
  {
    var d2, more := Next(cfg, d, a).value, acts + [a];
    forall key ensures Alone(cfg, more, key) == if a.key == key && !Skips(cfg, a) then Step(Alone(cfg, acts, key), a.op)
                                                else Alone(cfg, acts, key) {
      AloneNext(cfg, acts, a, key);
    }
    if Skips(cfg, a) {
      hide Alone, Step;
      forall key ensures WriterOk(cfg, d2, more, key) {
        assert WriterOk(cfg, d, acts, key);
      }
      forall p | p in d2.disk ensures FileOk(cfg, d2, more, p) {
        assert FileOk(cfg, d, acts, p);
      }
    } else {
      var change := NextActs(cfg, d, acts, a);
      hide Alone, Step, Next, Acted, WriterOk, FileOk;
      OwnWriterStays(cfg, d, acts, d2, more, a.key, change);
      forall key ensures WriterOk(cfg, d2, more, key) {
        if key != a.key {
          OtherWriterStays(cfg, d, acts, d2, more, a.key, change, key);
        }
      }
      forall p | p in d2.disk ensures FileOk(cfg, d2, more, p) {
        if p in change {
          TouchedFileIsOwn(cfg, d, acts, d2, more, a.key, change, p);
        } else {
          FileStays(cfg, d, acts, d2, more, a.key, change, p);
        }
      }
    }
  }

  lemma StartIsShared(cfg: Config)
    ensures Shared(cfg, Dir(map[], map[], map[]), [])
  {
  }

  /** In every run of a directory each writer is where it would be alone, and each file is the
      one its last maker would have alone. */
  lemma {:induction false} RunIsShared(cfg: Config, acts: seq<Act>)
    requires RunDir(cfg, acts).Some?
    ensures Shared(cfg, RunDir(cfg, acts).value, acts)
  {
    hide Next, Shared;
    if acts == [] {
      StartIsShared(cfg);
    } else {
      var n := |acts| - 1;
      RunIsShared(cfg, acts[..n]);
      assert acts == acts[..n] + [acts[n]];
      NextKeepsShared(cfg, RunDir(cfg, acts[..n]).value, acts[..n], acts[n]);
    }
  }

  // ---------- Calls that happen ----------

  /** No other writer has one of the files open that the call creates. */
  ghost predicate Undisturbed(cfg: Config, acts: seq<Act>, a: Act) {
    forall j: nat, k: Str | Alone(cfg, acts, a.key).w.split < j <= Step(Alone(cfg, acts, a.key), a.op).w.split && k != a.key ::
      !IsOpenAt(Alone(cfg, acts, k).w, FilePath(cfg.dir, WriterBase(cfg, a.key), j))
  }

  lemma IsPossible(cfg: Config, d: Dir, acts: seq<Act>, a: Act)
    requires Shared(cfg, d, acts) && !Skips(cfg, a) && Undisturbed(cfg, acts, a)
    ensures Next(cfg, d, a).Some?
  {
    var t, w := Alone(cfg, acts, a.key), WriterAt(cfg, d, a.key);
    AreTwins(cfg, d, acts, a.key);
    assert Valid(w);
    StepIsWriterStep(t, a.op);
    var change := StepMoves(t.w, w, a.op);
    var r := WriterStep(w, a.op);
    assert WriterOk(cfg, d, acts, a.key);
    assert r.dir == cfg.dir && r.base == WriterBase(cfg, a.key) && r.split == Step(t, a.op).w.split && w.split == t.w.split;
    hide Alone, Step, WriterStep, Twins, Moved, Within, FilePath, WriterBase;
    forall j: nat | w.split < j <= r.split ensures NoneOpen(d, a.key, FilePath(r.dir, r.base, j)) {
      forall k | k in d.writers && k != a.key ensures !IsOpenAt(d.writers[k], FilePath(r.dir, r.base, j)) {
        assert WriterOk(cfg, d, acts, k);
        assert !IsOpenAt(Alone(cfg, acts, k).w, FilePath(r.dir, r.base, j));
      }
    }
  }

  lemma CallHappens(cfg: Config, acts: seq<Act>, a: Act)
    requires RunDir(cfg, acts).Some? && !Skips(cfg, a) && Undisturbed(cfg, acts, a)
    ensures RunDir(cfg, acts + [a]).Some?
    ensures forall k :: Alone(cfg, acts + [a], k) == if k == a.key then Step(Alone(cfg, acts, k), a.op) else Alone(cfg, acts, k)
    ensures (var d, t := RunDir(cfg, acts).value, Alone(cfg, acts, a.key);
             RunDir(cfg, acts + [a]).value.makers == Remade(d.makers, t.w, a.key, t.w.split, Step(t, a.op).w.split))
  {
    RunIsShared(cfg, acts);
    IsPossible(cfg, RunDir(cfg, acts).value, acts, a);
    var change := NextActs(cfg, RunDir(cfg, acts).value, acts, a);
    assert (acts + [a])[..|acts|] == acts;
    hide Alone, Step, Next, Shared, Undisturbed;
    forall k ensures Alone(cfg, acts + [a], k) == if k == a.key then Step(Alone(cfg, acts, k), a.op) else Alone(cfg, acts, k) {
      AloneNext(cfg, acts, a, k);
    }
  }
}
