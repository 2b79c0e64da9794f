/** What the two indexes of an opened directory say about its files. */
module DirFacts {
  import opened Strings
  import opened Hdf5
  import opened Entries
  import opened Layout
  import opened MeasDir

  // ---------- Numbers and channels ----------

  ghost predicate HasNumber(byChn: map<Channel, EntrySet>, c: Channel, t: int, k: int) {
    Lookup(byChn, c, t).Some? && Lookup(byChn, c, t).value.id == k
  }

  lemma NumberIsFirst(files: Files, origins: seq<Origin>, byId: map<int, Ref>, byChn: map<Channel, EntrySet>,
                      c: Channel, t: int, k: int)
    requires Indexed(files, origins, byId, byChn)
    ensures HasNumber(byChn, c, t, k) <==> 0 <= k && FirstIndex(origins, c, t) == Some(k)
  {
    hide Exists, EntryOf, FirstIndex, Numbered;
    assert Lookup(byChn, c, t) == Expected(files, origins, c, t);
  }

  /** A number occurs in at most one channel and there at one timestamp. */
  lemma NumberOccursOnce(files: Files, origins: seq<Origin>, byId: map<int, Ref>, byChn: map<Channel, EntrySet>,
                         c: Channel, t: int, d: Channel, u: int, k: int)
    requires Indexed(files, origins, byId, byChn)
    requires HasNumber(byChn, c, t, k) && HasNumber(byChn, d, u, k)
    ensures c == d && t == u
  {
    NumberIsFirst(files, origins, byId, byChn, c, t, k);
    NumberIsFirst(files, origins, byId, byChn, d, u, k);
  }

  /** No two files hold an entry of the same channel and timestamp. */
  ghost predicate TimesDisjoint(files: Files) {
    forall o, p | Exists(files, o) && Exists(files, p) && o.channel == p.channel && o.rcv == p.rcv :: o.file == p.file
  }

  ghost predicate EveryNumberIndexed(origins: seq<Origin>, byChn: map<Channel, EntrySet>) {
    forall k | 0 <= k < |origins| :: HasNumber(byChn, origins[k].channel, origins[k].rcv, k)
  }

  /** Every number is found in the channel index exactly when no timestamp of a channel
      occurs in two files. */
  lemma EveryNumberIndexedIff(files: Files, origins: seq<Origin>, byId: map<int, Ref>, byChn: map<Channel, EntrySet>)
    requires Indexed(files, origins, byId, byChn) && Complete(files, origins)
    ensures EveryNumberIndexed(origins, byChn) <==> TimesDisjoint(files)
  {
    hide Exists, EntryOf, FileEntries, FileChannels, Channeled;
    if TimesDisjoint(files) {
      forall k | 0 <= k < |origins| ensures HasNumber(byChn, origins[k].channel, origins[k].rcv, k) {
        var j := FirstIndex(origins, origins[k].channel, origins[k].rcv).value;
        assert origins[j] == origins[k];
        NumberIsFirst(files, origins, byId, byChn, origins[k].channel, origins[k].rcv, k);
      }
    }
    if EveryNumberIndexed(origins, byChn) {
      forall o, p | Exists(files, o) && Exists(files, p) && o.channel == p.channel && o.rcv == p.rcv ensures o.file == p.file {
        var i :| 0 <= i < |origins| && origins[i] == o;
        var j :| 0 <= j < |origins| && origins[j] == p;
        NumberIsFirst(files, origins, byId, byChn, o.channel, o.rcv, i);
        NumberIsFirst(files, origins, byId, byChn, p.channel, p.rcv, j);
      }
    }
  }

  /** An indexed entry leads back to the first file that has one for its channel and
      timestamp, and to that entry there. */
  lemma ResolvesToFirstFile(files: Files, origins: seq<Origin>, byId: map<int, Ref>, byChn: map<Channel, EntrySet>,
                            c: Channel, t: int, i: nat)
    requires Indexed(files, origins, byId, byChn) && Complete(files, origins)
    requires Exists(files, Origin(i, c, t))
    requires forall j: nat | j < i :: !Exists(files, Origin(j, c, t))
    ensures Lookup(byChn, c, t).Some?
    ensures (var e := Lookup(byChn, c, t).value;
             var there := EntryOf(files, Origin(i, c, t));
             && e == there.(id := e.id)
             && e.id in byId && byId[e.id] == Ref(i, there.id))
  {
    hide Exists, EntryOf, FileEntries, FileChannels;
    var k := FirstIndex(origins, c, t).value;
    assert Lookup(byChn, c, t) == Expected(files, origins, c, t);
    assert Exists(files, origins[k]);
    var m :| 0 <= m < |origins| && origins[m] == Origin(i, c, t);
    assert origins[k] == Origin(origins[k].file, c, t);
    assert k <= m;
    assert origins[k].file <= i;
    assert origins[k].file == i;
  }

  // ---------- Reading everything back ----------

  /** An entry with its payload, without its number. */
  datatype Rec = Rec(rcv: int, snd: int, clock: int, sender: int, data: Option<Str>)

  function RecOf(e: EntryInfo, data: Option<Str>): Rec { Rec(e.rcv, e.snd, e.clock, e.sender, data) }

  /** `GetEntryDataAsString` of the directory, through the number index. */
  function DataOf(files: Files, byId: map<int, Ref>, k: int): Option<Str> {
    if k in byId && byId[k].file < |files| then ReadData(files[byId[k].file], byId[k].id) else None
  }

  /** The entries of a channel with their payloads, by timestamp. */
  function ReadBack(files: Files, byId: map<int, Ref>, byChn: map<Channel, EntrySet>, c: Channel): map<int, Rec> {
    if c in byChn then map t | t in byChn[c] :: RecOf(byChn[c][t], DataOf(files, byId, byChn[c][t].id)) else map[]
  }

  /** The same for one file. */
  function FileRecs(f: File, c: Channel): map<int, Rec> {
    if c in FileChannels(f) then map t | t in FileEntries(f, c) :: RecOf(FileEntries(f, c)[t], ReadData(f, FileEntries(f, c)[t].id))
    else map[]
  }

  /** The records of several files, where an earlier file takes precedence. */
  function Merged(files: Files, c: Channel): map<int, Rec> {
    if files == [] then map[] else Merged(files[1..], c) + FileRecs(files[0], c)
  }

  lemma {:induction false} MergedIsFirst(files: Files, c: Channel, t: int)
    ensures t in Merged(files, c) <==> exists i: nat :: i < |files| && t in FileRecs(files[i], c)
    ensures forall i: nat | i < |files| && t in FileRecs(files[i], c) && (forall j: nat | j < i :: t !in FileRecs(files[j], c)) ::
              Merged(files, c)[t] == FileRecs(files[i], c)[t]
  {
    hide FileRecs;
    if files != [] {
      MergedIsFirst(files[1..], c, t);
      if t in FileRecs(files[0], c) {
      } else {
        if i: nat :| i < |files[1..]| && t in FileRecs(files[1..][i], c) {
          assert files[i + 1] == files[1..][i];
        }
        forall i: nat | i < |files| && t in FileRecs(files[i], c) && (forall j: nat | j < i :: t !in FileRecs(files[j], c))
          ensures Merged(files, c)[t] == FileRecs(files[i], c)[t]
        {
          assert files[i] == files[1..][i - 1];
          forall j: nat | j < i - 1 ensures t !in FileRecs(files[1..][j], c) {
            assert files[1..][j] == files[j + 1];
          }
        }
      }
    }
  }

  lemma FirstFile(files: Files, c: Channel, t: int, i: nat) returns (k: nat)
    requires i < |files| && t in FileRecs(files[i], c)
    ensures k < |files| && t in FileRecs(files[k], c)
    ensures forall j: nat | j < k :: t !in FileRecs(files[j], c)
  {
    if j: nat :| j < i && t in FileRecs(files[j], c) {
      k := FirstFile(files, c, t, j);
    } else {
      k := i;
    }
  }

  lemma RecExists(files: Files, c: Channel, t: int, i: nat)
    requires i < |files|
    ensures t in FileRecs(files[i], c) <==> Exists(files, Origin(i, c, t))
  {
  }

  lemma LookupIffExists(files: Files, origins: seq<Origin>, byId: map<int, Ref>, byChn: map<Channel, EntrySet>, c: Channel, t: int)
    requires Indexed(files, origins, byId, byChn) && Complete(files, origins)
    ensures Lookup(byChn, c, t).Some? <==> exists i: nat :: Exists(files, Origin(i, c, t))
  {
    hide Exists, EntryOf;
    assert Lookup(byChn, c, t) == Expected(files, origins, c, t);
    if Lookup(byChn, c, t).Some? {
      var k := FirstIndex(origins, c, t).value;
      assert Exists(files, origins[k]);
      assert origins[k] == Origin(origins[k].file, c, t);
    }
    if i: nat :| Exists(files, Origin(i, c, t)) {
      var m :| 0 <= m < |origins| && origins[m] == Origin(i, c, t);
    }
  }

  lemma ReadBackAt(files: Files, origins: seq<Origin>, byId: map<int, Ref>, byChn: map<Channel, EntrySet>, c: Channel, t: int, i: nat)
    requires Indexed(files, origins, byId, byChn) && Complete(files, origins)
    requires i < |files| && t in FileRecs(files[i], c)
    requires forall j: nat | j < i :: t !in FileRecs(files[j], c)
    ensures t in ReadBack(files, byId, byChn, c) && ReadBack(files, byId, byChn, c)[t] == FileRecs(files[i], c)[t]
  {
    hide Indexed, Complete, FileChannels, FileEntries;
    forall j: nat | j < i ensures !Exists(files, Origin(j, c, t)) {
      RecExists(files, c, t, j);
    }
    RecExists(files, c, t, i);
    ResolvesToFirstFile(files, origins, byId, byChn, c, t, i);
  }

  lemma ReadBackTimes(files: Files, origins: seq<Origin>, byId: map<int, Ref>, byChn: map<Channel, EntrySet>, c: Channel, t: int)
    requires Indexed(files, origins, byId, byChn) && Complete(files, origins)
    ensures t in ReadBack(files, byId, byChn, c) <==> t in Merged(files, c)
  {
    hide Indexed, Complete, FileRecs, Merged, FileChannels, FileEntries;
    MergedIsFirst(files, c, t);
    LookupIffExists(files, origins, byId, byChn, c, t);
    if i: nat :| i < |files| && t in FileRecs(files[i], c) {
      RecExists(files, c, t, i);
    }
    if i: nat :| Exists(files, Origin(i, c, t)) {
      RecExists(files, c, t, i);
    }
  }

  lemma ReadBackRec(files: Files, origins: seq<Origin>, byId: map<int, Ref>, byChn: map<Channel, EntrySet>, c: Channel, t: int)
    requires Indexed(files, origins, byId, byChn) && Complete(files, origins)
    requires t in Merged(files, c) && t in ReadBack(files, byId, byChn, c)
    ensures ReadBack(files, byId, byChn, c)[t] == Merged(files, c)[t]
  {
    hide Indexed, Complete, FileRecs, Merged, ReadBack;
    MergedIsFirst(files, c, t);
    var i: nat :| i < |files| && t in FileRecs(files[i], c);
    var k := FirstFile(files, c, t, i);
    ReadBackAt(files, origins, byId, byChn, c, t, k);
  }

  /** Whatever the files hold, the opened directory gives back, for every channel and
      timestamp, the record of the first file that has one. */
  lemma ReadBackIsMerged(files: Files, origins: seq<Origin>, byId: map<int, Ref>, byChn: map<Channel, EntrySet>, c: Channel)
    requires Indexed(files, origins, byId, byChn) && Complete(files, origins)
    ensures ReadBack(files, byId, byChn, c) == Merged(files, c)
  {
    hide Indexed, Complete, Merged, ReadBack;
    var back, merged := ReadBack(files, byId, byChn, c), Merged(files, c);
    forall t ensures t in back <==> t in merged {
      ReadBackTimes(files, origins, byId, byChn, c, t);
    }
    forall t | t in merged ensures back[t] == merged[t] {
      ReadBackTimes(files, origins, byId, byChn, c, t);
      ReadBackRec(files, origins, byId, byChn, c, t);
    }
  }
}
