/** Entries of a measurement and the containers that hold them
    (contrib/measurement/base/include/ecal/measurement/base/types.h). */
module Entries {

  datatype EntryInfo = EntryInfo(rcv: int, id: int, clock: int, snd: int, sender: int)

  // ---------- std::set<EntryInfo> ----------

  /** `operator<` compares receive timestamps only, so a `std::set<EntryInfo>` holds at
      most one entry per timestamp and is ordered by it. */
  type EntrySet = m: map<int, EntryInfo> | forall t | t in m :: m[t].rcv == t

  /** Inserting an entry whose timestamp is present changes nothing. */
  function Insert(s: EntrySet, e: EntryInfo): EntrySet {
    if e.rcv in s then s else s[e.rcv := e]
  }

  function SetOf(entries: seq<EntryInfo>): EntrySet {
    if entries == [] then map[] else Insert(SetOf(entries[..|entries| - 1]), entries[|entries| - 1])
  }

  lemma {:induction false} SetOfHasOnly(entries: seq<EntryInfo>, t: int)
    ensures t in SetOf(entries) ==> SetOf(entries)[t] in entries
    ensures t in SetOf(entries) <==> exists e | e in entries :: e.rcv == t
  {
    if entries != [] {
      var n := |entries| - 1;
      SetOfHasOnly(entries[..n], t);
      assert entries == entries[..n] + [entries[n]];
    }
  }

  /** The set holds, for every timestamp, the first entry that has it. */
  lemma {:induction false} SetOfKeepsFirst(entries: seq<EntryInfo>, i: nat)
    requires i < |entries|
    requires forall k | 0 <= k < i :: entries[k].rcv != entries[i].rcv
    ensures entries[i].rcv in SetOf(entries)
    ensures SetOf(entries)[entries[i].rcv] == entries[i]
  {
    var n := |entries| - 1;
    if i < n {
      SetOfKeepsFirst(entries[..n], i);
    } else {
      SetOfHasOnly(entries[..n], entries[i].rcv);
    }
  }

  // ---------- The table of contents ----------

  /** One row of five cells per entry, in the order of the struct's fields. */
  function Cells(entries: seq<EntryInfo>): (c: seq<int>)
    ensures |c| == 5 * |entries|
  {
    if entries == [] then []
    else
      var e := entries[|entries| - 1];
      Cells(entries[..|entries| - 1]) + [e.rcv, e.id, e.clock, e.snd, e.sender]
  }

  lemma {:induction false} CellsAt(entries: seq<EntryInfo>, i: nat)
    requires i < |entries|
    ensures Cells(entries)[5 * i..5 * i + 5]
         == [entries[i].rcv, entries[i].id, entries[i].clock, entries[i].snd, entries[i].sender]
  {
    var n := |entries| - 1;
    if i < n {
      CellsAt(entries[..n], i);
      assert Cells(entries)[5 * i..5 * i + 5] == Cells(entries[..n])[5 * i..5 * i + 5];
    }
  }

  function RowAt(cells: seq<int>, i: nat): EntryInfo
    requires 5 * i + 5 <= |cells|
  {
    EntryInfo(cells[5 * i], cells[5 * i + 1], cells[5 * i + 2], cells[5 * i + 3], cells[5 * i + 4])
  }

  function Rows(cells: seq<int>): (r: seq<EntryInfo>)
    ensures |r| == |cells| / 5
  {
    seq(|cells| / 5, i requires 0 <= i < |cells| / 5 => RowAt(cells, i))
  }

  /** The rows of a table are the entries it was made from. */
  lemma RowsOfCells(entries: seq<EntryInfo>)
    ensures Rows(Cells(entries)) == entries
  {
    forall i | 0 <= i < |entries| ensures Rows(Cells(entries))[i] == entries[i] {
      CellsAt(entries, i);
      var row := Cells(entries)[5 * i..5 * i + 5];
      assert row[0] == entries[i].rcv && row[1] == entries[i].id && row[2] == entries[i].clock;
      assert row[3] == entries[i].snd && row[4] == entries[i].sender;
    }
  }

  lemma SetOfNone()
    ensures SetOf([]) == map[]
  {
  }

  lemma SetOfNextRow(rows: seq<EntryInfo>, i: nat)
    requires i < |rows|
    ensures SetOf(rows[..i + 1]) == Insert(SetOf(rows[..i]), rows[i])
  {
    assert rows[..i + 1][..i] == rows[..i];
  }

  /** The reader's loop over the raw cells, five at a time. */
  method DecodeTable(data: seq<int>) returns (entries: EntrySet)
    requires |data| % 5 == 0
    ensures entries == SetOf(Rows(data))
  {
    hide SetOf, Insert;
    assert SetOf([]) == map[] by { SetOfNone(); }
    entries := map[];
    var index := 0;
    while index < |data|
      invariant 0 <= index <= |data| && index % 5 == 0
      invariant entries == SetOf(Rows(data)[..index / 5])
    {
      SetOfNextRow(Rows(data), index / 5);
      assert Rows(data)[index / 5] == RowAt(data, index / 5);
      entries := Insert(entries, EntryInfo(data[index], data[index + 1], data[index + 2], data[index + 3], data[index + 4]));
      index := index + 5;
    }
    assert Rows(data)[..|data| / 5] == Rows(data);
  }
}
