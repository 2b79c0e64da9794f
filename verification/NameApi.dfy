/** The older interface, which knows channels by name only and merges the ids of a name
    (contrib/ecalhdf5/src/eh5_meas_api_v2.cpp:47-62, 192-246). */
module NameApi {
  import opened Strings
  import opened Ordering
  import opened Layout
  import opened DirFacts
  import opened Queries

  /** The records of a channel by receive timestamp. */
  type RecMap = m: map<int, Rec> | forall t | t in m :: m[t].rcv == t

  /** What an opened measurement holds. */
  type Measurement = map<Channel, RecMap>

  /** `GetChannelsWithName` */
  function IdsOf(m: Measurement, name: Str): (ids: set<nat>)
    ensures forall id: nat :: id in ids <==> id < TWO64 && Channel(name, id) in m
  {
    set c | c in m && c.name == name :: c.id
  }

  function ChannelNames(m: Measurement): set<Str> { set c | c in m :: c.name }

  predicate Known(m: Measurement, name: Str, ids: seq<nat>) {
    forall i | 0 <= i < |ids| :: ids[i] < TWO64 && Channel(name, ids[i]) in m
  }

  /** The records of some ids of a name; at equal timestamps the earlier id's is kept. */
  function Aggregated(m: Measurement, name: Str, ids: seq<nat>): RecMap
    requires Known(m, name, ids)
  {
    if ids == [] then map[]
    else
      var n := |ids| - 1;
      m[Channel(name, ids[n])] + Aggregated(m, name, ids[..n])
  }

  lemma IdsKnown(m: Measurement, name: Str)
    ensures Known(m, name, SortedIds(IdsOf(m, name)))
  {
    hide SortedIds;
    var ids := SortedIds(IdsOf(m, name));
    forall i | 0 <= i < |ids| ensures ids[i] < TWO64 && Channel(name, ids[i]) in m {
      assert ids[i] in ids;
    }
  }

  function NameRecs(m: Measurement, name: Str): RecMap {
    IdsKnown(m, name);
    Aggregated(m, name, SortedIds(IdsOf(m, name)))
  }

  /** No two ids of the name have different records at one timestamp. */
  ghost predicate NoClash(m: Measurement, name: Str) {
    forall i: nat, j: nat, t: int | i in IdsOf(m, name) && j in IdsOf(m, name)
                          && t in m[Channel(name, i)] && t in m[Channel(name, j)] ::
      m[Channel(name, i)][t] == m[Channel(name, j)][t]
  }

  lemma {:induction false} AggregatedIsFrom(m: Measurement, name: Str, ids: seq<nat>, t: int)
    requires Known(m, name, ids)
    ensures t in Aggregated(m, name, ids) <==> exists i :: 0 <= i < |ids| && t in m[Channel(name, ids[i])]
    ensures t in Aggregated(m, name, ids) ==>
              exists i :: 0 <= i < |ids| && t in m[Channel(name, ids[i])] && Aggregated(m, name, ids)[t] == m[Channel(name, ids[i])][t]
  {
    if ids != [] {
      var n := |ids| - 1;
      AggregatedIsFrom(m, name, ids[..n], t);
      hide Aggregated;
    }
  }

  lemma NameRecsFrom(m: Measurement, name: Str, t: int)
    ensures t in NameRecs(m, name) <==> exists id: nat :: id in IdsOf(m, name) && t in m[Channel(name, id)]
    ensures t in NameRecs(m, name) ==>
              exists id: nat :: id in IdsOf(m, name) && t in m[Channel(name, id)] && NameRecs(m, name)[t] == m[Channel(name, id)][t]
  {
    IdsKnown(m, name);
    var ids := SortedIds(IdsOf(m, name));
    AggregatedIsFrom(m, name, ids, t);
    hide Aggregated, SortedIds, IdsOf;
    if id: nat :| id in IdsOf(m, name) && t in m[Channel(name, id)] {
      var i :| 0 <= i < |ids| && ids[i] == id;
    }
    if t in NameRecs(m, name) {
      var i :| 0 <= i < |ids| && t in m[Channel(name, ids[i])] && NameRecs(m, name)[t] == m[Channel(name, ids[i])][t];
      assert ids[i] in ids;
    }
  }

  predicate ThereAt(m: Measurement, name: Str, id: nat, t: int)
    requires id in IdsOf(m, name) && t in m[Channel(name, id)]
  {
    t in NameRecs(m, name) && NameRecs(m, name)[t] == m[Channel(name, id)][t]
  }

  /** Every record of every id of the name is there by name. */
  ghost predicate AllThere(m: Measurement, name: Str) {
    forall id: nat, t: int | id in IdsOf(m, name) && t in m[Channel(name, id)] :: ThereAt(m, name, id, t)
  }

  /** By name one gets the records of all ids of the name exactly if none clash. */
  lemma NameRecsAllIff(m: Measurement, name: Str)
    ensures AllThere(m, name) <==> NoClash(m, name)
  {
    hide NameRecs, IdsOf;
    if NoClash(m, name) {
      forall id: nat, t: int | id in IdsOf(m, name) && t in m[Channel(name, id)] ensures ThereAt(m, name, id, t) {
        NameRecsFrom(m, name, t);
      }
    }
    if AllThere(m, name) {
      forall i: nat, j: nat, t: int | i in IdsOf(m, name) && j in IdsOf(m, name)
                            && t in m[Channel(name, i)] && t in m[Channel(name, j)]
        ensures m[Channel(name, i)][t] == m[Channel(name, j)][t]
      {
        assert ThereAt(m, name, i, t) && ThereAt(m, name, j, t);
      }
    }
  }

  lemma {:induction false} FirstIdWins(m: Measurement, name: Str, ids: seq<nat>, t: int, i: nat)
    requires Known(m, name, ids) && i < |ids| && t in m[Channel(name, ids[i])]
    requires forall j | 0 <= j < i :: t !in m[Channel(name, ids[j])]
    ensures t in Aggregated(m, name, ids) && Aggregated(m, name, ids)[t] == m[Channel(name, ids[i])][t]
  {
    var n := |ids| - 1;
    if i < n {
      FirstIdWins(m, name, ids[..n], t, i);
    } else {
      AggregatedIsFrom(m, name, ids[..n], t);
      assert t !in Aggregated(m, name, ids[..n]);
    }
  }

  /** Where ids of a name clash, the record of the smallest is the one that is there. */
  lemma SmallestIdWins(m: Measurement, name: Str, id: nat, t: int)
    requires id in IdsOf(m, name) && t in m[Channel(name, id)]
    requires forall k: nat | k in IdsOf(m, name) && t in m[Channel(name, k)] :: id <= k
    ensures t in NameRecs(m, name) && NameRecs(m, name)[t] == m[Channel(name, id)][t]
  {
    IdsKnown(m, name);
    var ids := SortedIds(IdsOf(m, name));
    SortedIdsIncrease(IdsOf(m, name));
    assert id in ids;
    var i: nat :| i < |ids| && ids[i] == id;
    forall j | 0 <= j < i ensures t !in m[Channel(name, ids[j])] {
      assert ids[j] in ids && ids[j] < id;
    }
    FirstIdWins(m, name, ids, t, i);
  }

  /** Two ids of one name with different records at one timestamp. */
  const CLASHING: Measurement := map[
    Channel("speed", 1) := map[7 := Rec(7, 0, 0, 1, Some("a"))],
    Channel("speed", 2) := map[7 := Rec(7, 1, 0, 2, Some("b"))]
  ]

  /** One of them is not there by name. */
  lemma ClashIsLost()
    ensures !NoClash(CLASHING, "speed") && !AllThere(CLASHING, "speed")
  {
    NameRecsAllIff(CLASHING, "speed");
    var a, b := Channel("speed", 1), Channel("speed", 2);
    assert a in CLASHING && b in CLASHING;
    assert 1 in IdsOf(CLASHING, "speed") && 2 in IdsOf(CLASHING, "speed");
    assert CLASHING[a][7].snd != CLASHING[b][7].snd;
    hide NameRecs, IdsOf, AllThere;
  }

  // ---------- Time spans ----------

  function MinOr(times: set<int>, none: int): (x: int)
    ensures times == {} ==> x == none
    ensures times != {} ==> x in times && forall t | t in times :: x <= t
  {
    if times == {} then none else LeastTime(times)
  }

  function MaxOr(times: set<int>, none: int): (x: int)
    ensures times == {} ==> x == none
    ensures times != {} ==> x in times && forall t | t in times :: t <= x
  {
    if times == {} then none
    else
      var s := Times(times);
      assert s != [] by {
        SomeTime(times);
      }
      assert forall i | 0 <= i < |s| :: s[i] <= s[|s| - 1];
      s[|s| - 1]
  }

  /** 0 when there is no entry; the sentinel itself is taken for that, too. */
  function NameMin(m: Measurement, name: Str): int {
    var x := MinOr(NameRecs(m, name).Keys, LLONG_MAX);
    if x == LLONG_MAX then 0 else x
  }

  function NameMax(m: Measurement, name: Str): int {
    var x := MaxOr(NameRecs(m, name).Keys, LLONG_MIN);
    if x == LLONG_MIN then 0 else x
  }

  /** Timestamps are 64-bit numbers. */
  predicate Timed(m: Measurement) { forall c | c in m :: forall t | t in m[c] :: LLONG_MIN <= t <= LLONG_MAX }

  lemma AggregatedTimed(m: Measurement, name: Str, ids: seq<nat>)
    requires Timed(m) && Known(m, name, ids)
    ensures forall t | t in Aggregated(m, name, ids) :: LLONG_MIN <= t <= LLONG_MAX
  {
    forall t | t in Aggregated(m, name, ids) ensures LLONG_MIN <= t <= LLONG_MAX {
      AggregatedIsFrom(m, name, ids, t);
      var i :| 0 <= i < |ids| && t in m[Channel(name, ids[i])];
      assert Channel(name, ids[i]) in m;
    }
  }

  lemma NameRecsTimed(m: Measurement, name: Str)
    requires Timed(m)
    ensures forall t | t in NameRecs(m, name) :: LLONG_MIN <= t <= LLONG_MAX
  {
    IdsKnown(m, name);
    AggregatedTimed(m, name, SortedIds(IdsOf(m, name)));
    hide Aggregated, SortedIds, Timed;
  }

  lemma NoneAggregated(m: Measurement, name: Str)
    ensures Known(m, name, []) && Aggregated(m, name, []) == map[]
  {
  }

  lemma MinOfUnion(a: set<int>, b: set<int>, x: int, y: int)
    requires forall t | t in a + b :: t <= LLONG_MAX
    requires x == MinOr(a, LLONG_MAX) && y == MinOr(b, LLONG_MAX)
    ensures (if y < x then y else x) == MinOr(a + b, LLONG_MAX)
  {
    hide MinOr;
  }

  lemma MaxOfUnion(a: set<int>, b: set<int>, x: int, y: int)
    requires forall t | t in a + b :: t >= LLONG_MIN
    requires x == MaxOr(a, LLONG_MIN) && y == MaxOr(b, LLONG_MIN)
    ensures (if y > x then y else x) == MaxOr(a + b, LLONG_MIN)
  {
    hide MaxOr;
  }

  lemma AggregatedMore(m: Measurement, name: Str, ids: seq<nat>, k: nat)
    requires Known(m, name, ids) && k < |ids|
    ensures Known(m, name, ids[..k]) && Known(m, name, ids[..k + 1])
    ensures Aggregated(m, name, ids[..k + 1]) == m[Channel(name, ids[k])] + Aggregated(m, name, ids[..k])
    ensures Aggregated(m, name, ids[..k + 1]).Keys == Aggregated(m, name, ids[..k]).Keys + m[Channel(name, ids[k])].Keys
  {
    assert ids[..k + 1][..k] == ids[..k];
  }

  method GetMinTimestamp(m: Measurement, name: Str) returns (min: int)
    requires Timed(m)
    ensures min == NameMin(m, name)
  {
    hide Aggregated, SortedIds, MinOr, IdsOf;
    IdsKnown(m, name);
    var ids := SortedIds(IdsOf(m, name));
    min := LLONG_MAX;
    NoneAggregated(m, name);
    assert ids[..0] == [];
    for k := 0 to |ids|
      invariant min == MinOr(Aggregated(m, name, ids[..k]).Keys, LLONG_MAX)
    {
      AggregatedMore(m, name, ids, k);
      AggregatedTimed(m, name, ids[..k + 1]);
      var recs := m[Channel(name, ids[k])];
      var channelMin := MinOr(recs.Keys, LLONG_MAX);
      MinOfUnion(Aggregated(m, name, ids[..k]).Keys, recs.Keys, min, channelMin);
      min := if channelMin < min then channelMin else min;
    }
    assert ids[..|ids|] == ids;
    min := if min == LLONG_MAX then 0 else min;
  }

  method GetMaxTimestamp(m: Measurement, name: Str) returns (max: int)
    requires Timed(m)
    ensures max == NameMax(m, name)
  {
    hide Aggregated, SortedIds, MaxOr, IdsOf;
    IdsKnown(m, name);
    var ids := SortedIds(IdsOf(m, name));
    max := LLONG_MIN;
    NoneAggregated(m, name);
    assert ids[..0] == [];
    for k := 0 to |ids|
      invariant max == MaxOr(Aggregated(m, name, ids[..k]).Keys, LLONG_MIN)
    {
      AggregatedMore(m, name, ids, k);
      AggregatedTimed(m, name, ids[..k + 1]);
      var recs := m[Channel(name, ids[k])];
      var channelMax := MaxOr(recs.Keys, LLONG_MIN);
      MaxOfUnion(Aggregated(m, name, ids[..k]).Keys, recs.Keys, max, channelMax);
      max := if channelMax > max then channelMax else max;
    }
    assert ids[..|ids|] == ids;
    max := if max == LLONG_MIN then 0 else max;
  }

  method GetEntriesInfo(m: Measurement, name: Str) returns (entries: RecMap)
    ensures entries == NameRecs(m, name)
  {
    hide SortedIds, IdsOf;
    IdsKnown(m, name);
    var ids := SortedIds(IdsOf(m, name));
    entries := map[];
    for k := 0 to |ids|
      invariant entries == Aggregated(m, name, ids[..k])
    {
      AggregatedMore(m, name, ids, k);
      entries := m[Channel(name, ids[k])] + entries;
    }
    assert ids[..|ids|] == ids;
  }

  /** The reported span covers every entry of the name. */
  lemma SpanCovers(m: Measurement, name: Str)
    requires Timed(m)
    ensures NameMin(m, name) <= NameMax(m, name)
    ensures forall t | t in NameRecs(m, name) :: NameMin(m, name) <= t <= NameMax(m, name)
  {
    NameRecsTimed(m, name);
    hide NameRecs, Timed;
  }

  /** Both ends of the reported span are timestamps of entries, unless there are no entries, or
      the only timestamp is the sentinel itself, for which 0 is reported. */
  lemma SpanIsAttained(m: Measurement, name: Str)
    ensures NameMin(m, name) in NameRecs(m, name)
            || (NameMin(m, name) == 0 && forall t | t in NameRecs(m, name) :: t >= LLONG_MAX)
    ensures NameMax(m, name) in NameRecs(m, name)
            || (NameMax(m, name) == 0 && forall t | t in NameRecs(m, name) :: t <= LLONG_MIN)
  {
    hide NameRecs;
  }
}
