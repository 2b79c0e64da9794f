/** Queries on an opened directory (contrib/ecalhdf5/src/eh5_meas_dir.cpp:228-293). */
module Queries {
  import opened Strings
  import opened Entries
  import opened Layout
  import opened MeasDir
  import opened DirFacts

  const LLONG_MAX: int := 0x7FFF_FFFF_FFFF_FFFF
  const LLONG_MIN: int := -LLONG_MAX - 1

  // ---------- Walking a set in order ----------

  lemma SomeTime(times: set<int>)
    ensures times == {} || exists t :: t in times
  {
    if forall t :: t !in times {
      assert times == {};
    }
  }

  lemma LeastTimeExists(times: set<int>) returns (m: int)
    requires times != {}
    ensures m in times && forall n | n in times :: m <= n
  {
    SomeTime(times);
    m :| m in times;
    if times != {m} {
      var k := LeastTimeExists(times - {m});
      var first := m;
      m := if k < first then k else first;
      assert forall n | n in times :: n == first || n in times - {first};
    }
  }

  function LeastTime(times: set<int>): (m: int)
    requires times != {}
    ensures m in times && forall n | n in times :: m <= n
  {
    assert exists m | m in times :: forall n | n in times :: m <= n by {
      var m := LeastTimeExists(times);
    }
    var m :| m in times && forall n | n in times :: m <= n;
    m
  }

  predicate Increasing(s: seq<int>) { forall i, j | 0 <= i < j < |s| :: s[i] < s[j] }

  /** The timestamps a `std::set<EntryInfo>` is walked through. */
  function Times(times: set<int>): (s: seq<int>)
    ensures forall t :: t in s <==> t in times
    ensures Increasing(s)
  {
    if times == {} then [] else [LeastTime(times)] + Times(times - {LeastTime(times)})
  }

  /** `lower_bound`: the position of the first timestamp not below `t`. */
  function LowerBound(s: seq<int>, t: int): (k: nat)
    ensures k <= |s|
  {
    if s == [] || s[0] >= t then 0 else 1 + LowerBound(s[1..], t)
  }

  /** `upper_bound`: the position of the first timestamp above `t`. */
  function UpperBound(s: seq<int>, t: int): (k: nat)
    ensures k <= |s|
  {
    if s == [] || s[0] > t then 0 else 1 + UpperBound(s[1..], t)
  }

  lemma {:induction false} BoundsSplit(s: seq<int>, t: int)
    requires Increasing(s)
    ensures forall i | 0 <= i < |s| :: i < LowerBound(s, t) <==> s[i] < t
    ensures forall i | 0 <= i < |s| :: i < UpperBound(s, t) <==> s[i] <= t
  {
    if s != [] {
      BoundsSplit(s[1..], t);
      forall i | 0 < i < |s| ensures s[i] == s[1..][i - 1] {
      }
    }
  }

  /** No timestamp is above the end and below the beginning: always so if these are in
      order. */
  predicate NoneBetween(s: seq<int>, begin: int, end: int) { forall t | t in s :: !(end < t < begin) }

  lemma BoundsOrdered(s: seq<int>, begin: int, end: int)
    requires Increasing(s) && NoneBetween(s, begin, end)
    ensures LowerBound(s, begin) <= UpperBound(s, end)
  {
    BoundsSplit(s, begin);
    BoundsSplit(s, end);
    var u := UpperBound(s, end);
    assert u < |s| ==> s[u] in s && s[u] > end;
  }

  // ---------- What the files hold ----------

  /** Some file has an entry of channel `c` with receive timestamp `t`. */
  ghost predicate Held(files: Files, c: Channel, t: int) {
    exists i: nat :: Exists(files, Origin(i, c, t))
  }

  lemma HeldIsIndexed(files: Files, dir: MeasDirReader, c: Channel, t: int)
    requires dir.Consistent(files) && Complete(files, dir.origins)
    ensures Held(files, c, t) <==> c in dir.entriesByChn && t in dir.entriesByChn[c]
  {
    LookupIffExists(files, dir.origins, dir.entriesById, dir.entriesByChn, c, t);
    hide Exists;
  }

  /** The timestamps held for a channel are those of its set in the index. */
  lemma HeldTimes(files: Files, dir: MeasDirReader, c: Channel)
    requires dir.Consistent(files) && Complete(files, dir.origins)
    ensures forall t :: Held(files, c, t) <==> c in dir.entriesByChn && t in Times(dir.entriesByChn[c].Keys)
  {
    hide Held, Indexed, Complete;
    forall t ensures Held(files, c, t) <==> c in dir.entriesByChn && t in Times(dir.entriesByChn[c].Keys) {
      HeldIsIndexed(files, dir, c, t);
    }
  }

  lemma EndsBound(s: seq<int>)
    requires Increasing(s) && s != []
    ensures forall t | t in s :: s[0] <= t <= s[|s| - 1]
  {
  }

  method GetMinTimestamp(ghost files: Files, dir: MeasDirReader, channel: Channel) returns (min: int)
    requires dir.Consistent(files) && Complete(files, dir.origins)
    ensures forall t | Held(files, channel, t) :: min <= t
    ensures if exists t :: Held(files, channel, t) then Held(files, channel, min) else min == LLONG_MAX
  {
    min := LLONG_MAX;
    HeldTimes(files, dir, channel);
    hide Held, Indexed, Complete, Increasing;
    if channel in dir.entriesByChn {
      var times := Times(dir.entriesByChn[channel].Keys);
      if times != [] {
        min := times[0];
        EndsBound(times);
        assert min in times;
      }
    }
  }

  method GetMaxTimestamp(ghost files: Files, dir: MeasDirReader, channel: Channel) returns (max: int)
    requires dir.Consistent(files) && Complete(files, dir.origins)
    ensures forall t | Held(files, channel, t) :: t <= max
    ensures if exists t :: Held(files, channel, t) then Held(files, channel, max) else max == LLONG_MIN
  {
    max := LLONG_MIN;
    HeldTimes(files, dir, channel);
    hide Held, Indexed, Complete, Increasing;
    if channel in dir.entriesByChn {
      var times := Times(dir.entriesByChn[channel].Keys);
      if times != [] {
        max := times[|times| - 1];
        EndsBound(times);
        assert max in times;
      }
    }
  }

  /** The entries of a set at some of its timestamps. */
  function Restricted(s: EntrySet, times: seq<int>): EntrySet
    requires forall t | t in times :: t in s
  {
    var m := map t | t in times :: s[t];
    assert forall t | t in m :: t in s && m[t] == s[t];
    m
  }

  lemma RestrictedMore(s: EntrySet, times: seq<int>, t: int)
    requires (forall u | u in times :: u in s) && t in s && t !in times
    ensures forall u | u in times + [t] :: u in s
    ensures Restricted(s, times + [t]) == Insert(Restricted(s, times), s[t])
  {
  }

  lemma NextOfStretch(times: seq<int>, lower: nat, k: nat)
    requires Increasing(times) && lower <= k < |times|
    ensures times[lower..k + 1] == times[lower..k] + [times[k]]
    ensures times[k] !in times[lower..k]
  {
  }

  /** Inserting a stretch of a set, in its order. */
  method InsertStretch(s: EntrySet, times: seq<int>, lower: nat, upper: nat) returns (entries: EntrySet)
    requires Increasing(times) && forall t | t in times :: t in s
    requires lower <= upper <= |times|
    ensures entries == Restricted(s, times[lower..upper])
  {
    entries := map[];
    for k := lower to upper
      invariant forall t | t in times[lower..k] :: t in s
      invariant entries == Restricted(s, times[lower..k])
    {
      hide Restricted, Increasing, Insert;
      NextOfStretch(times, lower, k);
      RestrictedMore(s, times[lower..k], times[k]);
      entries := Insert(entries, s[times[k]]);
    }
  }

  lemma StretchIsRange(s: seq<int>, begin: int, end: int)
    requires Increasing(s) && NoneBetween(s, begin, end)
    ensures LowerBound(s, begin) <= UpperBound(s, end)
    ensures forall t :: t in s[LowerBound(s, begin)..UpperBound(s, end)] <==> t in s && begin <= t <= end
  {
    BoundsOrdered(s, begin, end);
    BoundsSplit(s, begin);
    BoundsSplit(s, end);
    var l, u := LowerBound(s, begin), UpperBound(s, end);
    forall t | t in s && begin <= t <= end ensures t in s[l..u] {
      var i :| 0 <= i < |s| && s[i] == t;
      assert l <= i < u;
      assert s[l..u][i - l] == t;
    }
  }

  /** The entries from `begin` to `end`, both included: every one of them, nothing else,
      and as one stretch of the channel's entries. For a channel with entries the bounds are
      not 0, and if they are in reverse, no entry lies between them. */
  method GetEntriesInfoRange(ghost files: Files, dir: MeasDirReader, channel: Channel, begin: int, end: int)
      returns (found: bool, entries: EntrySet)
    requires dir.Consistent(files) && Complete(files, dir.origins)
    requires forall t | Held(files, channel, t) :: begin != 0 && end != 0 && !(end < t < begin)
    ensures found <==> exists t :: Held(files, channel, t)
    ensures forall t :: t in entries <==> begin <= t <= end && Held(files, channel, t)
    ensures forall t | t in entries :: Lookup(dir.entriesByChn, channel, t) == Some(entries[t])
  {
    found, entries := false, map[];
    forall t ensures Held(files, channel, t) <==> channel in dir.entriesByChn && t in dir.entriesByChn[channel] {
      HeldIsIndexed(files, dir, channel, t);
    }
    hide Held, Indexed, Complete;
    if channel in dir.entriesByChn {
      var s := dir.entriesByChn[channel];
      var times := Times(s.Keys);
      var lower, upper := LowerBound(times, begin), UpperBound(times, end);
      BoundsOrdered(times, begin, end);
      entries := InsertStretch(s, times, lower, upper);
      found := true;
      StretchIsRange(times, begin, end);
    }
  }
}
