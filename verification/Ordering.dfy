/** The key orders of `std::map`, which fix the order in which a closing file lists its
    channels: byte strings lexicographically, ids by value. */
module Ordering {
  import opened Strings

  predicate Below(a: Str, b: Str) {
    a == [] || (b != [] && (a[0] < b[0] || (a[0] == b[0] && Below(a[1..], b[1..]))))
  }

  lemma {:induction false} BelowTotal(a: Str, b: Str)
    ensures Below(a, b) || Below(b, a)
    ensures Below(a, b) && Below(b, a) ==> a == b
  {
    if a != [] && b != [] && a[0] == b[0] {
      BelowTotal(a[1..], b[1..]);
      assert a == [a[0]] + a[1..] && b == [b[0]] + b[1..];
    }
  }

  lemma {:induction false} BelowTransitive(a: Str, b: Str, c: Str)
    requires Below(a, b) && Below(b, c)
    ensures Below(a, c)
  {
    if a != [] && a[0] == b[0] && b[0] == c[0] {
      BelowTransitive(a[1..], b[1..], c[1..]);
    }
  }

  lemma {:induction false} LeastExists(names: set<Str>) returns (m: Str)
    requires names != {}
    ensures m in names && forall n | n in names :: Below(m, n)
  {
    m :| m in names;
    BelowTotal(m, m);
    if names != {m} {
      var k := LeastExists(names - {m});
      BelowTotal(m, k);
      BelowTotal(k, k);
      if Below(k, m) {
        m := k;
      } else {
        forall n | n in names ensures Below(m, n) {
          if n != m {
            BelowTransitive(m, k, n);
          } else {
            BelowTotal(m, m);
          }
        }
      }
    }
  }

  function Least(names: set<Str>): (m: Str)
    requires names != {}
    ensures m in names && forall n | n in names :: Below(m, n)
  {
    assert exists m | m in names :: forall n | n in names :: Below(m, n) by {
      var m := LeastExists(names);
    }
    assert forall m, k | m in names && k in names && Below(m, k) && Below(k, m) :: m == k by {
      forall m, k | m in names && k in names && Below(m, k) && Below(k, m) ensures m == k {
        BelowTotal(m, k);
      }
    }
    var m :| m in names && forall n | n in names :: Below(m, n);
    m
  }

  /** The names in increasing order. */
  function Sorted(names: set<Str>): (s: seq<Str>)
    ensures forall n :: n in s <==> n in names
  {
    if names == {} then [] else [Least(names)] + Sorted(names - {Least(names)})
  }

  lemma {:induction false} SortedOnce(names: set<Str>)
    ensures forall i, j | 0 <= i < j < |Sorted(names)| :: Sorted(names)[i] != Sorted(names)[j]
  {
    if names != {} {
      var s := Sorted(names - {Least(names)});
      SortedOnce(names - {Least(names)});
      assert Least(names) !in s;
      assert Sorted(names) == [Least(names)] + s;
    }
  }

  lemma LeastIdExists(ids: set<nat>) returns (m: nat)
    requires ids != {}
    ensures m in ids && forall n | n in ids :: m <= n
  {
    var first :| first in ids;
    m := first;
    if ids != {first} {
      var k := LeastIdExists(ids - {first});
      m := if k < first then k else first;
      assert forall n | n in ids :: n == first || n in ids - {first};
    }
  }

  function LeastId(ids: set<nat>): (m: nat)
    requires ids != {}
    ensures m in ids && forall n | n in ids :: m <= n
  {
    assert exists m | m in ids :: forall n | n in ids :: m <= n by {
      var m := LeastIdExists(ids);
    }
    var m :| m in ids && forall n | n in ids :: m <= n;
    m
  }

  /** The ids in increasing order. */
  function SortedIds(ids: set<nat>): (s: seq<nat>)
    ensures forall n :: n in s <==> n in ids
  {
    if ids == {} then [] else [LeastId(ids)] + SortedIds(ids - {LeastId(ids)})
  }

  lemma {:induction false} SortedIdsIncrease(ids: set<nat>)
    ensures forall i, j | 0 <= i < j < |SortedIds(ids)| :: SortedIds(ids)[i] < SortedIds(ids)[j]
  {
    if ids != {} {
      var k := LeastId(ids);
      SortedIdsIncrease(ids - {k});
      var rest := SortedIds(ids - {k});
      forall j | 0 <= j < |rest| ensures k < rest[j] {
        assert rest[j] in rest;
      }
    }
  }

  /** Names are listed as `std::map` orders them. */
  lemma {:induction false} SortedInOrder(names: set<Str>)
    ensures forall i, j | 0 <= i < j < |Sorted(names)| :: Below(Sorted(names)[i], Sorted(names)[j])
  {
    if names != {} {
      var k := Least(names);
      SortedInOrder(names - {k});
      var rest := Sorted(names - {k});
      forall j | 0 <= j < |rest| ensures Below(k, rest[j]) {
        assert rest[j] in rest;
      }
    }
  }
}
