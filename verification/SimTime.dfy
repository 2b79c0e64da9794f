/** Simulation time that runs at a changeable rate and is cut to whole nanoseconds
    (contrib/ecaltime/include/dynamic_sleeper.h), with `double` taken as `real`. */
module SimTime {
  /** A C++ conversion to an integer cuts towards zero. */
  function Truncated(x: real): int { if x >= 0.0 then x.Floor else -((-x).Floor) }

  datatype Clock = Clock(rate: real, simTime: int, local: int)

  /** The simulation time that passes between two local times at one rate. */
  function Span(from: int, to: int, rate: real): real { (to - from) as real * rate }

  function Passed(c: Clock, now: int): int { Truncated(Span(c.local, now, c.rate)) }

  function Now(c: Clock, now: int): int { Passed(c, now) + c.simTime }

  /** A call with the local time at which it was made. */
  datatype Call = SetRate(at: int, rate: real) | SetTime(at: int, time: int) | SetTimeAndRate(at: int, time: int, rate: real)

  function Updated(c: Clock, call: Call): Clock {
    match call
    case SetRate(at, rate) => Clock(rate, c.simTime + Passed(c, at), at)
    case SetTime(at, time) => Clock(c.rate, time, at)
    case SetTimeAndRate(at, time, rate) => Clock(rate, time, at)
  }

  function After(start: int, calls: seq<Call>): Clock {
    if calls == [] then Clock(1.0, 0, start) else Updated(After(start, calls[..|calls| - 1]), calls[|calls| - 1])
  }

  // ---------- The exact time ----------

  function RateAfter(calls: seq<Call>): real {
    if calls == [] then 1.0
    else
      var last := calls[|calls| - 1];
      if last.SetTime? then RateAfter(calls[..|calls| - 1]) else last.rate
  }

  /** The time last set plus the integral of the rate since then. */
  function Exact(start: int, calls: seq<Call>, now: int): real {
    if calls == [] then (now - start) as real
    else
      var last := calls[|calls| - 1];
      var passed := Span(last.at, now, RateAfter(calls));
      if last.SetRate? then Exact(start, calls[..|calls| - 1], last.at) + passed else last.time as real + passed
  }

  /** How often the rate has changed since the time was last set. */
  function Changes(calls: seq<Call>): nat {
    if calls == [] then 0
    else if calls[|calls| - 1].SetRate? then Changes(calls[..|calls| - 1]) + 1 else 0
  }

  function LastAt(start: int, calls: seq<Call>): int { if calls == [] then start else calls[|calls| - 1].at }

  /** Calls in the order of their local times, with rates that are not negative. */
  predicate Serialised(start: int, calls: seq<Call>) {
    calls != [] ==>
      var n := |calls| - 1;
      && Serialised(start, calls[..n])
      && LastAt(start, calls[..n]) <= calls[n].at
      && (!calls[n].SetTime? ==> calls[n].rate >= 0.0)
  }

  lemma {:induction false} RateIsLast(start: int, calls: seq<Call>)
    requires Serialised(start, calls)
    ensures After(start, calls).rate == RateAfter(calls) >= 0.0
    ensures After(start, calls).local == LastAt(start, calls)
  {
    if calls != [] {
      RateIsLast(start, calls[..|calls| - 1]);
    }
  }

  lemma Product(a: int, r: real)
    requires a >= 0 && r >= 0.0
    ensures a as real * r >= 0.0
  {
  }

  /** Cutting loses less than one nanosecond, and nothing is added. */
  lemma CutsLessThanOne(c: Clock, now: int)
    requires c.local <= now && c.rate >= 0.0
    ensures Passed(c, now) >= 0
    ensures 0.0 <= Span(c.local, now, c.rate) - Passed(c, now) as real < 1.0
  {
    Product(now - c.local, c.rate);
  }

  lemma DriftAdds(exact: real, sim: int, bound: real, x: real, passed: int)
    requires 0.0 <= exact - sim as real < bound && 0.0 <= x - passed as real < 1.0
    ensures 0.0 <= exact + x - (passed + sim) as real < bound + 1.0
  {
    assert (passed + sim) as real == passed as real + sim as real;
  }

  lemma NoDriftBefore(start: int, calls: seq<Call>, now: int)
    requires Serialised(start, calls)
    ensures calls == [] || !calls[|calls| - 1].SetRate? ==>
              Exact(start, calls, now) == After(start, calls).simTime as real + Span(After(start, calls).local, now, After(start, calls).rate)
  {
    RateIsLast(start, calls);
  }

  /** For serialised calls with rates that are not negative: the simulation time is never
      ahead of the exact time, and after `k` changes of the rate less than `k + 1`
      nanoseconds behind it. */
  lemma {:induction false} DriftIsBounded(start: int, calls: seq<Call>, now: int)
    requires Serialised(start, calls) && LastAt(start, calls) <= now
    ensures 0.0 <= Exact(start, calls, now) - Now(After(start, calls), now) as real < (Changes(calls) + 1) as real
  {
    RateIsLast(start, calls);
    var c := After(start, calls);
    CutsLessThanOne(c, now);
    NoDriftBefore(start, calls, now);
    hide Span, Passed, Truncated;
    if calls != [] && calls[|calls| - 1].SetRate? {
      var n := |calls| - 1;
      DriftIsBounded(start, calls[..n], calls[n].at);
      assert c.simTime == Now(After(start, calls[..n]), calls[n].at);
      DriftAdds(Exact(start, calls[..n], calls[n].at), c.simTime, Changes(calls) as real, Span(c.local, now, c.rate), Passed(c, now));
    }
  }

  /** A change of the rate does not make the time jump. */
  lemma ContinuousAtSetRate(start: int, calls: seq<Call>, at: int, rate: real)
    ensures Now(After(start, calls + [SetRate(at, rate)]), at) == Now(After(start, calls), at)
  {
    assert (calls + [SetRate(at, rate)])[..|calls|] == calls;
    var c := After(start, calls + [SetRate(at, rate)]);
    assert (at - c.local) as real * c.rate == 0.0;
  }

  predicate OnlyRates(calls: seq<Call>) { forall i | 0 <= i < |calls| :: calls[i].SetRate? }

  lemma Grows(c: Clock, now: int, later: int)
    requires c.local <= now <= later && c.rate >= 0.0
    ensures Now(c, now) <= Now(c, later)
  {
    Product(now - c.local, c.rate);
    Product(later - now, c.rate);
    var x, y := (now - c.local) as real * c.rate, (later - now) as real * c.rate;
    assert (later - c.local) as real == (now - c.local) as real + (later - now) as real;
    assert (later - c.local) as real * c.rate == x + y;
    assert x.Floor as real <= x + y;
  }

  lemma {:induction false} FirstIsFirst(start: int, calls: seq<Call>, more: seq<Call>)
    requires Serialised(start, calls + more) && more != []
    ensures more[0].at <= more[|more| - 1].at
  {
    var n := |more| - 1;
    if n > 0 {
      assert (calls + more)[..|calls + more| - 1] == calls + more[..n];
      FirstIsFirst(start, calls, more[..n]);
    }
  }

  /** Until the time is set again it does not go back, whatever the changes of the rate in
      between. */
  lemma {:induction false} NeverGoesBack(start: int, calls: seq<Call>, now: int, more: seq<Call>, later: int)
    requires Serialised(start, calls + more) && OnlyRates(more)
    requires LastAt(start, calls) <= now && LastAt(start, calls + more) <= later && now <= later
    requires more != [] ==> now <= more[0].at
    ensures Now(After(start, calls), now) <= Now(After(start, calls + more), later)
    decreases |more|
  {
    RateIsLast(start, calls + more);
    if more == [] {
      assert calls + more == calls;
      Grows(After(start, calls), now, later);
    } else {
      var n := |more| - 1;
      var call := more[n];
      assert (calls + more)[..|calls + more| - 1] == calls + more[..n];
      assert calls + more == calls + more[..n] + [call];
      if n == 0 {
        assert calls + more[..n] == calls;
      }
      FirstIsFirst(start, calls, more);
      NeverGoesBack(start, calls, now, more[..n], call.at);
      ContinuousAtSetRate(start, calls + more[..n], call.at, call.rate);
      Grows(After(start, calls + more), call.at, later);
    }
  }

  // ---------- The class ----------

  class DynamicSleeper {
    var rate: real
    var lastSimTime: int
    var lastSimTimeLocalTimestamp: int
    ghost const start: int
    ghost var calls: seq<Call>

    ghost predicate Valid()
      reads this
    {
      Clock(rate, lastSimTime, lastSimTimeLocalTimestamp) == After(start, calls)
    }

    constructor (now: int)
      ensures Valid() && start == now && calls == []
    {
      rate, lastSimTime, lastSimTimeLocalTimestamp := 1.0, 0, now;
      start, calls := now, [];
    }

    method SetRateTo(now: int, newRate: real)
      requires Valid()
      modifies this
      ensures Valid() && calls == old(calls) + [SetRate(now, newRate)]
    {
      var passedSystemNsecs := now - lastSimTimeLocalTimestamp;
      var passedSimtimeNsecs := Truncated(passedSystemNsecs as real * rate);
      lastSimTimeLocalTimestamp := now;
      lastSimTime := lastSimTime + passedSimtimeNsecs;
      rate := newRate;
      calls := calls + [SetRate(now, newRate)];
      assert calls[..|calls| - 1] == old(calls);
    }

    method SetTimeTo(now: int, nsecs: int)
      requires Valid()
      modifies this
      ensures Valid() && calls == old(calls) + [SetTime(now, nsecs)]
    {
      lastSimTimeLocalTimestamp := now;
      lastSimTime := nsecs;
      calls := calls + [SetTime(now, nsecs)];
      assert calls[..|calls| - 1] == old(calls);
    }

    method SetTimeAndRateTo(now: int, nsecs: int, newRate: real)
      requires Valid()
      modifies this
      ensures Valid() && calls == old(calls) + [SetTimeAndRate(now, nsecs, newRate)]
    {
      lastSimTimeLocalTimestamp := now;
      lastSimTime := nsecs;
      rate := newRate;
      calls := calls + [SetTimeAndRate(now, nsecs, newRate)];
      assert calls[..|calls| - 1] == old(calls);
    }

    /** Within the drift bound of the exact time if the calls were serialised. */
    method GetCurrentInternalSimTime(now: int) returns (time: int)
      requires Valid()
      ensures time == Now(After(start, calls), now)
      ensures Serialised(start, calls) && LastAt(start, calls) <= now ==>
                0.0 <= Exact(start, calls, now) - time as real < (Changes(calls) + 1) as real
    {
      time := Truncated((now - lastSimTimeLocalTimestamp) as real * rate) + lastSimTime;
      if Serialised(start, calls) && LastAt(start, calls) <= now {
        DriftIsBounded(start, calls, now);
      }
    }
  }
}
