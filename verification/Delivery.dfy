/** When the notifications of the description gate arrive in order, though each is delivered
    after the lock is dropped (ecal/core/src/ecal_descgate.cpp:194-232). */
module Delivery {
  import opened Registry

  // ---------- Order ----------

  predicate OrderlyStep<I>(s: Shared<I>, c: Command<I>, e: EntityId) {
    About(Notice(s.entries, c), e) != [] ==> About(s.pending, e) == []
  }

  /** A command that registers an absent entity or unregisters a present one is carried out
      only when every earlier notification about the entity has been delivered. */
  ghost predicate Orderly<I>(steps: seq<Step<I>>, e: EntityId) {
    steps != [] ==>
      var n := |steps| - 1;
      && Orderly(steps[..n], e)
      && (steps[n].Apply? && Run(steps[..n]).Some? ==> OrderlyStep(Run(steps[..n]).value, steps[n].command, e))
  }

  /** A caller that applies no sample about the entity while a notification about it is
      outstanding. */
  ghost predicate Waits<I>(steps: seq<Step<I>>, e: EntityId) {
    forall k | 0 <= k < |steps| && steps[k].Apply? && Subject(steps[k].command) == e && Run(steps[..k]).Some? ::
      About(Run(steps[..k]).value.pending, e) == []
  }

  lemma {:induction false} RunPrefix<I>(steps: seq<Step<I>>, k: nat)
    requires k <= |steps| && Run(steps).Some?
    ensures Run(steps[..k]).Some?
  {
    if k < |steps| {
      var n := |steps| - 1;
      RunPrefix(steps[..n], k);
      assert steps[..n][..k] == steps[..k];
    } else {
      assert steps[..k] == steps;
    }
  }

  lemma StepNotice<I>(steps: seq<Step<I>>, c: Command<I>, e: EntityId)
    requires Run(steps).Some?
    ensures (var s := Run(steps).value;
             && s.entries == After(Commands(steps))
             && |About(Notice(s.entries, c), e)| <= 1
             && (About(Notice(s.entries, c), e) != [] ==> Subject(c) == e))
  {
    EventsBalance(steps, e);
    NoticeAbout(Commands(steps), c, e);
    hide Run, After, Commands;
  }

  lemma {:induction false} WaitingIsOrderly<I>(steps: seq<Step<I>>, e: EntityId)
    requires Run(steps).Some? && Waits(steps, e)
    ensures Orderly(steps, e)
  {
    if steps != [] {
      var n := |steps| - 1;
      RunPrefix(steps, n);
      forall k | 0 <= k < n ensures steps[..n][..k] == steps[..k] && steps[..n][k] == steps[k] {
      }
      WaitingIsOrderly(steps[..n], e);
      if steps[n].Apply? {
        StepNotice(steps[..n], steps[n].command, e);
      }
      hide Run, Notice, About;
    }
  }

  lemma AboutMoved(pending: seq<Event>, delivered: seq<Event>, i: nat, e: EntityId)
    requires i < |pending|
    ensures About(pending, e) == About(pending[..i], e) + About([pending[i]], e) + About(pending[i + 1..], e)
    ensures About(pending[..i] + pending[i + 1..], e) == About(pending[..i], e) + About(pending[i + 1..], e)
    ensures About(delivered + [pending[i]], e) == About(delivered, e) + About([pending[i]], e)
  {
    var x := [pending[i]];
    assert pending == pending[..i] + x + pending[i + 1..];
    AboutAppend(pending[..i] + x, pending[i + 1..], e);
    AboutAppend(pending[..i], x, e);
    AboutAppend(pending[..i], pending[i + 1..], e);
    AboutAppend(delivered, x, e);
    hide About;
  }

  /** With at most one notification about the entity outstanding, delivering one keeps them in
      order. */
  lemma DeliverKeepsOrder<I>(s: Shared<I>, i: nat, e: EntityId)
    requires i < |s.pending| && |About(s.pending, e)| <= 1
    ensures (var t := Next(s, Deliver(i)).value;
             && |About(t.pending, e)| <= 1
             && About(t.delivered, e) + About(t.pending, e) == About(s.delivered, e) + About(s.pending, e))
  {
    AboutMoved(s.pending, s.delivered, i, e);
    hide About;
    var front, x, back := About(s.pending[..i], e), About([s.pending[i]], e), About(s.pending[i + 1..], e);
    assert |front| + |x| + |back| <= 1;
    if x == [] {
      assert front + x + back == front + back && About(s.delivered, e) + x == About(s.delivered, e);
    } else {
      assert front == [] && back == [];
      assert front + x + back == x && front + back == [];
    }
  }

  lemma Regroup(heard: seq<Event>, waiting: seq<Event>, more: seq<Event>)
    ensures heard + (waiting + more) == (heard + waiting) + more
    ensures |more| <= 1 && |waiting| <= 1 && (more != [] ==> waiting == []) ==> |waiting + more| <= 1
  {
  }

  lemma ApplyKeepsOrder<I>(steps: seq<Step<I>>, c: Command<I>, e: EntityId)
    requires Run(steps).Some? && OrderlyStep(Run(steps).value, c, e)
    requires |About(Run(steps).value.pending, e)| <= 1
    requires About(Run(steps).value.delivered, e) + About(Run(steps).value.pending, e) == About(Notices(Commands(steps)), e)
    ensures (var t := Next(Run(steps).value, Apply(c)).value;
             && |About(t.pending, e)| <= 1
             && About(t.delivered, e) + About(t.pending, e) == About(Notices(Commands(steps) + [c]), e))
  {
    var s := Run(steps).value;
    StepNotice(steps, c, e);
    NoticesMore(Commands(steps), c, e);
    AboutAppend(s.pending, Notice(s.entries, c), e);
    hide Run, About, Notice, Applied, After, Commands, Notices;
    var t := Next(s, Apply(c)).value;
    assert t.delivered == s.delivered && t.pending == s.pending + Notice(s.entries, c);
    Regroup(About(s.delivered, e), About(s.pending, e), About(Notice(s.entries, c), e));
  }

  /** If every change of an entity waits for the notifications about it, they are delivered in
      the order of the changes, and at most one is outstanding. */
  lemma {:induction false} OrderlyInOrder<I>(steps: seq<Step<I>>, e: EntityId)
    requires Run(steps).Some? && Orderly(steps, e)
    ensures |About(Run(steps).value.pending, e)| <= 1
    ensures About(Run(steps).value.delivered, e) + About(Run(steps).value.pending, e) == About(Notices(Commands(steps)), e)
  {
    if steps != [] {
      var n := |steps| - 1;
      OrderlyInOrder(steps[..n], e);
      var s := Run(steps[..n]).value;
      CommandsMore(steps);
      hide About, Commands, Notices, Notice, Applied, OrderlyStep;
      match steps[n]
      case Apply(c) => ApplyKeepsOrder(steps[..n], c, e);
      case Deliver(i) => DeliverKeepsOrder(s, i, e);
    }
  }

  lemma AlternatesPrefix(events: seq<Event>, more: seq<Event>)
    requires Alternates(events + more)
    ensures Alternates(events)
  {
    forall i | 0 <= i < |events| ensures events[i].New? <==> i % 2 == 0 {
      assert (events + more)[i] == events[i];
    }
  }

  lemma LastTells(heard: seq<Event>)
    requires Alternates(heard)
    ensures |heard| % 2 == 1 <==> heard != [] && heard[|heard| - 1].New?
  {
  }

  /** Then a callback that is there from the start hears of the entity new and deleted in turn,
      and when nothing is outstanding the last it heard is whether the entity is registered. */
  lemma OrderlyIsTruthful<I>(steps: seq<Step<I>>, e: EntityId)
    requires Run(steps).Some? && Orderly(steps, e)
    ensures Alternates(About(Run(steps).value.delivered, e))
    ensures (var s := Run(steps).value;
             var heard := About(s.delivered, e);
             About(s.pending, e) == [] ==>
               (e in s.entries <==> heard != [] && heard[|heard| - 1].New?))
  {
    OrderlyInOrder(steps, e);
    EventsBalance(steps, e);
    NoticesAlternate(Commands(steps), e);
    var s := Run(steps).value;
    AlternatesPrefix(About(s.delivered, e), About(s.pending, e));
    hide About, Run, Commands, Notices, After, Balance, Orderly, Alternates;
    if About(s.pending, e) == [] {
      assert About(s.delivered, e) + About(s.pending, e) == About(s.delivered, e);
      LastTells(About(s.delivered, e));
    }
  }

  lemma AboutSince(delivered: seq<Event>, joined: nat, e: EntityId)
    requires joined <= |delivered|
    ensures About(delivered, e) == About(delivered[..joined], e) + About(delivered[joined..], e)
  {
    assert delivered == delivered[..joined] + delivered[joined..];
    AboutAppend(delivered[..joined], delivered[joined..], e);
    hide About;
  }

  /** The events are new and deleted in turn, the first one of the given kind. */
  predicate AlternatesFrom(events: seq<Event>, isNew: bool) {
    forall i | 0 <= i < |events| :: events[i].New? <==> (i % 2 == 0) == isNew
  }

  lemma AlternatesRest(missed: seq<Event>, heard: seq<Event>)
    requires Alternates(missed + heard)
    ensures AlternatesFrom(heard, missed == [] || missed[|missed| - 1].Deleted?)
  {
    AlternatesPrefix(missed, heard);
    LastTells(missed);
    forall i | 0 <= i < |heard| ensures heard[i].New? <==> (|missed| + i) % 2 == 0 {
      assert (missed + heard)[|missed| + i] == heard[i];
    }
  }

  /** A callback added after the first `joined` deliveries hears new and deleted in turn, too,
      starting with deleted exactly if the last notification it missed was new; if it has
      heard anything of the entity and nothing is outstanding, the last it heard is the truth. */
  lemma JoinedHearsInTurn<I>(steps: seq<Step<I>>, e: EntityId, joined: nat)
    requires Run(steps).Some? && Orderly(steps, e) && joined <= |Run(steps).value.delivered|
    ensures (var s := Run(steps).value;
             var missed, heard := About(s.delivered[..joined], e), About(s.delivered[joined..], e);
             && AlternatesFrom(heard, missed == [] || missed[|missed| - 1].Deleted?)
             && (heard != [] && About(s.pending, e) == [] ==> (e in s.entries <==> heard[|heard| - 1].New?)))
  {
    OrderlyIsTruthful(steps, e);
    var s := Run(steps).value;
    hide About, Run, Orderly, Alternates, AlternatesFrom;
    AboutSince(s.delivered, joined, e);
    AlternatesRest(About(s.delivered[..joined], e), About(s.delivered[joined..], e));
  }

  // ---------- Overtaking ----------

  predicate OnlyDelivers<I>(steps: seq<Step<I>>) { forall k | 0 <= k < |steps| :: steps[k].Deliver? }

  lemma RunMore<I>(steps: seq<Step<I>>, step: Step<I>)
    requires Run(steps).Some?
    ensures Run(steps + [step]) == Next(Run(steps).value, step)
  {
    assert (steps + [step])[..|steps|] == steps;
  }

  lemma DeliverFirst<I>(steps: seq<Step<I>>)
    requires Run(steps).Some? && Run(steps).value.pending != []
    ensures (var s, t := Run(steps).value, Run(steps + [Deliver(0)]);
             t.Some? && t.value.pending == s.pending[1..] && t.value.delivered == s.delivered + [s.pending[0]])
  {
    RunMore(steps, Deliver(0));
    hide Run;
  }

  /** Delivering all that is outstanding. */
  lemma DeliverAll<I>(steps: seq<Step<I>>) returns (more: seq<Step<I>>)
    requires Run(steps).Some?
    ensures OnlyDelivers(more) && Run(steps + more).Some? && Run(steps + more).value.pending == []
    ensures Run(steps).value.delivered <= Run(steps + more).value.delivered
    decreases |Run(steps).value.pending|
  {
    hide Run;
    if Run(steps).value.pending == [] {
      more := [];
      assert steps + more == steps;
    } else {
      DeliverFirst(steps);
      var rest := DeliverAll(steps + [Deliver(0)]);
      more := [Deliver(0)] + rest;
      assert steps + more == steps + [Deliver(0)] + rest;
    }
  }

  lemma {:induction false} AlternatingBalance(events: seq<Event>, e: EntityId)
    requires Alternates(About(events, e))
    ensures Balance(events, e) == |About(events, e)| % 2
  {
    if events != [] {
      var n := |events| - 1;
      var last := if events[n].id.entity == e then [events[n]] else [];
      AlternatesPrefix(About(events[..n], e), last);
      AlternatingBalance(events[..n], e);
      if last != [] {
        assert About(events, e)[|About(events[..n], e)|] == events[n];
      }
    }
  }

  /** Without a notification of one kind, all are of the other. */
  lemma {:induction false} OneKindBalance(events: seq<Event>, e: EntityId, isNew: bool)
    requires forall i | 0 <= i < |events| && events[i].id.entity == e :: events[i].New? != isNew
    ensures Balance(events, e) == if isNew then -|About(events, e)| else |About(events, e)|
  {
    if events != [] {
      OneKindBalance(events[..|events| - 1], e, isNew);
    }
  }

  /** Of two outstanding notifications about an entity, one can be delivered that does not
      continue what has been delivered. */
  lemma WrongOne<I>(steps: seq<Step<I>>, e: EntityId) returns (i: nat)
    requires Run(steps).Some? && |About(Run(steps).value.pending, e)| >= 2
    requires Alternates(About(Run(steps).value.delivered, e))
    ensures (var s := Run(steps).value;
             && i < |s.pending| && s.pending[i].id.entity == e
             && (s.pending[i].New? <==> |About(s.delivered, e)| % 2 == 1))
  {
    EventsBalance(steps, e);
    var s := Run(steps).value;
    AlternatingBalance(s.delivered, e);
    hide Run, About, Balance, Alternates, Commands, After;
    var isNew := |About(s.delivered, e)| % 2 == 1;
    if forall k | 0 <= k < |s.pending| && s.pending[k].id.entity == e :: s.pending[k].New? != isNew {
      OneKindBalance(s.pending, e, isNew);
    }
    i :| 0 <= i < |s.pending| && s.pending[i].id.entity == e && s.pending[i].New? == isNew;
  }

  lemma AboutOne(x: Event, e: EntityId)
    requires x.id.entity == e
    ensures About([x], e) == [x]
  {
    assert [x][..0] == [];
  }

  lemma {:induction false} AboutPrefix(events: seq<Event>, more: seq<Event>, e: EntityId)
    requires events <= more && Alternates(About(more, e))
    ensures Alternates(About(events, e))
  {
    var rest := more[|events|..];
    assert more == events + rest;
    AboutAppend(events, rest, e);
    AlternatesPrefix(About(events, e), About(rest, e));
  }

  /** Once out of turn, always out of turn. */
  lemma StaysOutOfTurn<I>(steps: seq<Step<I>>, e: EntityId) returns (more: seq<Step<I>>)
    requires Run(steps).Some? && !Alternates(About(Run(steps).value.delivered, e))
    ensures OnlyDelivers(more) && Run(steps + more).Some? && Run(steps + more).value.pending == []
    ensures !Alternates(About(Run(steps + more).value.delivered, e))
  {
    hide Run, About, Alternates;
    more := DeliverAll(steps);
    if Alternates(About(Run(steps + more).value.delivered, e)) {
      AboutPrefix(Run(steps).value.delivered, Run(steps + more).value.delivered, e);
    }
  }

  lemma WrongIsOutOfTurn(delivered: seq<Event>, x: Event, e: EntityId)
    requires x.id.entity == e && (x.New? <==> |About(delivered, e)| % 2 == 1)
    ensures !Alternates(About(delivered + [x], e))
  {
    AboutAppend(delivered, [x], e);
    AboutOne(x, e);
    hide About;
    assert About(delivered + [x], e)[|About(delivered, e)|] == x;
  }

  /** From any state with two notifications about an entity outstanding, some deliveries lead
      to a state with none outstanding in which they were not delivered in turn. */
  lemma TwoCanOvertake<I>(steps: seq<Step<I>>, e: EntityId) returns (more: seq<Step<I>>)
    requires Run(steps).Some? && |About(Run(steps).value.pending, e)| >= 2
    ensures OnlyDelivers(more) && Run(steps + more).Some? && Run(steps + more).value.pending == []
    ensures !Alternates(About(Run(steps + more).value.delivered, e))
  {
    hide Run, About, Alternates;
    if !Alternates(About(Run(steps).value.delivered, e)) {
      more := StaysOutOfTurn(steps, e);
    } else {
      var i := WrongOne(steps, e);
      RunMore(steps, Deliver(i));
      WrongIsOutOfTurn(Run(steps).value.delivered, Run(steps).value.pending[i], e);
      var rest := StaysOutOfTurn(steps + [Deliver(i)], e);
      more := [Deliver(i)] + rest;
      assert steps + more == steps + [Deliver(i)] + rest;
    }
  }

  // ---------- Exactly when ----------

  ghost predicate InTurn<I>(steps: seq<Step<I>>, e: EntityId) {
    Run(steps).Some? ==> Alternates(About(Run(steps).value.delivered, e))
  }

  /** At every point of the run, however the outstanding notifications are delivered from
      there on, those about the entity arrive in turn. */
  ghost predicate AlwaysInTurn<I(!new)>(steps: seq<Step<I>>, e: EntityId) {
    forall k, more | 0 <= k <= |steps| && OnlyDelivers(more) :: InTurn(steps[..k] + more, e)
  }

  lemma {:induction false} OrderlyPrefix<I>(steps: seq<Step<I>>, e: EntityId, k: nat)
    requires k <= |steps| && Orderly(steps, e)
    ensures Orderly(steps[..k], e)
  {
    if k < |steps| {
      var n := |steps| - 1;
      OrderlyPrefix(steps[..n], e, k);
      assert steps[..n][..k] == steps[..k];
    } else {
      assert steps[..k] == steps;
    }
  }

  lemma {:induction false} DeliversStayOrderly<I>(steps: seq<Step<I>>, more: seq<Step<I>>, e: EntityId)
    requires Orderly(steps, e) && OnlyDelivers(more)
    ensures Orderly(steps + more, e)
  {
    if more == [] {
      assert steps + more == steps;
    } else {
      var n := |more| - 1;
      DeliversStayOrderly(steps, more[..n], e);
      assert (steps + more)[..|steps + more| - 1] == steps + more[..n];
    }
  }

  /** The first command that did not wait. */
  lemma {:induction false} NotOrderly<I>(steps: seq<Step<I>>, e: EntityId) returns (k: nat)
    requires Run(steps).Some? && !Orderly(steps, e)
    ensures 0 < k <= |steps| && Run(steps[..k]).Some? && |About(Run(steps[..k]).value.pending, e)| >= 2
  {
    var n := |steps| - 1;
    RunPrefix(steps, n);
    if Orderly(steps[..n], e) {
      k := |steps|;
      assert steps[..k] == steps;
      var s := Run(steps[..n]).value;
      AboutAppend(s.pending, Notice(s.entries, steps[n].command), e);
      hide About, Notice, Applied;
    } else {
      k := NotOrderly(steps[..n], e);
      assert steps[..n][..k] == steps[..k];
    }
  }

  /** The notifications about an entity arrive in turn under every delivery schedule exactly
      if every change of the entity waits for the notifications about it. */
  lemma OrderlyIff<I(!new)>(steps: seq<Step<I>>, e: EntityId)
    requires Run(steps).Some?
    ensures Orderly(steps, e) <==> AlwaysInTurn(steps, e)
  {
    hide Run, About, Alternates, Orderly;
    if Orderly(steps, e) {
      forall k, more: seq<Step<I>> | 0 <= k <= |steps| && OnlyDelivers(more) ensures InTurn(steps[..k] + more, e) {
        OrderlyPrefix(steps, e, k);
        DeliversStayOrderly(steps[..k], more, e);
        if Run(steps[..k] + more).Some? {
          OrderlyIsTruthful(steps[..k] + more, e);
        }
      }
    } else {
      var k := NotOrderly(steps, e);
      var more := TwoCanOvertake(steps[..k], e);
      assert !InTurn(steps[..k] + more, e);
    }
  }
}
