/** The description gate: who is registered, what is known about them, and who is told
    (ecal/core/src/ecal_descgate.cpp). */
module Registry {
  import opened Strings

  type EntityId = nat

  /** `STopicId` or `SServiceId`: entity, process and host with the topic's or service's
      name. */
  datatype Identity = Identity(entity: EntityId, process: int, host: Str, name: Str)

  datatype Entry<I> = Entry(id: Identity, info: I)

  type Entries<I> = map<EntityId, Entry<I>>

  /** What one sample asks of one of the four maps. */
  datatype Command<I> = Register(id: Identity, info: I) | Unregister(entity: EntityId)

  datatype Event = New(id: Identity) | Deleted(id: Identity)

  // ---------- One map and its log ----------

  function Subject<I>(c: Command<I>): EntityId { if c.Register? then c.id.entity else c.entity }

  function Applied<I>(m: Entries<I>, c: Command<I>): Entries<I> {
    match c
    case Register(id, info) => m[id.entity := Entry(if id.entity in m then m[id.entity].id else id, info)]
    case Unregister(e) => m - {e}
  }

  /** The notification a command gives rise to: about a new or an erased entity only. */
  function Notice<I>(m: Entries<I>, c: Command<I>): seq<Event> {
    match c
    case Register(id, _) => if id.entity in m then [] else [New(id)]
    case Unregister(e) => if e in m then [Deleted(m[e].id)] else []
  }

  function After<I>(log: seq<Command<I>>): Entries<I> {
    if log == [] then map[] else Applied(After(log[..|log| - 1]), log[|log| - 1])
  }

  function Notices<I>(log: seq<Command<I>>): seq<Event> {
    if log == [] then []
    else Notices(log[..|log| - 1]) + Notice(After(log[..|log| - 1]), log[|log| - 1])
  }

  // ---------- The log, read backwards ----------

  predicate Registers<I>(c: Command<I>, e: EntityId) { c.Register? && c.id.entity == e }

  predicate Unregisters<I>(c: Command<I>, e: EntityId) { c.Unregister? && c.entity == e }

  /** The entity is not unregistered at or after position `i`. */
  ghost predicate StaysFrom<I>(log: seq<Command<I>>, e: EntityId, i: int) {
    forall k | 0 <= i <= k < |log| :: !Unregisters(log[k], e)
  }

  /** Command `i` is the first registration since the entity was last absent. */
  ghost predicate Opens<I>(log: seq<Command<I>>, e: EntityId, i: int) {
    && 0 <= i < |log| && Registers(log[i], e) && StaysFrom(log, e, i)
    && (forall k | 0 <= k < i && Registers(log[k], e) :: exists m :: k < m < i && Unregisters(log[m], e))
  }

  /** Command `i` is the latest about the entity, and registers it. */
  ghost predicate Latest<I>(log: seq<Command<I>>, e: EntityId, i: int) {
    0 <= i < |log| && Registers(log[i], e) && forall k | i < k < |log| :: Subject(log[k]) != e
  }

  lemma StaysOneMore<I>(log: seq<Command<I>>, c: Command<I>, e: EntityId, i: int)
    requires 0 <= i <= |log|
    ensures StaysFrom(log + [c], e, i) <==> StaysFrom(log, e, i) && !Unregisters(c, e)
  {
    var more := log + [c];
    if StaysFrom(more, e, i) {
      forall k | i <= k < |log| ensures !Unregisters(log[k], e) {
        assert more[k] == log[k];
      }
      assert more[|log|] == c;
    }
  }

  lemma OpensBefore<I>(log: seq<Command<I>>, c: Command<I>, e: EntityId, i: int)
    requires 0 <= i < |log|
    ensures Opens(log + [c], e, i) <==> Opens(log, e, i) && !Unregisters(c, e)
  {
    StaysOneMore(log, c, e, i);
    hide StaysFrom, Registers, Unregisters;
    var more := log + [c];
    assert forall k | 0 <= k < |log| :: more[k] == log[k];
  }

  /** Every registration of an absent entity was undone later. */
  ghost predicate AllUndone<I>(log: seq<Command<I>>, e: EntityId, upTo: nat)
    requires upTo <= |log|
  {
    forall k | 0 <= k < upTo && Registers(log[k], e) :: exists m :: k < m < upTo && Unregisters(log[m], e)
  }

  lemma NotBoth<I>(c: Command<I>, e: EntityId)
    ensures !(Registers(c, e) && Unregisters(c, e))
  {
  }

  lemma AllUndoneMore<I>(log: seq<Command<I>>, c: Command<I>, e: EntityId)
    ensures AllUndone(log + [c], e, |log|) <==> AllUndone(log, e, |log|)
    ensures Unregisters(c, e) ==> AllUndone(log + [c], e, |log| + 1)
    ensures !Registers(c, e) && AllUndone(log, e, |log|) ==> AllUndone(log + [c], e, |log| + 1)
  {
    hide Registers, Unregisters;
    var more := log + [c];
    assert forall k | 0 <= k < |log| :: more[k] == log[k] && log[k] == more[k];
    assert more[|log|] == c;
    if AllUndone(log, e, |log|) {
      forall k | 0 <= k < |log| && Registers(more[k], e) ensures exists m :: k < m < |log| && Unregisters(more[m], e) {
        assert Registers(log[k], e);
        var m :| k < m < |log| && Unregisters(log[m], e);
        assert Unregisters(more[m], e);
      }
    }
    if AllUndone(more, e, |log|) {
      forall k | 0 <= k < |log| && Registers(log[k], e) ensures exists m :: k < m < |log| && Unregisters(log[m], e) {
        assert Registers(more[k], e);
        var m :| k < m < |log| && Unregisters(more[m], e);
        assert Unregisters(log[m], e);
      }
    }
    if Unregisters(c, e) {
      assert Unregisters(more[|log|], e);
      NotBoth(c, e);
    } else if !Registers(c, e) && AllUndone(more, e, |log|) {
      forall k | 0 <= k < |log| + 1 && Registers(more[k], e) ensures exists m :: k < m < |log| + 1 && Unregisters(more[m], e) {
        var m :| k < m < |log| && Unregisters(more[m], e);
      }
    }
  }

  lemma {:induction false} AbsentIsUndone<I>(log: seq<Command<I>>, e: EntityId)
    ensures e !in After(log) ==> AllUndone(log, e, |log|)
  {
    if log != [] {
      var n := |log| - 1;
      AbsentIsUndone(log[..n], e);
      assert log == log[..n] + [log[n]];
      AllUndoneMore(log[..n], log[n], e);
      hide AllUndone;
    }
  }

  /** A registration opens exactly if the entity was absent. */
  lemma OpensNow<I>(log: seq<Command<I>>, c: Command<I>, e: EntityId)
    requires Registers(c, e) && (e in After(log) ==> exists k :: Opens(log, e, k))
    ensures Opens(log + [c], e, |log|) <==> e !in After(log)
  {
    AbsentIsUndone(log, e);
    AllUndoneMore(log, c, e);
    StaysOneMore(log, c, e, |log|);
    hide After, Unregisters;
    var more := log + [c];
    assert more[|log|] == c;
    if e in After(log) {
      var k :| Opens(log, e, k);
      assert Registers(more[k], e);
      forall m | k < m < |log| ensures !Unregisters(more[m], e) {
        assert more[m] == log[m];
      }
    }
  }

  ghost predicate ReadsOpening<I>(log: seq<Command<I>>, e: EntityId) {
    && (e in After(log) <==> exists i :: Opens(log, e, i))
    && (forall i | Opens(log, e, i) && e in After(log) :: After(log)[e].id == log[i].id)
  }

  ghost predicate ReadsLatest<I>(log: seq<Command<I>>, e: EntityId) {
    && (e in After(log) <==> exists i :: Latest(log, e, i))
    && (forall i | Latest(log, e, i) && e in After(log) :: After(log)[e].info == log[i].info)
  }

  lemma AppliedAt<I>(log: seq<Command<I>>, c: Command<I>, e: EntityId)
    ensures e in After(log + [c]) <==> Registers(c, e) || (e in After(log) && !Unregisters(c, e))
    ensures e in After(log) && e in After(log + [c]) ==> After(log + [c])[e].id == After(log)[e].id
    ensures e !in After(log) && Registers(c, e) ==> After(log + [c])[e].id == c.id
    ensures e in After(log + [c]) ==> After(log + [c])[e].info == if Registers(c, e) then c.info else After(log)[e].info
  {
    assert (log + [c])[..|log|] == log;
  }

  lemma LatestOneMore<I>(log: seq<Command<I>>, c: Command<I>, e: EntityId, i: int)
    ensures Latest(log + [c], e, i) <==>
              (Latest(log, e, i) && Subject(c) != e) || (i == |log| && Registers(c, e))
  {
    var more := log + [c];
    assert more[|log|] == c;
    assert forall k | 0 <= k < |log| :: more[k] == log[k];
    if i < |log| && Latest(more, e, i) {
      forall k | i < k < |log| ensures Subject(log[k]) != e {
        assert more[k] == log[k];
      }
    }
  }

  lemma {:induction false} LatestIsRead<I>(log: seq<Command<I>>, e: EntityId)
    ensures ReadsLatest(log, e)
  {
    if log != [] {
      var n := |log| - 1;
      var front, c := log[..n], log[n];
      LatestIsRead(front, e);
      assert log == front + [c];
      AppliedAt(front, c, e);
      forall i ensures Latest(log, e, i) <==> (Latest(front, e, i) && Subject(c) != e) || (i == n && Registers(c, e)) {
        LatestOneMore(front, c, e, i);
      }
      assert Latest(log, e, n) <==> Registers(c, e);
      assert forall i | Latest(front, e, i) :: 0 <= i < n;
      hide Latest, After;
    }
  }

  lemma {:induction false} OpeningIsRead<I>(log: seq<Command<I>>, e: EntityId)
    ensures ReadsOpening(log, e)
  {
    if log != [] {
      var n := |log| - 1;
      var front, c := log[..n], log[n];
      OpeningIsRead(front, e);
      assert log == front + [c];
      AppliedAt(front, c, e);
      forall i | 0 <= i < n ensures Opens(log, e, i) <==> Opens(front, e, i) && !Unregisters(c, e) {
        OpensBefore(front, c, e, i);
      }
      if Registers(c, e) {
        OpensNow(front, c, e);
      }
      assert Opens(log, e, n) ==> Registers(c, e);
      assert forall i | Opens(log, e, i) :: 0 <= i <= n;
      assert forall i | Opens(front, e, i) :: 0 <= i < n;
      hide Opens, After;
    }
  }

  /** After any run of commands a map holds exactly the entities whose latest command
      registers them, with the identity of the first registration since the entity was last
      absent and the information of the latest. */
  lemma MapReadsLog<I>(log: seq<Command<I>>, e: EntityId)
    ensures e in After(log) <==> exists i :: Latest(log, e, i)
    ensures e in After(log) <==> exists i :: Opens(log, e, i)
    ensures forall i, j | Opens(log, e, i) && Latest(log, e, j) :: After(log)[e] == Entry(log[i].id, log[j].info)
  {
    OpeningIsRead(log, e);
    LatestIsRead(log, e);
    hide Opens, Latest, After;
  }

  // ---------- Notifications ----------

  function About(events: seq<Event>, e: EntityId): seq<Event> {
    if events == [] then []
    else
      var last := events[|events| - 1];
      About(events[..|events| - 1], e) + (if last.id.entity == e then [last] else [])
  }

  lemma {:induction false} AboutAppend(a: seq<Event>, b: seq<Event>, e: EntityId)
    ensures About(a + b, e) == About(a, e) + About(b, e)
  {
    if b == [] {
      assert a + b == a;
    } else {
      var n := |b| - 1;
      assert (a + b)[..|a + b| - 1] == a + b[..n];
      AboutAppend(a, b[..n], e);
    }
  }

  /** New and deleted in turn, starting with new. */
  predicate Alternates(events: seq<Event>) { forall i | 0 <= i < |events| :: events[i].New? <==> i % 2 == 0 }

  lemma KeysAreEntities<I>(log: seq<Command<I>>, e: EntityId)
    requires e in After(log)
    ensures After(log)[e].id.entity == e
  {
    MapReadsLog(log, e);
    var i :| Opens(log, e, i);
    var j :| Latest(log, e, j);
    assert After(log)[e] == Entry(log[i].id, log[j].info);
  }

  lemma NoticeAbout<I>(log: seq<Command<I>>, c: Command<I>, e: EntityId)
    ensures About(Notice(After(log), c), e)
         == if e !in After(log) && Registers(c, e) then [New(c.id)]
            else if e in After(log) && Unregisters(c, e) then [Deleted(After(log)[e].id)] else []
  {
    if c.Unregister? && c.entity in After(log) {
      KeysAreEntities(log, c.entity);
    }
    hide After;
    var events := Notice(After(log), c);
    assert events != [] ==> events[..|events| - 1] == [];
  }

  /** Appending at most one event, new for an entity that was absent or deleted for one
      that was present. */
  lemma AlternatesMore(events: seq<Event>, more: seq<Event>, before: bool, after: bool)
    requires Alternates(events) && (|events| % 2 == 1 <==> before)
    requires |more| <= 1 && (more == [] <==> before == after) && (more != [] ==> (more[0].New? <==> after))
    ensures Alternates(events + more) && (|events + more| % 2 == 1 <==> after)
  {
  }

  lemma NoticesMore<I>(log: seq<Command<I>>, c: Command<I>, e: EntityId)
    ensures About(Notices(log + [c]), e) == About(Notices(log), e) + About(Notice(After(log), c), e)
  {
    assert (log + [c])[..|log|] == log;
    AboutAppend(Notices(log), Notice(After(log), c), e);
    hide About, After, Notice;
  }

  /** The notifications about one entity are new and deleted in turn, and there is one more
      new than deleted exactly while it is registered. */
  lemma {:induction false} NoticesAlternate<I>(log: seq<Command<I>>, e: EntityId)
    ensures Alternates(About(Notices(log), e))
    ensures |About(Notices(log), e)| % 2 == 1 <==> e in After(log)
  {
    if log != [] {
      var n := |log| - 1;
      var front, c := log[..n], log[n];
      NoticesAlternate(front, e);
      assert log == front + [c];
      NoticesMore(front, c, e);
      NoticeAbout(front, c, e);
      AppliedAt(front, c, e);
      NotBoth(c, e);
      hide About, After, Notice, Notices, Alternates, Registers, Unregisters;
      AlternatesMore(About(Notices(front), e), About(Notice(After(front), c), e), e in After(front), e in After(log));
    }
  }

  // ---------- Notifying after the lock is dropped ----------

  /** One map used by many threads: each changes the map while it has the mutex, and
      delivers its notification at some time after. */
  datatype Shared<I> = Shared(entries: Entries<I>, pending: seq<Event>, delivered: seq<Event>)

  datatype Step<I> = Apply(command: Command<I>) | Deliver(index: nat)

  function Next<I>(s: Shared<I>, step: Step<I>): Option<Shared<I>> {
    match step
    case Apply(c) => Some(s.(entries := Applied(s.entries, c), pending := s.pending + Notice(s.entries, c)))
    case Deliver(i) =>
      if i >= |s.pending| then None
      else Some(s.(pending := s.pending[..i] + s.pending[i + 1..], delivered := s.delivered + [s.pending[i]]))
  }

  function Run<I>(steps: seq<Step<I>>): Option<Shared<I>> {
    if steps == [] then Some(Shared(map[], [], []))
    else
      match Run(steps[..|steps| - 1])
      case None => None
      case Some(s) => Next(s, steps[|steps| - 1])
  }

  /** The commands of a run, in the order in which their threads had the mutex. */
  function Commands<I>(steps: seq<Step<I>>): seq<Command<I>> {
    if steps == [] then []
    else
      var last := steps[|steps| - 1];
      Commands(steps[..|steps| - 1]) + (if last.Apply? then [last.command] else [])
  }

  /** New minus deleted notifications about an entity. */
  function Balance(events: seq<Event>, e: EntityId): int {
    if events == [] then 0
    else
      var last := events[|events| - 1];
      Balance(events[..|events| - 1], e) + (if last.id.entity != e then 0 else if last.New? then 1 else -1)
  }

  lemma {:induction false} BalanceAppend(a: seq<Event>, b: seq<Event>, e: EntityId)
    ensures Balance(a + b, e) == Balance(a, e) + Balance(b, e)
  {
    if b == [] {
      assert a + b == a;
    } else {
      var n := |b| - 1;
      assert (a + b)[..|a + b| - 1] == a + b[..n];
      BalanceAppend(a, b[..n], e);
    }
  }

  lemma NoticeBalance<I>(log: seq<Command<I>>, c: Command<I>, e: EntityId)
    ensures Balance(Notice(After(log), c), e)
         == (if e in After(log + [c]) then 1 else 0) - (if e in After(log) then 1 else 0)
  {
    if c.Unregister? && c.entity in After(log) {
      KeysAreEntities(log, c.entity);
    }
    AppliedAt(log, c, e);
    hide After;
    var events := Notice(After(log), c);
    assert events != [] ==> events[..|events| - 1] == [];
  }

  lemma MoveOne(pending: seq<Event>, delivered: seq<Event>, i: nat, e: EntityId)
    requires i < |pending|
    ensures Balance(pending[..i] + pending[i + 1..], e) + Balance(delivered + [pending[i]], e)
         == Balance(pending, e) + Balance(delivered, e)
  {
    var x := [pending[i]];
    assert pending == pending[..i] + x + pending[i + 1..];
    BalanceAppend(pending[..i] + x, pending[i + 1..], e);
    BalanceAppend(pending[..i], x, e);
    BalanceAppend(pending[..i], pending[i + 1..], e);
    BalanceAppend(delivered, x, e);
    hide Balance;
  }

  function Outstanding<I>(s: Shared<I>, e: EntityId): int { Balance(s.pending, e) + Balance(s.delivered, e) }

  lemma ApplyBalances<I>(s: Shared<I>, log: seq<Command<I>>, c: Command<I>, e: EntityId)
    requires s.entries == After(log)
    ensures (var t := Next(s, Apply(c)).value;
             && t.entries == After(log + [c])
             && Outstanding(t, e) - Outstanding(s, e) == (if e in t.entries then 1 else 0) - (if e in s.entries then 1 else 0))
  {
    NoticeBalance(log, c, e);
    BalanceAppend(s.pending, Notice(s.entries, c), e);
    assert (log + [c])[..|log|] == log;
    hide Balance, Notice, Applied;
  }

  lemma DeliverBalances<I>(s: Shared<I>, i: nat, e: EntityId)
    requires i < |s.pending|
    ensures Outstanding(Next(s, Deliver(i)).value, e) == Outstanding(s, e)
  {
    MoveOne(s.pending, s.delivered, i, e);
    hide Balance;
  }

  lemma NoBalance(e: EntityId)
    ensures Balance([], e) == 0
  {
  }

  lemma CommandsMore<I>(steps: seq<Step<I>>)
    requires steps != []
    ensures (var last, front := steps[|steps| - 1], Commands(steps[..|steps| - 1]);
             Commands(steps) == if last.Apply? then front + [last.command] else front)
  {
  }

  /** In every interleaving, for every entity: the new notifications minus the deleted ones,
      delivered or still to be delivered, are 1 if it is registered and 0 if not. When no
      delivery is outstanding, those delivered match the map. */
  lemma {:induction false} EventsBalance<I>(steps: seq<Step<I>>, e: EntityId)
    requires Run(steps).Some?
    ensures (var s := Run(steps).value;
             && s.entries == After(Commands(steps))
             && Balance(s.pending, e) + Balance(s.delivered, e) == (if e in s.entries then 1 else 0)
             && (s.pending == [] ==> Balance(s.delivered, e) == (if e in s.entries then 1 else 0)))
  {
    if steps != [] {
      var n := |steps| - 1;
      EventsBalance(steps[..n], e);
      var s := Run(steps[..n]).value;
      CommandsMore(steps);
      match steps[n]
      case Apply(c) =>
        ApplyBalances(s, Commands(steps[..n]), c, e);
        hide After, Notice, Applied, Commands, Balance;
      case Deliver(i) =>
        DeliverBalances(s, i, e);
        hide After, Notice, Applied, Commands, Balance;
    }
    NoBalance(e);
    hide After, Commands, Balance;
  }

  /** Deliveries can overtake each other: an entity that is gone may be reported new last. */
  lemma DeliveriesOvertake<I>(id: Identity, info: I)
    ensures (var run := Run([Apply(Register(id, info)), Apply(Unregister(id.entity)), Deliver(1), Deliver(0)]);
             && run.Some? && run.value.pending == [] && id.entity !in run.value.entries
             && run.value.delivered == [Deleted(id), New(id)])
  {
    var a: Step<I>, b: Step<I>, c: Step<I>, d: Step<I> := Apply(Register(id, info)), Apply(Unregister(id.entity)), Deliver(1), Deliver(0);
    assert [a, b, c, d][..3] == [a, b, c] && [a, b, c][..2] == [a, b] && [a, b][..1] == [a];
    var s0: Shared<I> := Shared(map[], [], []);
    var s1 := Next(s0, a).value;
    assert Run([a]) == Some(s1) by {
      assert [a][..0] == [];
    }
    var s2 := Next(s1, b).value;
    assert s2.pending == [New(id), Deleted(id)];
    assert Run([a, b]) == Some(s2);
    var s3 := Next(s2, c).value;
    assert s3.pending == [New(id)] && s3.delivered == [Deleted(id)];
    assert Run([a, b, c]) == Some(s3);
    var s4 := Next(s3, d).value;
    assert s4.pending == [] && s4.delivered == [Deleted(id), New(id)];
    assert Run([a, b, c, d]) == Some(s4);
  }

  // ---------- Tokens ----------

  /** The token of the `n`-th callback registration, counting from 0, over both maps. */
  function TokenAt(n: nat): nat { (n + 1) % TWO64 }

  /** No token is issued twice until the 64-bit counter has gone round. */
  lemma TokensRepeatIff(m: nat, n: nat)
    ensures TokenAt(m) == TokenAt(n) <==> (m - n) % TWO64 == 0
  {
    assert TWO64 > 0;
    var q, r := (m + 1) / TWO64, (n + 1) / TWO64;
    assert m + 1 == q * TWO64 + TokenAt(m) && n + 1 == r * TWO64 + TokenAt(n);
    assert m - n == (q - r) * TWO64 + (TokenAt(m) - TokenAt(n));
  }
}
