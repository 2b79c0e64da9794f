/** Events: an unnamed event counts its signals, a named one in shared memory remembers at
    most one (ecal/core/src/ecal_event.cpp). Every critical section is one step. */
module Events {
  import opened Strings

  datatype Kind = Unnamed | Named

  /** A thread that is not waiting, asleep on the condition variable, or awake and about to
      look at the event again. */
  datatype Waiter = Idle | Asleep(timed: bool) | Awake(timed: bool, expired: bool)

  datatype Mark = Signal | Success

  /** `value` is the counter or the flag. The history: all signals and successful waits in
      order, and how often the counter overflowed. */
  datatype State = State(kind: Kind, value: nat, waiters: seq<Waiter>, marks: seq<Mark>, overflows: nat)

  const TWO32: nat := 0x1_0000_0000

  function Init(kind: Kind, threads: nat): State { State(kind, 0, seq(threads, i => Idle), [], 0) }

  // ---------- Steps ----------

  /** `pick` is the sleeper a signal wakes. A thread calls `wait` with or without a time
      limit, or with a limit of zero. */
  datatype Action = Sets(pick: nat) | Waits(thread: nat, timed: bool) | Tries(thread: nat)
                  | WakesUp(thread: nat) | Expires(thread: nat) | Resumes(thread: nat)

  function Raised(kind: Kind, v: nat): nat { if kind.Unnamed? then (v + 1) % TWO32 else 1 }

  function Taken(s: State): State
    requires s.value > 0
  {
    s.(value := if s.kind.Unnamed? then s.value - 1 else 0, marks := s.marks + [Success])
  }

  function With(s: State, i: nat, w: Waiter): State
    requires i < |s.waiters|
  {
    s.(waiters := s.waiters[i := w])
  }

  predicate NoneAsleep(waiters: seq<Waiter>) { forall i | 0 <= i < |waiters| :: !waiters[i].Asleep? }

  function SetNext(s: State, pick: nat): Option<State> {
    var t := s.(value := Raised(s.kind, s.value), marks := s.marks + [Signal],
                overflows := s.overflows + if s.kind.Unnamed? && s.value + 1 == TWO32 then 1 else 0);
    if NoneAsleep(s.waiters) then Some(t)
    else if pick < |s.waiters| && s.waiters[pick].Asleep? then Some(With(t, pick, Awake(s.waiters[pick].timed, false)))
    else None
  }

  /** A wait whose time is up looks once more at the counter, but not at the flag. */
  function ResumeNext(s: State, i: nat): Option<State>
    requires i < |s.waiters|
  {
    var w := s.waiters[i];
    if !w.Awake? then None
    else if s.value > 0 && (s.kind.Unnamed? || !w.expired) then Some(With(Taken(s), i, Idle))
    else if w.expired then Some(With(s, i, Idle))
    else Some(With(s, i, Asleep(w.timed)))
  }

  function Next(s: State, a: Action): Option<State> {
    match a
    case Sets(pick) => SetNext(s, pick)
    case Waits(i, timed) =>
      if i >= |s.waiters| || !s.waiters[i].Idle? then None
      else if s.value > 0 then Some(Taken(s)) else Some(With(s, i, Asleep(timed)))
    case Tries(i) =>
      if i >= |s.waiters| || !s.waiters[i].Idle? then None
      else if s.value > 0 then Some(Taken(s)) else Some(s)
    case WakesUp(i) =>
      if i < |s.waiters| && s.waiters[i].Asleep? then Some(With(s, i, Awake(s.waiters[i].timed, false))) else None
    case Expires(i) =>
      if i < |s.waiters| && s.waiters[i].Asleep? && s.waiters[i].timed then Some(With(s, i, Awake(true, true))) else None
    case Resumes(i) => if i < |s.waiters| then ResumeNext(s, i) else None
  }

  function Run(s: State, actions: seq<Action>): Option<State> {
    if actions == [] then Some(s)
    else
      var n := |actions| - 1;
      match Run(s, actions[..n])
      case None => None
      case Some(t) => Next(t, actions[n])
  }

  // ---------- Conservation ----------

  function Count(marks: seq<Mark>, mark: Mark): nat {
    if marks == [] then 0 else Count(marks[..|marks| - 1], mark) + if marks[|marks| - 1] == mark then 1 else 0
  }

  /** The history explains the counter. */
  predicate Counted(s: State) {
    s.kind.Unnamed? ==>
      s.value < TWO32 && Count(s.marks, Success) + s.value + s.overflows * TWO32 == Count(s.marks, Signal)
  }

  predicate EndsInSignal(marks: seq<Mark>) { marks != [] && marks[|marks| - 1].Signal? }

  /** Every success directly follows a signal, except for other signals before that. */
  predicate EachAfterSignal(marks: seq<Mark>) {
    forall i | 0 <= i < |marks| && marks[i].Success? :: i > 0 && marks[i - 1].Signal?
  }

  /** The history explains the flag. */
  predicate Flagged(s: State) {
    s.kind.Named? ==>
      && s.value <= 1 && (s.value == 1 <==> EndsInSignal(s.marks)) && EachAfterSignal(s.marks)
      && Count(s.marks, Success) + s.value <= Count(s.marks, Signal)
  }

  lemma CountMore(marks: seq<Mark>, m: Mark, mark: Mark)
    ensures Count(marks + [m], mark) == Count(marks, mark) + if m == mark then 1 else 0
  {
    assert (marks + [m])[..|marks|] == marks;
  }

  lemma SetKeepsCount(s: State, pick: nat)
    requires Counted(s) && Flagged(s) && SetNext(s, pick).Some?
    ensures Counted(SetNext(s, pick).value) && Flagged(SetNext(s, pick).value)
  {
    CountMore(s.marks, Signal, Signal);
    CountMore(s.marks, Signal, Success);
    hide Count;
  }

  lemma TakeKeepsCount(s: State)
    requires Counted(s) && Flagged(s) && s.value > 0
    ensures Counted(Taken(s)) && Flagged(Taken(s))
  {
    CountMore(s.marks, Success, Signal);
    CountMore(s.marks, Success, Success);
    hide Count;
  }

  lemma NextKeepsCount(s: State, a: Action)
    requires Counted(s) && Flagged(s) && Next(s, a).Some?
    ensures Counted(Next(s, a).value) && Flagged(Next(s, a).value)
  {
    if a.Sets? {
      SetKeepsCount(s, a.pick);
    } else if s.value > 0 {
      TakeKeepsCount(s);
    }
    hide Count, EachAfterSignal, EndsInSignal, SetNext;
  }

  lemma {:induction false} RunKeepsCount(kind: Kind, threads: nat, actions: seq<Action>)
    requires Run(Init(kind, threads), actions).Some?
    ensures Counted(Run(Init(kind, threads), actions).value) && Flagged(Run(Init(kind, threads), actions).value)
    ensures Run(Init(kind, threads), actions).value.kind == kind
  {
    if actions != [] {
      var n := |actions| - 1;
      RunKeepsCount(kind, threads, actions[..n]);
      var s := Run(Init(kind, threads), actions[..n]).value;
      NextKeepsCount(s, actions[n]);
      assert Next(s, actions[n]).value.kind == s.kind;
      hide Counted, Flagged, Next;
    }
  }

  /** In every interleaving, the successful waits of an unnamed event and its counter add up
      to the signals, exactly unless the 32-bit counter has overflowed; below that many
      signals it cannot. */
  lemma UnnamedConserves(threads: nat, actions: seq<Action>)
    requires Run(Init(Unnamed, threads), actions).Some?
    ensures (var s := Run(Init(Unnamed, threads), actions).value;
             && Count(s.marks, Success) + s.value + s.overflows * TWO32 == Count(s.marks, Signal)
             && (Count(s.marks, Success) + s.value == Count(s.marks, Signal) <==> s.overflows == 0)
             && (Count(s.marks, Signal) < TWO32 ==> s.overflows == 0))
  {
    RunKeepsCount(Unnamed, threads, actions);
    hide Run, Count;
  }

  /** In every interleaving, the successful waits of a named event and its flag are no more
      than the signals, and between any two successes, as before the first, there is a
      signal. */
  lemma NamedConserves(threads: nat, actions: seq<Action>, i: int, j: int)
    requires Run(Init(Named, threads), actions).Some?
    requires (var marks := Run(Init(Named, threads), actions).value.marks; -1 <= i < j < |marks| && marks[j].Success?)
    requires (var marks := Run(Init(Named, threads), actions).value.marks; i == -1 || marks[i].Success?)
    ensures (var s := Run(Init(Named, threads), actions).value;
             && s.value <= 1 && Count(s.marks, Success) + s.value <= Count(s.marks, Signal)
             && exists k :: i < k < j && s.marks[k].Signal?)
  {
    RunKeepsCount(Named, threads, actions);
    var s := Run(Init(Named, threads), actions).value;
    assert s.marks[j - 1].Signal?;
    hide Run, Count;
  }

  /** What a call of a thread returns in this step, if it returns. */
  function Returned(s: State, a: Action): Option<bool> {
    match a
    case Sets(_) => None
    case WakesUp(_) => None
    case Expires(_) => None
    case Tries(_) => Some(s.value > 0)
    case Waits(_, _) => if s.value > 0 then Some(true) else None
    case Resumes(i) =>
      if i >= |s.waiters| || !s.waiters[i].Awake? then None
      else if s.value > 0 && (s.kind.Unnamed? || !s.waiters[i].expired) then Some(true)
      else if s.waiters[i].expired then Some(false)
      else None
  }

  /** A step consumes a signal exactly if a call succeeds in it; a wait that times out leaves
      the event as it was, a named one even when the flag is set by then. */
  lemma FailureConsumesNothing(s: State, a: Action)
    requires Next(s, a).Some?
    ensures (var t := Next(s, a).value;
             && (t.marks == s.marks + [Success] <==> Returned(s, a) == Some(true))
             && (t.value < s.value && !a.Sets? <==> Returned(s, a) == Some(true))
             && (Returned(s, a) == Some(false) ==> t.value == s.value && t.marks == s.marks))
    ensures Returned(s, a) == Some(false) && s.value > 0 ==> s.kind.Named? && a.Resumes? && s.waiters[a.thread].expired
  {
    hide NoneAsleep;
    assert |s.marks + [Success]| == |s.marks| + 1;
    assert (s.marks + [Signal])[|s.marks|] == Signal && (s.marks + [Success])[|s.marks|] == Success;
  }

  // ---------- What a call may return ----------

  /** A signal raises the event; only the counter's overflow, at 2^32 signals, clears it. */
  lemma SignalRaises(s: State, pick: nat)
    requires Counted(s) && Flagged(s) && Next(s, Sets(pick)).Some?
    ensures (var t := Next(s, Sets(pick)).value;
             && (s.kind.Named? ==> t.value == 1)
             && (s.kind.Unnamed? && s.value < 0xFFFF_FFFF ==> t.value == s.value + 1)
             && t.marks == s.marks + [Signal])
  {
    hide NoneAsleep, Count;
  }

  /** A call on a raised event succeeds at once and takes one signal; on one that is not, a
      call without waiting fails and one with waiting sleeps. */
  lemma CallTakesOrSleeps(s: State, i: nat, timed: bool)
    requires i < |s.waiters| && s.waiters[i].Idle?
    ensures Next(s, Tries(i)).Some? && Next(s, Waits(i, timed)).Some?
    ensures s.value > 0 ==>
              && Returned(s, Tries(i)) == Some(true) && Returned(s, Waits(i, timed)) == Some(true)
              && Next(s, Tries(i)) == Next(s, Waits(i, timed))
              && Next(s, Tries(i)).value.value == (if s.kind.Named? then 0 else s.value - 1)
    ensures s.value == 0 ==>
              && Returned(s, Tries(i)) == Some(false) && Next(s, Tries(i)).value == s
              && Returned(s, Waits(i, timed)) == None && Next(s, Waits(i, timed)).value.waiters[i] == Asleep(timed)
  {
  }

  /** What becomes of a waiter that looks at the event again: it takes a signal if there is one,
      except that a named event's flag is not looked at once the time is up; it fails when the
      time is up, and sleeps on when it is not. */
  lemma WaiterLooksAgain(s: State, i: nat)
    requires i < |s.waiters| && s.waiters[i].Awake?
    ensures s.kind.Named? && s.waiters[i].expired ==> Returned(s, Resumes(i)) == Some(false)
    ensures s.kind.Unnamed? && s.value > 0 ==> Returned(s, Resumes(i)) == Some(true)
    ensures !s.waiters[i].expired && s.value > 0 ==> Returned(s, Resumes(i)) == Some(true)
    ensures s.waiters[i].expired && s.value == 0 ==> Returned(s, Resumes(i)) == Some(false)
    ensures !s.waiters[i].expired && s.value == 0 ==>
              Returned(s, Resumes(i)) == None && Next(s, Resumes(i)) == Some(With(s, i, Asleep(s.waiters[i].timed)))
    ensures Returned(s, Resumes(i)).Some? ==> Next(s, Resumes(i)).value.waiters[i].Idle?
  {
  }

  predicate OnlyTimedExpire(s: State) {
    forall i | 0 <= i < |s.waiters| && s.waiters[i].Awake? && s.waiters[i].expired :: s.waiters[i].timed
  }

  lemma NextKeepsTimed(s: State, a: Action)
    requires OnlyTimedExpire(s) && Next(s, a).Some?
    ensures OnlyTimedExpire(Next(s, a).value)
  {
    hide NoneAsleep;
  }

  lemma {:induction false} RunKeepsTimed(kind: Kind, threads: nat, actions: seq<Action>)
    requires Run(Init(kind, threads), actions).Some?
    ensures OnlyTimedExpire(Run(Init(kind, threads), actions).value)
  {
    if actions != [] {
      var n := |actions| - 1;
      RunKeepsTimed(kind, threads, actions[..n]);
      NextKeepsTimed(Run(Init(kind, threads), actions[..n]).value, actions[n]);
      hide OnlyTimedExpire, Next;
    }
  }

  /** In every interleaving a wait without a time limit never returns false. */
  lemma UntimedNeverFails(kind: Kind, threads: nat, actions: seq<Action>, i: nat)
    requires Run(Init(kind, threads), actions).Some?
    requires (var s := Run(Init(kind, threads), actions).value; i < |s.waiters| && s.waiters[i].Awake? && !s.waiters[i].timed)
    ensures Returned(Run(Init(kind, threads), actions).value, Resumes(i)) != Some(false)
  {
    RunKeepsTimed(kind, threads, actions);
    hide Run;
  }

  /** While a thread waits, it has the time limit its call had. */
  lemma WaitsAsCalled(s: State, a: Action, i: nat)
    requires Next(s, a).Some? && i < |s.waiters| && !s.waiters[i].Idle?
    ensures (var t := Next(s, a).value;
             i < |t.waiters| && (t.waiters[i].Idle? || t.waiters[i].timed == s.waiters[i].timed))
  {
    hide NoneAsleep;
  }

  // ---------- No signal is slept through ----------

  /** Awake waiters that will take a signal if they find one. */
  predicate Ready(kind: Kind, w: Waiter) { w.Awake? && (kind.Unnamed? || !w.expired) }

  function ReadyCount(kind: Kind, waiters: seq<Waiter>): nat {
    if waiters == [] then 0
    else ReadyCount(kind, waiters[..|waiters| - 1]) + if Ready(kind, waiters[|waiters| - 1]) then 1 else 0
  }

  lemma {:induction false} ReadyUpdated(kind: Kind, waiters: seq<Waiter>, i: nat, w: Waiter)
    requires i < |waiters|
    ensures ReadyCount(kind, waiters[i := w])
         == ReadyCount(kind, waiters) + (if Ready(kind, w) then 1 else 0) - (if Ready(kind, waiters[i]) then 1 else 0)
  {
    var n := |waiters| - 1;
    if i < n {
      assert waiters[i := w][..n] == waiters[..n][i := w];
      ReadyUpdated(kind, waiters[..n], i, w);
    } else {
      assert waiters[i := w][..n] == waiters[..n];
    }
  }

  /** While someone sleeps, enough others are awake to take every signal there is. */
  predicate Attended(s: State) {
    (s.kind.Named? ==> s.value <= 1) && (NoneAsleep(s.waiters) || s.value <= ReadyCount(s.kind, s.waiters))
  }

  lemma SetKeepsAttended(s: State, pick: nat)
    requires Attended(s) && SetNext(s, pick).Some?
    ensures Attended(SetNext(s, pick).value)
  {
    if !NoneAsleep(s.waiters) {
      ReadyUpdated(s.kind, s.waiters, pick, Awake(s.waiters[pick].timed, false));
      hide NoneAsleep;
    }
    hide ReadyCount;
  }

  lemma StillAsleep(waiters: seq<Waiter>, i: nat, w: Waiter)
    requires i < |waiters| && !w.Asleep?
    ensures NoneAsleep(waiters) ==> NoneAsleep(waiters[i := w])
  {
  }

  lemma NextKeepsAttended(s: State, a: Action)
    requires Attended(s) && Next(s, a).Some?
    ensures Attended(Next(s, a).value)
  {
    match a
    case Sets(pick) => SetKeepsAttended(s, pick);
    case Waits(i, timed) =>
      ReadyUpdated(s.kind, s.waiters, i, Asleep(timed));
      hide ReadyCount;
    case Tries(i) =>
    case WakesUp(i) =>
      ReadyUpdated(s.kind, s.waiters, i, Awake(s.waiters[i].timed, false));
      hide ReadyCount;
    case Expires(i) =>
      ReadyUpdated(s.kind, s.waiters, i, Awake(true, true));
      StillAsleep(s.waiters, i, Awake(true, true));
      hide ReadyCount, NoneAsleep;
    case Resumes(i) =>
      var w := s.waiters[i];
      ReadyUpdated(s.kind, s.waiters, i, Idle);
      ReadyUpdated(s.kind, s.waiters, i, Asleep(w.timed));
      StillAsleep(s.waiters, i, Idle);
      hide ReadyCount, NoneAsleep;
  }

  /** In every interleaving, while some thread sleeps, at least as many others are awake and
      will take a signal as there are signals to take: no wakeup is lost. */
  lemma {:induction false} NoSignalIsSleptThrough(kind: Kind, threads: nat, actions: seq<Action>)
    requires Run(Init(kind, threads), actions).Some?
    ensures Attended(Run(Init(kind, threads), actions).value)
  {
    if actions != [] {
      var n := |actions| - 1;
      NoSignalIsSleptThrough(kind, threads, actions[..n]);
      NextKeepsAttended(Run(Init(kind, threads), actions[..n]).value, actions[n]);
      hide Attended, Next;
    }
  }

  // ---------- Deadlines ----------

  const SECOND: int := 1_000_000_000

  /** The absolute time up to which a named event is waited for, as a normal `timespec`. */
  method Deadline(sec: int, nsec: int, timeout: int) returns (toSec: int, toNsec: int)
    requires 0 <= nsec < SECOND && timeout > 0
    ensures 0 <= toNsec < SECOND
    ensures toSec * SECOND + toNsec == sec * SECOND + nsec + timeout * 1_000_000
  {
    toSec := sec + timeout / 1000;
    toNsec := nsec + timeout % 1000 * 1_000_000;
    while toNsec >= SECOND
      invariant 0 <= toNsec
      invariant toSec * SECOND + toNsec == sec * SECOND + nsec + timeout * 1_000_000
    {
      toNsec := toNsec - SECOND;
      toSec := toSec + 1;
    }
  }
}
