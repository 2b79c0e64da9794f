/** Starting a process on Linux: the caller, the twice-forked grandchild and, with a
    terminal emulator, the stub it launches agree through a FIFO and a locked file on
    whether `execvp` succeeded (ecal/core/src/ecal_process.cpp, ecal_process_stub.cpp). */
module Handshake {
  import opened Strings

  /** Without or with a terminal emulator. */
  datatype Mode = Direct | Terminal

  /** The caller's next system call. */
  datatype CallerPc =
    | Fork | Reap | OpenFifo | Select | ReadFifo | CloseFifo
    | OpenLock | TakeLock | ReadLock | CloseLock | UnlinkFifo | UnlinkLock | Done

  datatype ChildPc = NotForked | Forking | Exited

  /** The grandchild's next call. In `Announcing` it is the announcer or, with a terminal
      emulator, has launched it. */
  datatype GrandPc = Unborn | ChangeDir | ExecTerminal | OpenPipeForZero | SendZero | InTerminal | Announcing | Gone

  /** The next call of the announcer: the process that locks the file, sends its PID and
      executes the target. `Running` is the target itself. */
  datatype Pc =
    | Absent | CreateLock | Lock | OpenPipe | SendPid | ClosePipe | Exec
    | WriteErrno(errno: nat) | Unlock | Running | Failed | Killed

  datatype Holder = Nobody | Caller | Announcer

  datatype State = State(
    mode: Mode, announcerPid: nat,
    caller: CallerPc, pid: nat, timedOut: bool,
    child: ChildPc, grand: GrandPc, announcer: Pc,
    fifoExists: bool, readerOpen: bool, fifo: seq<nat>,
    lockExists: bool, holder: Holder, lockData: Option<nat>,
    ran: set<nat>)

  /** The FIFO has been made; nothing has been forked. */
  function Init(mode: Mode, announcerPid: nat): State {
    State(mode, announcerPid, Fork, 0, false, NotForked, Unborn, Absent, true, false, [], false, Nobody, None, {})
  }

  // ---------- Steps ----------

  /** One step of one process, with the outcome the kernel chooses. */
  datatype Action =
    | CallerForks(ok: bool) | CallerSteps | CallerTimesOut
    | ChildForks(ok: bool)
    | ChangesDir(ok: bool) | ExecsTerminal(ok: bool) | ReportsZero | SpawnsStub
    | Announces | ExecSucceeds | ExecFails(errno: nat)

  function CallerNext(s: State): Option<State> {
    match s.caller
    case Fork => None
    case Reap => if s.child.Exited? then Some(s.(caller := OpenFifo)) else None
    case OpenFifo => Some(s.(caller := Select, readerOpen := true))
    case Select => if s.fifo != [] then Some(s.(caller := ReadFifo)) else None
    case ReadFifo =>
      if s.fifo != [] then Some(s.(caller := CloseFifo, pid := s.fifo[0], fifo := s.fifo[1..])) else None
    case CloseFifo => Some(s.(caller := if s.pid > 0 then OpenLock else UnlinkFifo, readerOpen := false, fifo := []))
    case OpenLock => Some(s.(caller := if s.lockExists then TakeLock else UnlinkFifo))
    case TakeLock => if s.holder.Nobody? then Some(s.(caller := ReadLock, holder := Caller)) else None
    case ReadLock =>
      Some(s.(caller := CloseLock, pid := if s.lockData.Some? && s.lockData.value != 0 then 0 else s.pid))
    case CloseLock => Some(s.(caller := UnlinkFifo, holder := Nobody))
    case UnlinkFifo => Some(s.(caller := UnlinkLock, fifoExists := false))
    case UnlinkLock => Some(s.(caller := Done, lockExists := false))
    case Done => None
  }

  /** Opening a FIFO for writing waits for a reader; writing without one kills the writer,
      and its lock goes with it. */
  function AnnouncerNext(s: State): Option<State> {
    match s.announcer
    case CreateLock => Some(s.(announcer := Lock, lockExists := true))
    case Lock => if s.holder.Nobody? then Some(s.(announcer := OpenPipe, holder := Announcer)) else None
    case OpenPipe =>
      if !s.fifoExists then Some(s.(announcer := Exec)) else if s.readerOpen then Some(s.(announcer := SendPid)) else None
    case SendPid =>
      if s.readerOpen then Some(s.(announcer := ClosePipe, fifo := s.fifo + [s.announcerPid]))
      else Some(s.(announcer := Killed, holder := Nobody))
    case ClosePipe => Some(s.(announcer := Exec))
    case WriteErrno(e) => Some(s.(announcer := Unlock, lockData := Some(e)))
    case Unlock => Some(s.(announcer := Failed, holder := Nobody))
    case _ => None
  }

  /** A grandchild that could not start the terminal emulator sends 0. */
  function ZeroNext(s: State): Option<State> {
    match s.grand
    case OpenPipeForZero =>
      if !s.fifoExists then Some(s.(grand := Gone)) else if s.readerOpen then Some(s.(grand := SendZero)) else None
    case SendZero => Some(s.(grand := Gone, fifo := if s.readerOpen then s.fifo + [0] else s.fifo))
    case _ => None
  }

  function GrandNext(s: State, a: Action): Option<State> {
    match a
    case ChangesDir(ok) =>
      if !s.grand.ChangeDir? then None
      else if !ok then Some(s.(grand := Gone))
      else if s.mode.Direct? then Some(s.(grand := Announcing, announcer := CreateLock))
      else Some(s.(grand := ExecTerminal))
    case ExecsTerminal(ok) =>
      if s.grand.ExecTerminal? then Some(s.(grand := if ok then InTerminal else OpenPipeForZero)) else None
    case ReportsZero => ZeroNext(s)
    case SpawnsStub =>
      if s.grand.InTerminal? then Some(s.(grand := Announcing, announcer := CreateLock)) else None
    case _ => None
  }

  /** `errno` is positive after a call that failed. */
  function ExecNext(s: State, a: Action): Option<State> {
    match a
    case ExecSucceeds =>
      if s.announcer.Exec? then Some(s.(announcer := Running, holder := Nobody, ran := s.ran + {s.announcerPid})) else None
    case ExecFails(errno) =>
      if s.announcer.Exec? && errno > 0 then Some(s.(announcer := WriteErrno(errno))) else None
    case _ => None
  }

  function ForkNext(s: State, a: Action): Option<State> {
    match a
    case CallerForks(ok) =>
      if !s.caller.Fork? then None
      else if ok then Some(s.(caller := Reap, child := Forking)) else Some(s.(caller := Done))
    case CallerTimesOut =>
      if s.caller.Select? && s.fifo == [] then Some(s.(caller := CloseFifo, timedOut := true)) else None
    case ChildForks(ok) =>
      if s.child.Forking? then Some(s.(child := Exited, grand := if ok then ChangeDir else s.grand)) else None
    case _ => None
  }

  function Next(s: State, a: Action): Option<State> {
    match a
    case CallerForks(_) => ForkNext(s, a)
    case CallerTimesOut => ForkNext(s, a)
    case ChildForks(_) => ForkNext(s, a)
    case CallerSteps => CallerNext(s)
    case Announces => AnnouncerNext(s)
    case ExecSucceeds => ExecNext(s, a)
    case ExecFails(_) => ExecNext(s, a)
    case _ => GrandNext(s, a)
  }

  // ---------- What every step keeps ----------

  predicate HoldsLock(pc: Pc) { pc.OpenPipe? || pc.SendPid? || pc.ClosePipe? || pc.Exec? || pc.WriteErrno? || pc.Unlock? }

  /** The process has sent its PID, or found no one to send it to. */
  predicate Sent(pc: Pc) { pc.ClosePipe? || pc.Exec? || pc.WriteErrno? || pc.Unlock? || pc.Failed? || pc.Running? }

  predicate CallerHolds(pc: CallerPc) { pc.ReadLock? || pc.CloseLock? }

  /** The caller has read what there was to read. */
  predicate Checked(pc: CallerPc) { pc.CloseLock? || pc.UnlinkFifo? || pc.UnlinkLock? || pc.Done? }

  predicate BeforeRead(pc: CallerPc) { pc.Fork? || pc.Reap? || pc.OpenFifo? || pc.Select? || pc.ReadFifo? }

  /** Which processes exist. */
  predicate Lineage(s: State) {
    && (s.caller.Fork? ==> s.child.NotForked?)
    && (s.child.NotForked? ==> s.caller.Fork? || s.caller.Done?)
    && (!s.child.Exited? ==> s.grand.Unborn?)
    && (s.announcer.Absent? <==> !s.grand.Announcing?)
    && (s.mode.Direct? ==> s.grand.Unborn? || s.grand.ChangeDir? || s.grand.Announcing? || s.grand.Gone?)
  }

  /** The lock is where the program counters say, and the lockfile tells what happened. */
  predicate Locks(s: State) {
    && (s.holder.Announcer? <==> HoldsLock(s.announcer))
    && (s.holder.Caller? <==> CallerHolds(s.caller))
    && (s.announcer.WriteErrno? ==> s.announcer.errno > 0)
    && (s.lockData.Some? <==> s.announcer.Unlock? || s.announcer.Failed?)
    && (s.lockData.Some? ==> s.lockData.value > 0)
    && s.ran == (if s.announcer.Running? then {s.announcerPid} else {})
    && (!s.caller.Done? && (s.announcer.Lock? || HoldsLock(s.announcer) || Sent(s.announcer)) ==> s.lockExists)
  }

  /** The grandchild ended without starting the terminal emulator. */
  predicate NoTerminal(s: State) { s.mode.Terminal? && s.grand.Gone? }

  /** A message tells the truth about its sender. */
  predicate Truthful(s: State, p: nat) {
    if p > 0 then p == s.announcerPid && Sent(s.announcer) else NoTerminal(s)
  }

  predicate Messages(s: State) {
    && (s.readerOpen <==> s.caller.Select? || s.caller.ReadFifo? || s.caller.CloseFifo?)
    && (forall i | 0 <= i < |s.fifo| :: Truthful(s, s.fifo[i]))
    && (s.caller.ReadFifo? ==> s.fifo != [])
    && (s.timedOut ==> s.pid == 0 && !BeforeRead(s.caller))
    && (BeforeRead(s.caller) ==> s.pid == 0)
    && (s.pid > 0 ==> Truthful(s, s.pid))
    && (s.caller.OpenLock? || s.caller.TakeLock? || s.caller.ReadLock? ==> s.pid > 0)
  }

  /** The target does not run and no step leads to it. */
  predicate NeverRuns(s: State) { s.child.NotForked? || NoTerminal(s) || s.announcer.Unlock? || s.announcer.Failed? }

  /** What the caller knows once it has checked. */
  predicate Verdict(s: State) {
    && (s.caller.CloseFifo? && s.pid == 0 && !s.timedOut ==> NoTerminal(s))
    && (Checked(s.caller) && s.pid > 0 ==> s.announcer.Running?)
    && (Checked(s.caller) && s.pid == 0 && !s.timedOut ==> NeverRuns(s))
  }

  predicate Inv(s: State) { s.announcerPid > 0 && Lineage(s) && Locks(s) && Messages(s) && Verdict(s) }

  /** The caller's steps leave the other processes alone. */
  lemma CallerAlone(s: State)
    requires CallerNext(s).Some?
    ensures (var r := CallerNext(s).value;
             && r.mode == s.mode && r.announcerPid == s.announcerPid && r.child == s.child
             && r.grand == s.grand && r.announcer == s.announcer)
  {
  }

  lemma CallerUnderWay(s: State)
    requires CallerNext(s).Some?
    ensures !CallerNext(s).value.caller.Fork? && !s.caller.Fork? && !s.caller.Done?
  {
  }

  lemma CallerKeepsLineage(s: State)
    requires Lineage(s) && CallerNext(s).Some?
    ensures Lineage(CallerNext(s).value)
  {
    CallerAlone(s);
    CallerUnderWay(s);
    hide CallerNext;
  }

  lemma CallerKeepsLocks(s: State)
    requires Lineage(s) && Locks(s) && Messages(s) && CallerNext(s).Some?
    ensures Locks(CallerNext(s).value)
  {
  }

  lemma CallerKeepsTruth(s: State, p: nat)
    requires CallerNext(s).Some?
    ensures Truthful(CallerNext(s).value, p) <==> Truthful(s, p)
  {
    hide CallerNext;
    CallerAlone(s);
  }

  lemma CallerKeepsMessages(s: State)
    requires Inv(s) && CallerNext(s).Some?
    ensures Messages(CallerNext(s).value)
  {
    hide Verdict, Lineage, Locks, Truthful;
    forall p: nat ensures Truthful(CallerNext(s).value, p) <==> Truthful(s, p) {
      CallerKeepsTruth(s, p);
    }
  }

  lemma CallerKeepsVerdict(s: State)
    requires Inv(s) && CallerNext(s).Some?
    ensures Verdict(CallerNext(s).value)
  {
  }

  lemma CallerKeeps(s: State)
    requires Inv(s) && CallerNext(s).Some?
    ensures Inv(CallerNext(s).value)
  {
    CallerAlone(s);
    CallerKeepsLineage(s);
    CallerKeepsLocks(s);
    CallerKeepsMessages(s);
    CallerKeepsVerdict(s);
    hide CallerNext, Lineage, Locks, Messages, Verdict;
  }

  lemma AnnouncerKeepsLineage(s: State)
    requires Lineage(s) && AnnouncerNext(s).Some?
    ensures Lineage(AnnouncerNext(s).value)
  {
  }

  lemma AnnouncerKeepsLocks(s: State)
    requires Lineage(s) && Locks(s) && Messages(s) && AnnouncerNext(s).Some?
    ensures Locks(AnnouncerNext(s).value)
  {
  }

  lemma AnnouncerKeepsTruth(s: State, p: nat)
    requires AnnouncerNext(s).Some?
    ensures Truthful(s, p) ==> Truthful(AnnouncerNext(s).value, p)
    ensures s.announcer.SendPid? && s.readerOpen && s.announcerPid > 0 ==> Truthful(AnnouncerNext(s).value, s.announcerPid)
  {
  }

  lemma AnnouncerKeepsMessages(s: State)
    requires Inv(s) && AnnouncerNext(s).Some?
    ensures Messages(AnnouncerNext(s).value)
  {
    hide Verdict, Lineage, Locks, Truthful;
    forall p: nat
      ensures Truthful(s, p) ==> Truthful(AnnouncerNext(s).value, p)
      ensures s.announcer.SendPid? && s.readerOpen ==> Truthful(AnnouncerNext(s).value, s.announcerPid)
    {
      AnnouncerKeepsTruth(s, p);
    }
  }

  lemma AnnouncerKeepsVerdict(s: State)
    requires Inv(s) && AnnouncerNext(s).Some?
    ensures Verdict(AnnouncerNext(s).value)
  {
  }

  lemma AnnouncerKeeps(s: State)
    requires Inv(s) && AnnouncerNext(s).Some?
    ensures Inv(AnnouncerNext(s).value)
  {
    AnnouncerKeepsLineage(s);
    AnnouncerKeepsLocks(s);
    AnnouncerKeepsMessages(s);
    AnnouncerKeepsVerdict(s);
    assert AnnouncerNext(s).value.announcerPid == s.announcerPid;
    hide AnnouncerNext, Lineage, Locks, Messages, Verdict;
  }

  lemma ZeroKeeps(s: State)
    requires Inv(s) && ZeroNext(s).Some?
    ensures Inv(ZeroNext(s).value)
  {
  }

  lemma GrandKeeps(s: State, a: Action)
    requires Inv(s) && GrandNext(s, a).Some?
    ensures Inv(GrandNext(s, a).value)
  {
    hide ZeroNext;
    if a.ReportsZero? {
      ZeroKeeps(s);
    }
  }

  lemma ExecKeeps(s: State, a: Action)
    requires Inv(s) && ExecNext(s, a).Some?
    ensures Inv(ExecNext(s, a).value)
  {
  }

  lemma ForkKeeps(s: State, a: Action)
    requires Inv(s) && ForkNext(s, a).Some?
    ensures Inv(ForkNext(s, a).value)
  {
  }

  lemma NextKeeps(s: State, a: Action)
    requires Inv(s) && Next(s, a).Some?
    ensures Inv(Next(s, a).value)
  {
    hide CallerNext, AnnouncerNext, GrandNext, ExecNext, ForkNext, Inv;
    match a
    case CallerForks(_) => ForkKeeps(s, a);
    case CallerTimesOut => ForkKeeps(s, a);
    case ChildForks(_) => ForkKeeps(s, a);
    case CallerSteps => CallerKeeps(s);
    case Announces => AnnouncerKeeps(s);
    case ExecSucceeds => ExecKeeps(s, a);
    case ExecFails(_) => ExecKeeps(s, a);
    case _ => GrandKeeps(s, a);
  }

  // ---------- Runs ----------

  /** The state after some steps in any order, if each is possible when taken. */
  function Run(s: State, actions: seq<Action>): Option<State> {
    if actions == [] then Some(s)
    else
      var n := |actions| - 1;
      match Run(s, actions[..n])
      case None => None
      case Some(t) => Next(t, actions[n])
  }

  lemma InitHolds(mode: Mode, pid: nat)
    requires pid > 0
    ensures Inv(Init(mode, pid))
  {
  }

  lemma {:induction false} RunKeeps(s: State, actions: seq<Action>)
    requires Inv(s) && Run(s, actions).Some?
    ensures Inv(Run(s, actions).value)
  {
    hide Inv, Next;
    if actions != [] {
      var n := |actions| - 1;
      RunKeeps(s, actions[..n]);
      NextKeeps(Run(s, actions[..n]).value, actions[n]);
    }
  }

  lemma ReturnIsFinal(s: State, a: Action)
    requires s.caller.Done? && Next(s, a).Some?
    ensures (var r := Next(s, a).value; r.caller.Done? && r.pid == s.pid && r.timedOut == s.timedOut && r.announcerPid == s.announcerPid)
  {
  }

  lemma {:induction false} ReturnStays(s: State, actions: seq<Action>)
    requires s.caller.Done? && Run(s, actions).Some?
    ensures (var r := Run(s, actions).value;
             r.caller.Done? && r.pid == s.pid && r.timedOut == s.timedOut && r.announcerPid == s.announcerPid)
  {
    hide Next;
    if actions != [] {
      var n := |actions| - 1;
      ReturnStays(s, actions[..n]);
      ReturnIsFinal(Run(s, actions[..n]).value, actions[n]);
    }
  }

  /** In every interleaving: a positive result is the PID of the one process in which the
      target had already been executed when `StartProcess` returned; without a timeout, a
      result of 0 means that the target never runs, not even later. */
  lemma ResultIsTruthful(mode: Mode, announcerPid: nat, actions: seq<Action>, later: seq<Action>)
    requires announcerPid > 0
    requires Run(Init(mode, announcerPid), actions).Some?
    requires Run(Init(mode, announcerPid), actions).value.caller.Done?
    requires Run(Run(Init(mode, announcerPid), actions).value, later).Some?
    ensures (var s := Run(Init(mode, announcerPid), actions).value;
             var t := Run(s, later).value;
             && (s.pid > 0 ==> s.pid == s.announcerPid && s.ran == {s.pid} && t.ran == {s.pid})
             && (s.pid == 0 && !s.timedOut ==> t.ran == {}))
  {
    InitHolds(mode, announcerPid);
    RunKeeps(Init(mode, announcerPid), actions);
    var s := Run(Init(mode, announcerPid), actions).value;
    RunKeeps(s, later);
    ReturnStays(s, later);
    hide Next, Run, Init;
  }

  // ---------- Without a timeout ----------

  lemma OnlyTheClockTimesOut(s: State, a: Action)
    requires Next(s, a).Some? && !a.CallerTimesOut?
    ensures Next(s, a).value.timedOut == s.timedOut
  {
  }

  lemma TimingOutIsFinal(s: State)
    requires Next(s, CallerTimesOut).Some?
    ensures Next(s, CallerTimesOut).value.timedOut
  {
  }

  /** The flag is set by the clock and by nothing else. */
  lemma {:induction false} TimedOutIff(s: State, actions: seq<Action>)
    requires Run(s, actions).Some? && !s.timedOut
    ensures Run(s, actions).value.timedOut <==> CallerTimesOut in actions
  {
    hide Next;
    if actions != [] {
      var n := |actions| - 1;
      TimedOutIff(s, actions[..n]);
      assert actions == actions[..n] + [actions[n]];
      if actions[n].CallerTimesOut? {
        TimingOutIsFinal(Run(s, actions[..n]).value);
      } else {
        OnlyTheClockTimesOut(Run(s, actions[..n]).value, actions[n]);
      }
    }
  }

  lemma RunNothing(s: State)
    ensures Run(s, []) == Some(s)
  {
  }

  lemma NextKeepsPid(s: State, a: Action)
    requires Next(s, a).Some?
    ensures Next(s, a).value.announcerPid == s.announcerPid
  {
  }

  lemma {:induction false} PidStays(s: State, actions: seq<Action>)
    requires Run(s, actions).Some?
    ensures Run(s, actions).value.announcerPid == s.announcerPid
  {
    hide Next;
    if actions != [] {
      PidStays(s, actions[..|actions| - 1]);
      NextKeepsPid(Run(s, actions[..|actions| - 1]).value, actions[|actions| - 1]);
    }
  }

  /** In every interleaving in which the caller's `select` does not time out, `StartProcess`
      returns the PID of the process that runs the target if one does, and 0 if none ever
      will. */
  lemma ReportsWhatRuns(mode: Mode, announcerPid: nat, actions: seq<Action>, later: seq<Action>)
    requires announcerPid > 0 && CallerTimesOut !in actions
    requires Run(Init(mode, announcerPid), actions).Some?
    requires Run(Init(mode, announcerPid), actions).value.caller.Done?
    requires Run(Run(Init(mode, announcerPid), actions).value, later).Some?
    ensures (var s := Run(Init(mode, announcerPid), actions).value;
             var t := Run(s, later).value;
             && !s.timedOut && s.ran == t.ran && t.ran <= {announcerPid}
             && s.pid == if announcerPid in t.ran then announcerPid else 0)
  {
    TimedOutIff(Init(mode, announcerPid), actions);
    ResultIsTruthful(mode, announcerPid, actions, later);
    ResultIsTruthful(mode, announcerPid, actions, []);
    PidStays(Init(mode, announcerPid), actions);
    hide Next, Run, Inv;
    assert Run(Run(Init(mode, announcerPid), actions).value, []) == Some(Run(Init(mode, announcerPid), actions).value) by {
      RunNothing(Run(Init(mode, announcerPid), actions).value);
    }
  }

  // ---------- Runs that succeed ----------

  /** One more step. */
  lemma Then(start: State, actions: seq<Action>, s: State, a: Action)
    requires Run(start, actions) == Some(s)
    ensures Run(start, actions + [a]) == Next(s, a)
  {
    assert (actions + [a])[..|actions|] == actions;
  }

  lemma {:induction false} RunAppend(s: State, a: seq<Action>, b: seq<Action>)
    requires Run(s, a).Some?
    ensures Run(s, a + b) == Run(Run(s, a).value, b)
    decreases |b|
  {
    if b == [] {
      assert a + b == a;
    } else {
      var n := |b| - 1;
      assert (a + b)[..|a + b| - 1] == a + b[..n];
      RunAppend(s, a, b[..n]);
    }
  }

  /** Up to the announcer: directly, or through the terminal emulator and the stub. */
  function Forks(mode: Mode): seq<Action> {
    if mode.Direct? then [CallerForks(true), ChildForks(true), ChangesDir(true)]
    else [CallerForks(true), ChildForks(true), ChangesDir(true), ExecsTerminal(true), SpawnsStub]
  }

  /** The announcer is about to begin, and the caller to wait. */
  function Begun(mode: Mode, pid: nat): State {
    Init(mode, pid).(caller := Reap, child := Exited, grand := Announcing, announcer := CreateLock)
  }

  lemma ForksBegin(mode: Mode, pid: nat)
    ensures Run(Init(mode, pid), Forks(mode)) == Some(Begun(mode, pid))
  {
    hide Run;
    var s := Init(mode, pid);
    RunNothing(s);
    Then(s, [], s, CallerForks(true));
    var s1 := s.(caller := Reap, child := Forking);
    Then(s, [] + [CallerForks(true)], s1, ChildForks(true));
    var s2 := s1.(child := Exited, grand := ChangeDir);
    Then(s, [] + [CallerForks(true)] + [ChildForks(true)], s2, ChangesDir(true));
    var three := [CallerForks(true), ChildForks(true), ChangesDir(true)];
    assert [] + [CallerForks(true)] + [ChildForks(true)] + [ChangesDir(true)] == three;
    if mode.Terminal? {
      var s3 := s2.(grand := ExecTerminal);
      Then(s, three, s3, ExecsTerminal(true));
      Then(s, three + [ExecsTerminal(true)], s3.(grand := InTerminal), SpawnsStub);
      assert three + [ExecsTerminal(true)] + [SpawnsStub] == Forks(mode);
    }
  }

  const ANNOUNCES: seq<Action> := [CallerSteps, CallerSteps, Announces, Announces, Announces, Announces, Announces]

  /** The caller has the FIFO open, and the PID is in it. */
  function Announced(mode: Mode, pid: nat): State {
    Begun(mode, pid).(caller := Select, readerOpen := true, announcer := Exec, lockExists := true, holder := Announcer, fifo := [pid])
  }

  lemma AnnouncerSends(mode: Mode, pid: nat)
    ensures Run(Begun(mode, pid), ANNOUNCES) == Some(Announced(mode, pid))
  {
    hide Run;
    var s, c, a := Begun(mode, pid), CallerSteps, Announces;
    RunNothing(s);
    Then(s, [], s, c);
    Then(s, [] + [c], s.(caller := OpenFifo), c);
    var s2 := s.(caller := Select, readerOpen := true);
    Then(s, [] + [c] + [c], s2, a);
    Then(s, [] + [c] + [c] + [a], s2.(announcer := Lock, lockExists := true), a);
    var s4 := s2.(announcer := OpenPipe, lockExists := true, holder := Announcer);
    assert s4.fifo + [pid] == [pid];
    Then(s, [] + [c] + [c] + [a] + [a], s4, a);
    Then(s, [] + [c] + [c] + [a] + [a] + [a], s4.(announcer := SendPid), a);
    Then(s, [] + [c] + [c] + [a] + [a] + [a] + [a], s4.(announcer := ClosePipe, fifo := [pid]), a);
    assert [] + [c] + [c] + [a] + [a] + [a] + [a] + [a] == ANNOUNCES;
  }

  const READS: seq<Action> := [CallerSteps, CallerSteps, CallerSteps, CallerSteps, ExecSucceeds]

  /** The caller knows the PID and waits for the lock, which the executed target has not. */
  function Executed(mode: Mode, pid: nat): State {
    Announced(mode, pid).(caller := TakeLock, readerOpen := false, fifo := [], pid := pid,
                          announcer := Running, holder := Nobody, ran := {pid})
  }

  lemma CallerReads(mode: Mode, pid: nat)
    requires pid > 0
    ensures Run(Announced(mode, pid), READS) == Some(Executed(mode, pid))
  {
    hide Run;
    var s, c := Announced(mode, pid), CallerSteps;
    assert s.fifo[1..] == [] && {} + {pid} == {pid};
    RunNothing(s);
    Then(s, [], s, c);
    Then(s, [] + [c], s.(caller := ReadFifo), c);
    Then(s, [] + [c] + [c], s.(caller := CloseFifo, pid := pid, fifo := []), c);
    Then(s, [] + [c] + [c] + [c], s.(caller := OpenLock, pid := pid, fifo := [], readerOpen := false), c);
    var s4 := s.(caller := TakeLock, pid := pid, fifo := [], readerOpen := false);
    Then(s, [] + [c] + [c] + [c] + [c], s4, ExecSucceeds);
    assert [] + [c] + [c] + [c] + [c] + [ExecSucceeds] == READS;
  }

  const CHECKS: seq<Action> := [CallerSteps, CallerSteps, CallerSteps, CallerSteps, CallerSteps]

  lemma CallerChecks(mode: Mode, pid: nat)
    ensures Run(Executed(mode, pid), CHECKS) == Some(Executed(mode, pid).(caller := Done, fifoExists := false, lockExists := false))
  {
    hide Run;
    var s, c := Executed(mode, pid), CallerSteps;
    RunNothing(s);
    Then(s, [], s, c);
    Then(s, [] + [c], s.(caller := ReadLock, holder := Caller), c);
    Then(s, [] + [c] + [c], s.(caller := CloseLock, holder := Caller), c);
    Then(s, [] + [c] + [c] + [c], s.(caller := UnlinkFifo), c);
    Then(s, [] + [c] + [c] + [c] + [c], s.(caller := UnlinkLock, fifoExists := false), c);
    assert [] + [c] + [c] + [c] + [c] + [c] == CHECKS;
  }

  /** A run without a timeout, in each mode, in which the target is executed and its PID
      returned. */
  lemma StartSucceeds(mode: Mode, announcerPid: nat)
    requires announcerPid > 0
    ensures (var actions := Forks(mode) + ANNOUNCES + READS + CHECKS;
             && CallerTimesOut !in actions
             && Run(Init(mode, announcerPid), actions).Some?
             && (var s := Run(Init(mode, announcerPid), actions).value;
                 s.caller.Done? && s.pid == announcerPid && s.ran == {announcerPid} && !s.fifoExists && !s.lockExists))
  {
    ForksBegin(mode, announcerPid);
    AnnouncerSends(mode, announcerPid);
    CallerReads(mode, announcerPid);
    CallerChecks(mode, announcerPid);
    var start := Init(mode, announcerPid);
    hide Run;
    RunAppend(start, Forks(mode), ANNOUNCES);
    RunAppend(start, Forks(mode) + ANNOUNCES, READS);
    RunAppend(start, Forks(mode) + ANNOUNCES + READS, CHECKS);
  }

  // ---------- Runs that fail ----------

  /** The terminal emulator cannot be started: the grandchild says so. */
  const NO_TERMINAL: seq<Action> :=
    [CallerForks(true), ChildForks(true), ChangesDir(true), ExecsTerminal(false), CallerSteps, CallerSteps]

  function Hopeless(pid: nat): State {
    Init(Terminal, pid).(caller := Select, child := Exited, grand := OpenPipeForZero, readerOpen := true)
  }

  lemma TerminalIsMissing(pid: nat)
    ensures Run(Init(Terminal, pid), NO_TERMINAL) == Some(Hopeless(pid))
  {
    hide Run;
    var s := Init(Terminal, pid);
    RunNothing(s);
    Then(s, [], s, CallerForks(true));
    Then(s, [] + [CallerForks(true)], s.(caller := Reap, child := Forking), ChildForks(true));
    var s2 := s.(caller := Reap, child := Exited, grand := ChangeDir);
    var three := [] + [CallerForks(true)] + [ChildForks(true)] + [ChangesDir(true)];
    Then(s, [] + [CallerForks(true)] + [ChildForks(true)], s2, ChangesDir(true));
    Then(s, three, s2.(grand := ExecTerminal), ExecsTerminal(false));
    var s4 := s2.(grand := OpenPipeForZero);
    Then(s, three + [ExecsTerminal(false)], s4, CallerSteps);
    Then(s, three + [ExecsTerminal(false)] + [CallerSteps], s4.(caller := OpenFifo), CallerSteps);
    assert three + [ExecsTerminal(false)] + [CallerSteps] + [CallerSteps] == NO_TERMINAL;
  }

  const GIVES_UP: seq<Action> := [ReportsZero, ReportsZero, CallerSteps, CallerSteps, CallerSteps, CallerSteps, CallerSteps]

  lemma ZeroIsRead(pid: nat)
    ensures Run(Hopeless(pid), GIVES_UP) == Some(Hopeless(pid).(caller := Done, grand := Gone, readerOpen := false, fifoExists := false))
  {
    hide Run;
    var s, c, z := Hopeless(pid), CallerSteps, ReportsZero;
    RunNothing(s);
    Then(s, [], s, z);
    Then(s, [] + [z], s.(grand := SendZero), z);
    var s2 := s.(grand := Gone, fifo := [0]);
    assert s.fifo + [0] == [0] && s2.fifo[1..] == [];
    Then(s, [] + [z] + [z], s2, c);
    Then(s, [] + [z] + [z] + [c], s2.(caller := ReadFifo), c);
    var s4 := s.(grand := Gone, caller := CloseFifo);
    Then(s, [] + [z] + [z] + [c] + [c], s4, c);
    Then(s, [] + [z] + [z] + [c] + [c] + [c], s4.(caller := UnlinkFifo, readerOpen := false), c);
    Then(s, [] + [z] + [z] + [c] + [c] + [c] + [c], s4.(caller := UnlinkLock, readerOpen := false, fifoExists := false), c);
    assert [] + [z] + [z] + [c] + [c] + [c] + [c] + [c] == GIVES_UP;
  }

  /** The caller need not wait for the clock to learn that there is no terminal emulator. */
  lemma MissingTerminalIsReported(announcerPid: nat)
    requires announcerPid > 0
    ensures (var actions := NO_TERMINAL + GIVES_UP;
             && CallerTimesOut !in actions
             && Run(Init(Terminal, announcerPid), actions).Some?
             && (var s := Run(Init(Terminal, announcerPid), actions).value; s.caller.Done? && s.pid == 0))
  {
    TerminalIsMissing(announcerPid);
    ZeroIsRead(announcerPid);
    hide Run;
    RunAppend(Init(Terminal, announcerPid), NO_TERMINAL, GIVES_UP);
  }

  /** The target cannot be executed: the announcer writes why into the lockfile. */
  function Fails(errno: nat): seq<Action> {
    [CallerSteps, CallerSteps, CallerSteps, CallerSteps, ExecFails(errno), Announces, Announces]
  }

  lemma ErrnoIsWritten(mode: Mode, pid: nat, errno: nat)
    requires pid > 0 && errno > 0
    ensures Run(Announced(mode, pid), Fails(errno))
         == Some(Announced(mode, pid).(caller := TakeLock, readerOpen := false, fifo := [], pid := pid,
                                       announcer := Failed, holder := Nobody, lockData := Some(errno)))
  {
    hide Run;
    var s, c, f, a := Announced(mode, pid), CallerSteps, ExecFails(errno), Announces;
    assert s.fifo[1..] == [];
    RunNothing(s);
    Then(s, [], s, c);
    Then(s, [] + [c], s.(caller := ReadFifo), c);
    Then(s, [] + [c] + [c], s.(caller := CloseFifo, pid := pid, fifo := []), c);
    Then(s, [] + [c] + [c] + [c], s.(caller := OpenLock, pid := pid, fifo := [], readerOpen := false), c);
    var s4 := s.(caller := TakeLock, pid := pid, fifo := [], readerOpen := false);
    Then(s, [] + [c] + [c] + [c] + [c], s4, f);
    Then(s, [] + [c] + [c] + [c] + [c] + [f], s4.(announcer := WriteErrno(errno)), a);
    Then(s, [] + [c] + [c] + [c] + [c] + [f] + [a], s4.(announcer := Unlock, lockData := Some(errno)), a);
    assert [] + [c] + [c] + [c] + [c] + [f] + [a] + [a] == Fails(errno);
  }

  lemma ErrnoIsRead(s: State)
    requires s.caller.TakeLock? && s.holder.Nobody? && s.lockData.Some? && s.lockData.value > 0
    ensures Run(s, CHECKS) == Some(s.(caller := Done, pid := 0, fifoExists := false, lockExists := false))
  {
    hide Run;
    var c := CallerSteps;
    RunNothing(s);
    Then(s, [], s, c);
    Then(s, [] + [c], s.(caller := ReadLock, holder := Caller), c);
    Then(s, [] + [c] + [c], s.(caller := CloseLock, holder := Caller, pid := 0), c);
    Then(s, [] + [c] + [c] + [c], s.(caller := UnlinkFifo, pid := 0), c);
    Then(s, [] + [c] + [c] + [c] + [c], s.(caller := UnlinkLock, fifoExists := false, pid := 0), c);
    assert [] + [c] + [c] + [c] + [c] + [c] == CHECKS;
  }

  /** A run without a timeout in which `execvp` fails, in each mode and with any error, and 0 is
      returned. */
  lemma FailedExecIsReported(mode: Mode, announcerPid: nat, errno: nat)
    requires announcerPid > 0 && errno > 0
    ensures (var actions := Forks(mode) + ANNOUNCES + Fails(errno) + CHECKS;
             && CallerTimesOut !in actions
             && Run(Init(mode, announcerPid), actions).Some?
             && (var s := Run(Init(mode, announcerPid), actions).value; s.caller.Done? && s.pid == 0 && s.ran == {}))
  {
    ForksBegin(mode, announcerPid);
    AnnouncerSends(mode, announcerPid);
    ErrnoIsWritten(mode, announcerPid, errno);
    var start := Init(mode, announcerPid);
    RunAppend(start, Forks(mode), ANNOUNCES);
    RunAppend(start, Forks(mode) + ANNOUNCES, Fails(errno));
    hide Run;
    var s := Run(start, Forks(mode) + ANNOUNCES + Fails(errno)).value;
    ErrnoIsRead(s);
    RunAppend(start, Forks(mode) + ANNOUNCES + Fails(errno), CHECKS);
  }

  /** A fork or a change of the directory has failed, so that there is and will be no
      announcer. */
  predicate Doomed(s: State) {
    s.announcer.Absent? && ((s.caller.Done? && s.child.NotForked?) || (s.child.Exited? && s.grand.Unborn?) || s.grand.Gone?)
  }

  predicate Fatal(a: Action) { a == CallerForks(false) || a == ChildForks(false) || a == ChangesDir(false) }

  lemma NextDooms(s: State, a: Action)
    requires Inv(s) && (Doomed(s) || Fatal(a)) && Next(s, a).Some?
    ensures Doomed(Next(s, a).value)
  {
    hide Messages, Verdict, Locks;
  }

  lemma DoomedReturnsNothing(s: State)
    requires Inv(s) && Doomed(s)
    ensures s.ran == {} && (s.caller.Done? ==> s.pid == 0)
  {
  }

  /** After a failed fork or a failed change of the directory the target never runs, and 0 is
      returned. */
  lemma {:induction false} FailureIsFatal(mode: Mode, announcerPid: nat, actions: seq<Action>)
    requires announcerPid > 0 && Run(Init(mode, announcerPid), actions).Some?
    requires exists a | a in actions :: Fatal(a)
    ensures (var s := Run(Init(mode, announcerPid), actions).value; Doomed(s) && s.ran == {} && (s.caller.Done? ==> s.pid == 0))
  {
    hide Next, Inv, Doomed, Fatal, Init;
    var n := |actions| - 1;
    InitHolds(mode, announcerPid);
    RunKeeps(Init(mode, announcerPid), actions);
    RunKeeps(Init(mode, announcerPid), actions[..n]);
    assert actions == actions[..n] + [actions[n]];
    if !Fatal(actions[n]) {
      FailureIsFatal(mode, announcerPid, actions[..n]);
    }
    NextDooms(Run(Init(mode, announcerPid), actions[..n]).value, actions[n]);
    DoomedReturnsNothing(Run(Init(mode, announcerPid), actions).value);
  }

  // ---------- After a timeout ----------

  /** `select` does not time out while there is something to read. */
  lemma ReadyIsNoTimeout(s: State)
    requires s.fifo != [] || !s.caller.Select?
    ensures Next(s, CallerTimesOut).None?
  {
  }

  lemma KilledStays(s: State, a: Action)
    requires Inv(s) && s.announcer.Killed? && Next(s, a).Some?
    ensures Next(s, a).value.announcer.Killed?
  {
    hide Messages, Verdict, Locks;
  }

  lemma {:induction false} KilledIsFinal(s: State, actions: seq<Action>)
    requires Inv(s) && s.announcer.Killed? && Run(s, actions).Some?
    ensures Run(s, actions).value.announcer.Killed?
  {
    if actions != [] {
      var n := |actions| - 1;
      hide Next, Inv;
      KilledIsFinal(s, actions[..n]);
      RunKeeps(s, actions[..n]);
      KilledStays(Run(s, actions[..n]).value, actions[n]);
    }
  }

  /** An announcer that has no reader left is killed, and the target never runs. */
  lemma NoReaderNoTarget(s: State, actions: seq<Action>)
    requires Inv(s) && s.announcer.SendPid? && !s.readerOpen
    requires Next(s, Announces).Some? && Run(Next(s, Announces).value, actions).Some?
    ensures Next(s, Announces).value.announcer.Killed?
    ensures Run(Next(s, Announces).value, actions).value.ran == {}
  {
    NextKeeps(s, Announces);
    var r := Next(s, Announces).value;
    KilledIsFinal(r, actions);
    RunKeeps(r, actions);
    hide Run, Next;
  }

  /** The target may run although 0 was returned, but only after a timeout: here the announcer
      begins when the caller has given up and removed the FIFO. */
  const TOO_LATE: seq<Action> :=
    [CallerSteps, CallerSteps, CallerTimesOut, CallerSteps, CallerSteps, CallerSteps, Announces, Announces, Announces, ExecSucceeds]

  lemma BegunTooLate(mode: Mode, pid: nat)
    ensures Run(Begun(mode, pid), TOO_LATE).Some?
    ensures (var r := Run(Begun(mode, pid), TOO_LATE).value; r.caller.Done? && r.pid == 0 && r.ran == {pid})
  {
    hide Run;
    var s, c, a := Begun(mode, pid), CallerSteps, Announces;
    RunNothing(s);
    Then(s, [], s, c);
    Then(s, [] + [c], s.(caller := OpenFifo), c);
    Then(s, [] + [c] + [c], s.(caller := Select, readerOpen := true), CallerTimesOut);
    var out := [] + [c] + [c] + [CallerTimesOut];
    Then(s, out, s.(caller := CloseFifo, readerOpen := true, timedOut := true), c);
    Then(s, out + [c], s.(caller := UnlinkFifo, timedOut := true), c);
    Then(s, out + [c] + [c], s.(caller := UnlinkLock, timedOut := true, fifoExists := false), c);
    var done := s.(caller := Done, timedOut := true, fifoExists := false);
    Then(s, out + [c] + [c] + [c], done, a);
    Then(s, out + [c] + [c] + [c] + [a], done.(announcer := Lock, lockExists := true), a);
    Then(s, out + [c] + [c] + [c] + [a] + [a], done.(announcer := OpenPipe, lockExists := true, holder := Announcer), a);
    var ready := done.(announcer := Exec, lockExists := true, holder := Announcer);
    Then(s, out + [c] + [c] + [c] + [a] + [a] + [a], ready, ExecSucceeds);
    assert out + [c] + [c] + [c] + [a] + [a] + [a] + [ExecSucceeds] == TOO_LATE;
  }

  lemma TimedOutMayRun(mode: Mode, announcerPid: nat)
    requires announcerPid > 0
    ensures (var actions := Forks(mode) + TOO_LATE;
             && Run(Init(mode, announcerPid), actions).Some?
             && (var s := Run(Init(mode, announcerPid), actions).value; s.caller.Done? && s.pid == 0 && s.ran == {announcerPid}))
  {
    ForksBegin(mode, announcerPid);
    BegunTooLate(mode, announcerPid);
    hide Run;
    RunAppend(Init(mode, announcerPid), Forks(mode), TOO_LATE);
  }

  // ---------- What is left behind ----------

  predicate Unlinked(s: State) {
    && (s.caller.UnlinkLock? || (s.caller.Done? && !s.child.NotForked?) ==> !s.fifoExists)
    && (s.caller.Done? && !s.child.NotForked? && !s.timedOut ==> !s.lockExists)
  }

  lemma CallerUnlinks(s: State)
    requires Unlinked(s) && CallerNext(s).Some?
    ensures Unlinked(CallerNext(s).value)
  {
    match s.caller
    case UnlinkFifo =>
    case UnlinkLock =>
    case CloseFifo =>
    case OpenLock =>
    case _ =>
  }

  lemma AnnouncerIsPast(s: State)
    requires Inv(s) && s.caller.Done? && !s.child.NotForked? && !s.timedOut
    ensures !s.announcer.CreateLock?
  {
    hide Locks, Messages;
  }

  lemma AnnouncerAlone(s: State)
    requires AnnouncerNext(s).Some?
    ensures (var r := AnnouncerNext(s).value;
             && r.caller == s.caller && r.child == s.child && r.timedOut == s.timedOut && r.fifoExists == s.fifoExists
             && (r.lockExists ==> s.lockExists || s.announcer.CreateLock?))
  {
  }

  lemma OthersUnlinked(s: State, a: Action)
    requires Lineage(s) && Unlinked(s) && !a.CallerSteps? && !a.Announces? && Next(s, a).Some?
    ensures Unlinked(Next(s, a).value)
  {
    hide CallerNext, AnnouncerNext;
  }

  lemma NextKeepsUnlinked(s: State, a: Action)
    requires Inv(s) && Unlinked(s) && Next(s, a).Some?
    ensures Unlinked(Next(s, a).value)
  {
    if a.CallerSteps? {
      CallerUnlinks(s);
    } else if a.Announces? {
      AnnouncerAlone(s);
      if s.caller.Done? && !s.child.NotForked? && !s.timedOut {
        AnnouncerIsPast(s);
      }
    } else {
      OthersUnlinked(s, a);
    }
    hide CallerNext, AnnouncerNext, GrandNext, ExecNext, ForkNext, Inv;
  }

  lemma {:induction false} RunKeepsUnlinked(s: State, actions: seq<Action>)
    requires Inv(s) && Unlinked(s) && Run(s, actions).Some?
    ensures Unlinked(Run(s, actions).value)
  {
    hide Inv, Next, Unlinked;
    if actions != [] {
      var n := |actions| - 1;
      RunKeepsUnlinked(s, actions[..n]);
      RunKeeps(s, actions[..n]);
      NextKeepsUnlinked(Run(s, actions[..n]).value, actions[n]);
    }
  }

  /** In every interleaving, once a call that could fork has returned there is no FIFO, and,
      unless it timed out, no lockfile, either, not even later. */
  lemma NothingIsLeft(mode: Mode, announcerPid: nat, actions: seq<Action>)
    requires announcerPid > 0 && Run(Init(mode, announcerPid), actions).Some?
    ensures (var s := Run(Init(mode, announcerPid), actions).value;
             s.caller.Done? && !s.child.NotForked? ==>
               !s.fifoExists && !s.readerOpen && !s.holder.Caller? && (CallerTimesOut !in actions ==> !s.lockExists))
  {
    InitHolds(mode, announcerPid);
    RunKeeps(Init(mode, announcerPid), actions);
    RunKeepsUnlinked(Init(mode, announcerPid), actions);
    TimedOutIff(Init(mode, announcerPid), actions);
    hide Run, Verdict, Lineage;
  }

  // ---------- Progress ----------

  function CallerLeft(pc: CallerPc): nat {
    match pc
    case Fork => 12
    case Reap => 11
    case OpenFifo => 10
    case Select => 9
    case ReadFifo => 8
    case CloseFifo => 7
    case OpenLock => 6
    case TakeLock => 5
    case ReadLock => 4
    case CloseLock => 3
    case UnlinkFifo => 2
    case UnlinkLock => 1
    case Done => 0
  }

  function ChildLeft(pc: ChildPc): nat {
    match pc
    case NotForked => 2
    case Forking => 1
    case Exited => 0
  }

  function GrandLeft(pc: GrandPc): nat {
    match pc
    case Unborn => 5
    case ChangeDir => 4
    case ExecTerminal => 3
    case OpenPipeForZero => 2
    case SendZero => 1
    case InTerminal => 2
    case Announcing => 0
    case Gone => 0
  }

  function AnnouncerLeft(pc: Pc): nat {
    match pc
    case Absent => 9
    case CreateLock => 8
    case Lock => 7
    case OpenPipe => 6
    case SendPid => 5
    case ClosePipe => 4
    case Exec => 3
    case WriteErrno(_) => 2
    case Unlock => 1
    case Running => 0
    case Failed => 0
    case Killed => 0
  }

  /** How many steps the processes can take altogether. */
  function Left(s: State): nat {
    CallerLeft(s.caller) + ChildLeft(s.child) + GrandLeft(s.grand) + AnnouncerLeft(s.announcer)
  }

  lemma CallerMoves(s: State)
    requires CallerNext(s).Some?
    ensures CallerLeft(CallerNext(s).value.caller) < CallerLeft(s.caller)
  {
    match s.caller
    case CloseFifo =>
    case OpenLock =>
    case _ =>
  }

  lemma CallerCounts(s: State)
    requires CallerNext(s).Some?
    ensures Left(CallerNext(s).value) < Left(s)
  {
    hide CallerNext, CallerLeft, GrandLeft, AnnouncerLeft, ChildLeft;
    CallerAlone(s);
    CallerMoves(s);
  }

  lemma AnnouncerCounts(s: State)
    requires AnnouncerNext(s).Some?
    ensures Left(AnnouncerNext(s).value) < Left(s)
  {
    hide CallerLeft, GrandLeft, ChildLeft;
  }

  lemma GrandCounts(s: State, a: Action)
    requires Lineage(s) && GrandNext(s, a).Some?
    ensures Left(GrandNext(s, a).value) < Left(s)
  {
    hide CallerLeft, ChildLeft;
  }

  lemma ExecCounts(s: State, a: Action)
    requires ExecNext(s, a).Some?
    ensures Left(ExecNext(s, a).value) < Left(s)
  {
    hide CallerLeft, ChildLeft, GrandLeft;
  }

  lemma ForkCounts(s: State, a: Action)
    requires Lineage(s) && ForkNext(s, a).Some?
    ensures Left(ForkNext(s, a).value) < Left(s)
  {
    hide AnnouncerLeft;
  }

  lemma EveryStepCounts(s: State, a: Action)
    requires Inv(s) && Next(s, a).Some?
    ensures Left(Next(s, a).value) < Left(s)
  {
    hide CallerNext, AnnouncerNext, GrandNext, ExecNext, ForkNext, Left;
    match a
    case CallerForks(_) => ForkCounts(s, a);
    case CallerTimesOut => ForkCounts(s, a);
    case ChildForks(_) => ForkCounts(s, a);
    case CallerSteps => CallerCounts(s);
    case Announces => AnnouncerCounts(s);
    case ExecSucceeds => ExecCounts(s, a);
    case ExecFails(_) => ExecCounts(s, a);
    case _ => GrandCounts(s, a);
  }

  /** Runs end: none has more than 28 steps. */
  lemma {:induction false} RunsAreShort(mode: Mode, announcerPid: nat, actions: seq<Action>)
    requires announcerPid > 0 && Run(Init(mode, announcerPid), actions).Some?
    ensures |actions| + Left(Run(Init(mode, announcerPid), actions).value) <= 28
  {
    assert Left(Init(mode, announcerPid)) == 28;
    hide Next, Left, Inv;
    if actions != [] {
      var n := |actions| - 1;
      RunsAreShort(mode, announcerPid, actions[..n]);
      InitHolds(mode, announcerPid);
      RunKeeps(Init(mode, announcerPid), actions[..n]);
      EveryStepCounts(Run(Init(mode, announcerPid), actions[..n]).value, actions[n]);
    }
  }

  /** What the caller waits for: itself, the kernel's clock, the intermediate child, or the
      process that holds the lock. */
  function Awaited(s: State): Action {
    match s.caller
    case Fork => CallerForks(true)
    case Reap => if s.child.Exited? then CallerSteps else ChildForks(true)
    case Select => if s.fifo == [] then CallerTimesOut else CallerSteps
    case TakeLock =>
      if s.holder.Nobody? then CallerSteps else if s.announcer.Exec? then ExecSucceeds else Announces
    case _ => CallerSteps
  }

  /** Until it returns, what the caller waits for can happen. */
  lemma NeverStuck(s: State)
    requires Inv(s) && !s.caller.Done?
    ensures Next(s, Awaited(s)).Some?
  {
  }

  /** The caller always returns: every run is finite, and one that cannot go on has
      returned. */
  lemma CallerReturns(mode: Mode, announcerPid: nat, actions: seq<Action>)
    requires announcerPid > 0 && Run(Init(mode, announcerPid), actions).Some?
    ensures |actions| <= 28
    ensures (var s := Run(Init(mode, announcerPid), actions).value; s.caller.Done? || Next(s, Awaited(s)).Some?)
  {
    InitHolds(mode, announcerPid);
    RunKeeps(Init(mode, announcerPid), actions);
    RunsAreShort(mode, announcerPid, actions);
    var s := Run(Init(mode, announcerPid), actions).value;
    if !s.caller.Done? {
      NeverStuck(s);
    }
  }

  /** While the caller waits for the lock, every step of its holder is possible and leads
      to the release. */
  lemma HolderReleases(s: State)
    requires Inv(s) && s.caller.TakeLock? && !s.holder.Nobody?
    ensures s.holder.Announcer? && s.announcer != SendPid && s.announcer != OpenPipe
    ensures Next(s, Awaited(s)).Some?
    ensures (var r := Next(s, Awaited(s)).value; r.caller.TakeLock? && AnnouncerLeft(r.announcer) < AnnouncerLeft(s.announcer))
  {
  }
}
