/** The worker pool of the measurement cutter: a client queues jobs, workers take them under
    one mutex and sleep on one condition variable
    (app/meas_cutter/src/thread_pool.cpp, measurement_worker.cpp). */
module ThreadPool {
  import opened Strings

  type Job = int

  /** Where a worker is in `doWork`. From `Checking` to `Holding` it has the mutex, except
      while `Blocked` on the condition variable or `Woken` and waiting for the mutex. */
  datatype Pc =
    | Starting | AtLock | Blocked | Woken
    | Checking | Passed | Marked | Quitting | Leaving | Popping | Holding(number: nat, job: Job)
    | Working(number: nat, job: Job) | AfterWork | Returned

  datatype Worker = Worker(pc: Pc, busy: bool)

  /** Where the client is in `Start`, `Enque`, `processJobs` or `Stop`. */
  datatype ClientPc =
    | Idle
    | EnqueLock(job: Job) | EnquePush(job: Job) | EnqueNotify | EnqueUnlock
    | ScanLock | ScanQueue | Scanning(next: nat) | ScanDone | ScanAgain | Processed
    | StopLock | StopSet | StopUnlock | NotifyAll | Joining(next: nat) | Stopped

  datatype Owner = Free | Client | Of(worker: nat)

  /** The pool, and its history: `enqueued` lists all jobs, `takers[k]` is the worker that
      took job `k`, `finished` the numbers of the jobs that are done. */
  datatype State = State(
    workers: seq<Worker>, queue: seq<Job>, running: bool, owner: Owner, client: ClientPc,
    enqueued: seq<Job>, takers: seq<nat>, finished: set<nat>)

  function Init(count: nat): State {
    State(seq(count, i => Worker(Starting, false)), [], true, Free, Idle, [], [], {})
  }

  // ---------- Steps ----------

  /** Spurious wakeups happen at any time; `pick` is the sleeper that `notify_one` wakes. */
  datatype Action = WorkerSteps(worker: nat) | WakesUp(worker: nat) | ClientCalls(call: ClientPc) | ClientSteps(pick: nat)

  function At(s: State, i: nat, pc: Pc): State
    requires i < |s.workers|
  {
    s.(workers := s.workers[i := s.workers[i].(pc := pc)])
  }

  function Marks(s: State, i: nat, pc: Pc, busy: bool): State
    requires i < |s.workers|
  {
    s.(workers := s.workers[i := Worker(pc, busy)])
  }

  /** Steps of a worker that does not have the mutex. */
  function OutsideNext(s: State, i: nat): Option<State>
    requires i < |s.workers|
  {
    match s.workers[i].pc
    case Starting => Some(At(s, i, AtLock))
    case AtLock => if s.owner.Free? then Some(At(s, i, Checking).(owner := Of(i))) else None
    case Woken => if s.owner.Free? then Some(At(s, i, Checking).(owner := Of(i))) else None
    case Working(k, _) => Some(At(s, i, AfterWork).(finished := s.finished + {k}))
    case AfterWork => Some(Marks(s, i, AtLock, false))
    case _ => None
  }

  /** Steps of a worker that has the mutex. */
  function InsideNext(s: State, i: nat): Option<State>
    requires i < |s.workers|
  {
    match s.workers[i].pc
    case Checking =>
      if s.queue != [] || !s.running then Some(At(s, i, Passed)) else Some(At(s, i, Blocked).(owner := Free))
    case Passed => Some(Marks(s, i, Marked, true))
    case Marked => Some(At(s, i, if s.running then Popping else Quitting))
    case Quitting => Some(Marks(s, i, Leaving, false))
    case Leaving => Some(At(s, i, Returned).(owner := Free))
    case Popping =>
      if s.queue == [] then None
      else Some(At(s, i, Holding(|s.takers|, s.queue[0])).(queue := s.queue[1..], takers := s.takers + [i]))
    case Holding(k, job) => Some(At(s, i, Working(k, job)).(owner := Free))
    case _ => None
  }

  predicate Sleeping(w: Worker) { w.pc.Blocked? }

  predicate AllSleeping(s: State) { forall i | 0 <= i < |s.workers| :: Sleeping(s.workers[i]) }

  predicate NoneSleeping(s: State) { forall i | 0 <= i < |s.workers| :: !Sleeping(s.workers[i]) }

  function Woke(w: Worker): Worker { if Sleeping(w) then w.(pc := Woken) else w }

  function WakeAll(workers: seq<Worker>): seq<Worker> {
    seq(|workers|, i requires 0 <= i < |workers| => Woke(workers[i]))
  }

  function EnqueNext(s: State, pick: nat): Option<State> {
    match s.client
    case EnqueLock(job) => if s.owner.Free? then Some(s.(client := EnquePush(job), owner := Client)) else None
    case EnquePush(job) => Some(s.(client := EnqueNotify, queue := s.queue + [job], enqueued := s.enqueued + [job]))
    case EnqueNotify =>
      if NoneSleeping(s) then Some(s.(client := EnqueUnlock))
      else if pick < |s.workers| && Sleeping(s.workers[pick]) then Some(At(s, pick, Woken).(client := EnqueUnlock))
      else None
    case EnqueUnlock => Some(s.(client := Idle, owner := Free))
    case _ => None
  }

  /** The busy flags are read one by one, with the mutex held. */
  function ProcessNext(s: State): Option<State> {
    match s.client
    case ScanLock => if s.owner.Free? then Some(s.(client := ScanQueue, owner := Client)) else None
    case ScanQueue => Some(s.(client := if s.queue == [] then Scanning(0) else ScanAgain))
    case Scanning(i) =>
      Some(s.(client := if i >= |s.workers| then ScanDone else if s.workers[i].busy then ScanAgain else Scanning(i + 1)))
    case ScanAgain => Some(s.(client := ScanLock, owner := Free))
    case ScanDone => Some(s.(client := Processed, owner := Free))
    case _ => None
  }

  function StopNext(s: State): Option<State> {
    match s.client
    case StopLock => if s.owner.Free? then Some(s.(client := StopSet, owner := Client)) else None
    case StopSet => Some(s.(client := StopUnlock, running := false))
    case StopUnlock => Some(s.(client := NotifyAll, owner := Free))
    case NotifyAll => Some(s.(client := Joining(0), workers := WakeAll(s.workers)))
    case Joining(i) =>
      if i >= |s.workers| then Some(s.(client := Stopped))
      else if s.workers[i].pc.Returned? then Some(s.(client := Joining(i + 1)))
      else None
    case _ => None
  }

  predicate IsCall(pc: ClientPc) { pc.EnqueLock? || pc.ScanLock? || pc.StopLock? }

  predicate InEnque(pc: ClientPc) { pc.EnqueLock? || pc.EnquePush? || pc.EnqueNotify? || pc.EnqueUnlock? }

  predicate InProcess(pc: ClientPc) {
    pc.ScanLock? || pc.ScanQueue? || pc.Scanning? || pc.ScanDone? || pc.ScanAgain? || pc.Processed?
  }

  predicate HasMutex(pc: Pc) {
    pc.Checking? || pc.Passed? || pc.Marked? || pc.Quitting? || pc.Leaving? || pc.Popping? || pc.Holding?
  }

  function Next(s: State, a: Action): Option<State> {
    match a
    case WorkerSteps(i) =>
      if i >= |s.workers| then None else if HasMutex(s.workers[i].pc) then InsideNext(s, i) else OutsideNext(s, i)
    case WakesUp(i) =>
      if i < |s.workers| && Sleeping(s.workers[i]) then Some(At(s, i, Woken)) else None
    case ClientCalls(call) =>
      if IsCall(call) && (s.client.Idle? || s.client.Processed?) then Some(s.(client := call)) else None
    case ClientSteps(pick) =>
      if InEnque(s.client) then EnqueNext(s, pick) else if InProcess(s.client) then ProcessNext(s) else StopNext(s)
  }

  // ---------- What every step keeps ----------

  predicate ClientHasMutex(pc: ClientPc) {
    || pc.EnquePush? || pc.EnqueNotify? || pc.EnqueUnlock?
    || pc.ScanQueue? || pc.Scanning? || pc.ScanDone? || pc.ScanAgain?
    || pc.StopSet? || pc.StopUnlock?
  }

  predicate Stopping(pc: ClientPc) { pc.StopUnlock? || pc.NotifyAll? || pc.Joining? || pc.Stopped? }

  /** The mutex has the owner the program counters say. */
  predicate Exclusive(s: State) {
    && (s.owner.Client? <==> ClientHasMutex(s.client))
    && (s.owner.Of? ==> s.owner.worker < |s.workers|)
    && (forall i | 0 <= i < |s.workers| :: HasMutex(s.workers[i].pc) <==> s.owner == Of(i))
  }

  /** What a worker's program counter says about it. */
  predicate WorkerOk(s: State, w: Worker) {
    && (w.busy <==> w.pc.Marked? || w.pc.Quitting? || w.pc.Popping? || w.pc.Holding? || w.pc.Working? || w.pc.AfterWork?)
    && (w.pc.Passed? || w.pc.Marked? ==> s.queue != [] || !s.running)
    && (w.pc.Popping? ==> s.queue != [])
    && (w.pc.Popping? || w.pc.Holding? ==> s.running)
    && (w.pc.Quitting? || w.pc.Leaving? || w.pc.Returned? ==> !s.running)
  }

  predicate WorkersOk(s: State) { forall i | 0 <= i < |s.workers| :: WorkerOk(s, s.workers[i]) }

  /** The job a worker has taken and not yet finished, with its number. */
  function Load(w: Worker): Option<(nat, Job)> {
    match w.pc
    case Holding(k, job) => Some((k, job))
    case Working(k, job) => Some((k, job))
    case _ => None
  }

  predicate TakenOnce(s: State, k: nat)
    requires k < |s.takers| <= |s.enqueued|
  {
    s.takers[k] < |s.workers| && (k in s.finished || Load(s.workers[s.takers[k]]) == Some((k, s.enqueued[k])))
  }

  predicate CarriesOwn(s: State, i: nat)
    requires i < |s.workers|
  {
    match Load(s.workers[i])
    case None => true
    case Some((k, _)) => k < |s.takers| && s.takers[k] == i && k !in s.finished
  }

  /** Jobs leave the queue in order, each to one worker, which carries it until it is
      finished. */
  predicate Accounted(s: State) {
    && |s.takers| <= |s.enqueued| && s.queue == s.enqueued[|s.takers|..]
    && (forall k | k in s.finished :: k < |s.takers|)
    && (forall k | 0 <= k < |s.takers| :: TakenOnce(s, k))
    && (forall i | 0 <= i < |s.workers| :: CarriesOwn(s, i))
  }

  predicate AllFinished(s: State) { forall k | 0 <= k < |s.enqueued| :: k in s.finished }

  /** What the client has seen with the mutex held is still so. */
  predicate Scanned(s: State) {
    && (s.client.Scanning? ==> s.queue == [] && s.client.next <= |s.workers|)
    && (s.client.Scanning? ==> forall i | 0 <= i < s.client.next :: !s.workers[i].busy)
    && (s.client.ScanDone? ==> AllFinished(s))
    && (s.client.Processed? ==> AllFinished(s))
  }

  /** A job is never left to sleepers that nobody woke. */
  predicate Awake(s: State) { s.queue != [] && s.running && !s.client.EnqueNotify? && s.workers != [] ==> !AllSleeping(s) }

  predicate Halting(s: State) {
    && (s.running <==> !Stopping(s.client))
    && (s.client.Joining? || s.client.Stopped? ==> NoneSleeping(s))
    && (s.client.Joining? ==> s.client.next <= |s.workers| && forall i | 0 <= i < s.client.next :: s.workers[i].pc.Returned?)
    && (s.client.Stopped? ==> forall i | 0 <= i < |s.workers| :: s.workers[i].pc.Returned?)
  }

  predicate Inv(s: State) { Exclusive(s) && WorkersOk(s) && Accounted(s) && Scanned(s) && Awake(s) && Halting(s) }

  lemma InitHolds(count: nat)
    ensures Inv(Init(count))
  {
  }

  // Every step keeps each part; the account first.

  predicate SameLoads(s: State, t: State) {
    && |t.workers| == |s.workers|
    && forall i | 0 <= i < |s.workers| :: Load(t.workers[i]) == Load(s.workers[i])
  }

  /** Steps that move no job keep the account. */
  lemma LoadsKept(s: State, t: State)
    requires Accounted(s) && SameLoads(s, t)
    requires t.queue == s.queue && t.enqueued == s.enqueued && t.takers == s.takers && t.finished == s.finished
    ensures Accounted(t)
  {
    hide Load;
    forall k | 0 <= k < |t.takers| ensures TakenOnce(t, k) {
      assert TakenOnce(s, k);
    }
    forall i | 0 <= i < |t.workers| ensures CarriesOwn(t, i) {
      assert CarriesOwn(s, i);
    }
  }

  lemma OneLoadKept(s: State, i: nat, w: Worker)
    requires i < |s.workers| && Load(w) == Load(s.workers[i])
    ensures SameLoads(s, s.(workers := s.workers[i := w]))
  {
  }

  lemma FinishKeepsAccount(s: State, i: nat)
    requires Accounted(s) && i < |s.workers| && s.workers[i].pc.Working?
    ensures Accounted(OutsideNext(s, i).value)
  {
    var t := OutsideNext(s, i).value;
    assert CarriesOwn(s, i);
    forall k | 0 <= k < |t.takers| ensures TakenOnce(t, k) {
      assert TakenOnce(s, k);
    }
    forall j | 0 <= j < |t.workers| ensures CarriesOwn(t, j) {
      assert CarriesOwn(s, j);
    }
  }

  lemma PopKeepsAccount(s: State, i: nat)
    requires Accounted(s) && i < |s.workers| && s.workers[i].pc.Popping? && s.queue != []
    ensures Accounted(InsideNext(s, i).value)
  {
    var t := InsideNext(s, i).value;
    assert s.queue[0] == s.enqueued[|s.takers|];
    forall k | 0 <= k < |t.takers| ensures TakenOnce(t, k) {
      assert k < |s.takers| ==> TakenOnce(s, k);
    }
    forall j | 0 <= j < |t.workers| ensures CarriesOwn(t, j) {
      assert CarriesOwn(s, j);
    }
  }

  lemma PushKeepsAccount(s: State, job: Job)
    requires Accounted(s)
    ensures Accounted(s.(client := EnqueNotify, queue := s.queue + [job], enqueued := s.enqueued + [job]))
  {
    hide Load;
    var t := s.(client := EnqueNotify, queue := s.queue + [job], enqueued := s.enqueued + [job]);
    forall k | 0 <= k < |t.takers| ensures TakenOnce(t, k) {
      assert TakenOnce(s, k);
    }
    forall i | 0 <= i < |t.workers| ensures CarriesOwn(t, i) {
      assert CarriesOwn(s, i);
    }
  }

  lemma OutsideKeepsAccount(s: State, i: nat)
    requires Accounted(s) && i < |s.workers| && OutsideNext(s, i).Some?
    ensures Accounted(OutsideNext(s, i).value)
  {
    hide Accounted;
    if s.workers[i].pc.Working? {
      FinishKeepsAccount(s, i);
    } else {
      OneLoadKept(s, i, OutsideNext(s, i).value.workers[i]);
      LoadsKept(s, OutsideNext(s, i).value);
    }
  }

  lemma InsideKeepsAccount(s: State, i: nat)
    requires Accounted(s) && i < |s.workers| && InsideNext(s, i).Some?
    ensures Accounted(InsideNext(s, i).value)
  {
    hide Accounted;
    if s.workers[i].pc.Popping? {
      PopKeepsAccount(s, i);
    } else {
      OneLoadKept(s, i, InsideNext(s, i).value.workers[i]);
      LoadsKept(s, InsideNext(s, i).value);
    }
  }

  lemma EnqueKeepsAccount(s: State, pick: nat)
    requires Accounted(s) && EnqueNext(s, pick).Some?
    ensures Accounted(EnqueNext(s, pick).value)
  {
    hide Accounted;
    if s.client.EnquePush? {
      PushKeepsAccount(s, s.client.job);
    } else {
      if s.client.EnqueNotify? && !NoneSleeping(s) {
        OneLoadKept(s, pick, s.workers[pick].(pc := Woken));
      }
      LoadsKept(s, EnqueNext(s, pick).value);
    }
  }

  lemma ProcessKeepsAccount(s: State)
    requires Accounted(s) && ProcessNext(s).Some?
    ensures Accounted(ProcessNext(s).value)
  {
    hide Accounted, Load;
    LoadsKept(s, ProcessNext(s).value);
  }

  lemma StopKeepsAccount(s: State)
    requires Accounted(s) && StopNext(s).Some?
    ensures Accounted(StopNext(s).value)
  {
    hide Accounted;
    LoadsKept(s, StopNext(s).value);
  }

  // Then the mutex, the flags and the sleepers.

  predicate Others(s: State) { Exclusive(s) && WorkersOk(s) && Scanned(s) && Awake(s) && Halting(s) }

  lemma OutsideKeepsExclusive(s: State, i: nat)
    requires Exclusive(s) && i < |s.workers| && !HasMutex(s.workers[i].pc) && OutsideNext(s, i).Some?
    ensures Exclusive(OutsideNext(s, i).value)
  {
  }

  lemma OutsideKeepsMutex(s: State, i: nat)
    requires Inv(s) && i < |s.workers| && !HasMutex(s.workers[i].pc) && OutsideNext(s, i).Some?
    ensures Exclusive(OutsideNext(s, i).value) && WorkersOk(OutsideNext(s, i).value)
  {
    OutsideKeepsExclusive(s, i);
    hide Accounted, Scanned, Awake, Halting, Exclusive;
  }

  lemma OutsideKeeps(s: State, i: nat)
    requires Inv(s) && i < |s.workers| && !HasMutex(s.workers[i].pc) && OutsideNext(s, i).Some?
    ensures Others(OutsideNext(s, i).value)
  {
    OutsideKeepsMutex(s, i);
    hide Accounted, Exclusive;
    assert !Sleeping(OutsideNext(s, i).value.workers[i]);
  }

  lemma InsideKeeps(s: State, i: nat)
    requires Inv(s) && i < |s.workers| && HasMutex(s.workers[i].pc) && InsideNext(s, i).Some?
    ensures Others(InsideNext(s, i).value)
  {
    hide Accounted;
    var t := InsideNext(s, i).value;
    assert t.queue != [] && t.running ==> !Sleeping(t.workers[i]);
  }

  lemma EnqueKeeps(s: State, pick: nat)
    requires Inv(s) && EnqueNext(s, pick).Some?
    ensures Others(EnqueNext(s, pick).value)
  {
    hide Accounted;
    var t := EnqueNext(s, pick).value;
    if s.client.EnqueNotify? && s.workers != [] {
      assert !Sleeping(t.workers[if NoneSleeping(s) then 0 else pick]);
    }
  }

  /** With an empty queue and no busy worker, every job is finished. */
  lemma IdleMeansFinished(s: State)
    requires Accounted(s) && WorkersOk(s) && s.queue == []
    requires forall i | 0 <= i < |s.workers| :: !s.workers[i].busy
    ensures AllFinished(s)
  {
    assert |s.takers| == |s.enqueued|;
    forall k | 0 <= k < |s.enqueued| ensures k in s.finished {
      assert TakenOnce(s, k);
      assert WorkerOk(s, s.workers[s.takers[k]]);
    }
  }

  lemma ProcessKeeps(s: State)
    requires Inv(s) && ProcessNext(s).Some?
    ensures Others(ProcessNext(s).value)
  {
    if s.client.Scanning? && s.client.next >= |s.workers| {
      IdleMeansFinished(s);
    }
    hide Accounted;
  }

  lemma StopKeeps(s: State)
    requires Inv(s) && StopNext(s).Some?
    ensures Others(StopNext(s).value)
  {
    hide Accounted;
  }

  lemma WakeKeeps(s: State, i: nat)
    requires Inv(s) && i < |s.workers| && Sleeping(s.workers[i])
    ensures Others(At(s, i, Woken))
  {
    hide Accounted;
    assert !Sleeping(At(s, i, Woken).workers[i]);
  }

  lemma CallKeeps(s: State, call: ClientPc)
    requires Inv(s) && IsCall(call) && (s.client.Idle? || s.client.Processed?)
    ensures Inv(s.(client := call))
  {
    LoadsKept(s, s.(client := call));
    hide Accounted;
  }

  lemma NextKeeps(s: State, a: Action)
    requires Inv(s) && Next(s, a).Some?
    ensures Inv(Next(s, a).value)
  {
    hide Accounted, Exclusive, WorkersOk, OutsideNext, InsideNext, EnqueNext, ProcessNext, StopNext, AllSleeping, NoneSleeping;
    match a
    case WorkerSteps(i) =>
      if HasMutex(s.workers[i].pc) {
        InsideKeeps(s, i);
        InsideKeepsAccount(s, i);
      } else {
        OutsideKeeps(s, i);
        OutsideKeepsAccount(s, i);
      }
    case WakesUp(i) =>
      WakeKeeps(s, i);
      OneLoadKept(s, i, s.workers[i].(pc := Woken));
      LoadsKept(s, At(s, i, Woken));
    case ClientCalls(call) => CallKeeps(s, call);
    case ClientSteps(pick) =>
      if InEnque(s.client) {
        EnqueKeeps(s, pick);
        EnqueKeepsAccount(s, pick);
      } else if InProcess(s.client) {
        ProcessKeeps(s);
        ProcessKeepsAccount(s);
      } else {
        StopKeeps(s);
        StopKeepsAccount(s);
      }
  }

  // ---------- Runs ----------

  /** The state after some steps in any order, if each is possible when taken. */
  function Run(s: State, actions: seq<Action>): Option<State> {
    if actions == [] then Some(s)
    else
      var n := |actions| - 1;
      match Run(s, actions[..n])
      case None => None
      case Some(t) => Next(t, actions[n])
  }

  lemma {:induction false} RunKeeps(s: State, actions: seq<Action>)
    requires Inv(s) && Run(s, actions).Some?
    ensures Inv(Run(s, actions).value)
  {
    hide Inv, Next;
    if actions != [] {
      var n := |actions| - 1;
      RunKeeps(s, actions[..n]);
      NextKeeps(Run(s, actions[..n]).value, actions[n]);
    }
  }

  /** In every interleaving, when `processJobs` has returned, all jobs queued so far have
      been taken, in order, and finished. */
  lemma BarrierHolds(count: nat, actions: seq<Action>)
    requires Run(Init(count), actions).Some?
    ensures (var s := Run(Init(count), actions).value;
             s.client.Processed? ==> s.queue == [] && |s.takers| == |s.enqueued| && AllFinished(s))
  {
    InitHolds(count);
    RunKeeps(Init(count), actions);
    var s := Run(Init(count), actions).value;
    hide Run, Init;
    assert s.client.Processed? && |s.takers| < |s.enqueued| ==> |s.takers| in s.finished;
  }

  /** No step hands a job out twice, takes one back or forgets one. */
  lemma HistoryGrows(s: State, a: Action)
    requires Next(s, a).Some?
    ensures s.takers <= Next(s, a).value.takers && s.enqueued <= Next(s, a).value.enqueued
    ensures s.finished <= Next(s, a).value.finished
  {
    hide AllSleeping, NoneSleeping, Sleeping, WakeAll;
  }

  /** In every interleaving, the worker that took job `k`, and no other, works on it until
      it is finished; the jobs that nobody took are the queue, in order. */
  lemma JobsAreTakenOnce(count: nat, actions: seq<Action>, k: nat, i: nat)
    requires Run(Init(count), actions).Some?
    requires (var s := Run(Init(count), actions).value; k < |s.enqueued| && i < |s.workers|)
    ensures (var s := Run(Init(count), actions).value;
             && |s.takers| <= |s.enqueued| && s.queue == s.enqueued[|s.takers|..]
             && (Load(s.workers[i]) == Some((k, s.enqueued[k]))
                 <==> k < |s.takers| && s.takers[k] == i && k !in s.finished))
  {
    InitHolds(count);
    RunKeeps(Init(count), actions);
    var s := Run(Init(count), actions).value;
    hide Run, Init, Load;
    if k < |s.takers| {
      assert TakenOnce(s, k);
    }
    assert CarriesOwn(s, i);
  }

  /** The jobs that `Enque` was called with. */
  function Called(actions: seq<Action>): seq<Job> {
    if actions == [] then []
    else
      var last := actions[|actions| - 1];
      Called(actions[..|actions| - 1]) + if last.ClientCalls? && last.call.EnqueLock? then [last.call.job] else []
  }

  /** The job that `Enque` has not put into the queue yet. */
  function Entering(s: State): seq<Job> {
    match s.client
    case EnqueLock(job) => [job]
    case EnquePush(job) => [job]
    case _ => []
  }

  lemma NextEnqueues(s: State, a: Action)
    requires Next(s, a).Some?
    ensures Next(s, a).value.enqueued + Entering(Next(s, a).value)
         == s.enqueued + Entering(s) + (if a.ClientCalls? && a.call.EnqueLock? then [a.call.job] else [])
  {
    hide AllSleeping, NoneSleeping, Sleeping, WakeAll;
  }

  /** In every interleaving, the jobs in the account are those `Enque` was called with, in
      order, the last one perhaps still on its way. */
  lemma {:induction false} EveryJobIsEnqueued(count: nat, actions: seq<Action>)
    requires Run(Init(count), actions).Some?
    ensures (var s := Run(Init(count), actions).value; s.enqueued + Entering(s) == Called(actions))
  {
    if actions != [] {
      var n := |actions| - 1;
      EveryJobIsEnqueued(count, actions[..n]);
      NextEnqueues(Run(Init(count), actions[..n]).value, actions[n]);
      hide Next, Entering;
    }
  }

  // ---------- Nobody waits in vain ----------

  /** Steps of the pool itself: neither a spurious wakeup nor a new call. */
  predicate Regular(a: Action) { a.WorkerSteps? || a.ClientSteps? }

  lemma MutexOwnerMoves(s: State) returns (a: Action)
    requires Inv(s) && !s.owner.Free?
    ensures Regular(a) && Next(s, a).Some?
  {
    hide Accounted;
    match s.owner
    case Of(i) =>
      assert HasMutex(s.workers[i].pc);
      a := WorkerSteps(i);
    case Client =>
      if s.client.EnqueNotify? && !NoneSleeping(s) {
        var pick: nat :| pick < |s.workers| && Sleeping(s.workers[pick]);
        a := ClientSteps(pick);
      } else {
        a := ClientSteps(0);
      }
  }

  lemma NextWorkers(s: State, a: Action)
    requires Next(s, a).Some?
    ensures |Next(s, a).value.workers| == |s.workers|
  {
    hide AllSleeping, NoneSleeping, Sleeping;
  }

  lemma {:induction false} RunWorkers(s: State, actions: seq<Action>)
    requires Run(s, actions).Some?
    ensures |Run(s, actions).value.workers| == |s.workers|
  {
    hide Next;
    if actions != [] {
      var n := |actions| - 1;
      RunWorkers(s, actions[..n]);
      NextWorkers(Run(s, actions[..n]).value, actions[n]);
    }
  }

  /** With the pool running and at least one worker, a job in the queue never waits for a
      wakeup that was lost: some worker is not asleep, and some thread can go on. */
  lemma WakeupIsNotLost(count: nat, actions: seq<Action>) returns (a: Action)
    requires count > 0 && Run(Init(count), actions).Some?
    requires (var s := Run(Init(count), actions).value; s.queue != [] && s.running)
    ensures (var s := Run(Init(count), actions).value;
             && (s.client.EnqueNotify? || !AllSleeping(s))
             && Regular(a) && Next(s, a).Some?)
  {
    InitHolds(count);
    RunKeeps(Init(count), actions);
    RunWorkers(Init(count), actions);
    var s := Run(Init(count), actions).value;
    hide Run, Accounted;
    if s.owner.Free? {
      var i :| 0 <= i < |s.workers| && !Sleeping(s.workers[i]);
      assert WorkerOk(s, s.workers[i]);
      a := WorkerSteps(i);
    } else {
      a := MutexOwnerMoves(s);
    }
  }

  /** After `Stop` every worker has returned, every job that was taken is finished, and the
      others are still in the queue. */
  lemma StopIsClean(count: nat, actions: seq<Action>)
    requires Run(Init(count), actions).Some? && Run(Init(count), actions).value.client.Stopped?
    ensures (var s := Run(Init(count), actions).value;
             && |s.workers| == count && (forall i | 0 <= i < |s.workers| :: s.workers[i].pc.Returned?)
             && |s.takers| <= |s.enqueued| && s.queue == s.enqueued[|s.takers|..]
             && (forall k :: k in s.finished <==> 0 <= k < |s.takers|))
  {
    InitHolds(count);
    RunKeeps(Init(count), actions);
    RunWorkers(Init(count), actions);
    var s := Run(Init(count), actions).value;
    hide Run;
    forall k | 0 <= k < |s.takers| ensures k in s.finished {
      assert TakenOnce(s, k);
    }
  }

  // ---------- Stop returns ----------

  /** Steps a worker has left once the pool is stopping. */
  function WorkerLeft(w: Worker): nat {
    match w.pc
    case Popping => 12
    case Holding(_, _) => 11
    case Working(_, _) => 10
    case AfterWork => 9
    case Starting => 9
    case AtLock => 8
    case Blocked => 8
    case Woken => 7
    case Checking => 6
    case Passed => 5
    case Marked => 4
    case Quitting => 3
    case Leaving => 2
    case Returned => 0
  }

  function WorkersLeft(workers: seq<Worker>): nat {
    if workers == [] then 0 else WorkersLeft(workers[..|workers| - 1]) + WorkerLeft(workers[|workers| - 1])
  }

  function ClientLeft(s: State): nat {
    match s.client
    case StopUnlock => |s.workers| + 3
    case NotifyAll => |s.workers| + 2
    case Joining(i) => if i > |s.workers| then 0 else |s.workers| + 1 - i
    case _ => 0
  }

  function StopLeft(s: State): nat { ClientLeft(s) + WorkersLeft(s.workers) }

  lemma {:induction false} OneWorkerLess(workers: seq<Worker>, i: nat, w: Worker)
    requires i < |workers|
    ensures WorkersLeft(workers[i := w]) == WorkersLeft(workers) - WorkerLeft(workers[i]) + WorkerLeft(w)
  {
    hide WorkerLeft;
    var n := |workers| - 1;
    if i < n {
      assert workers[i := w][..n] == workers[..n][i := w];
      OneWorkerLess(workers[..n], i, w);
    } else {
      assert workers[i := w][..n] == workers[..n];
    }
  }

  lemma {:induction false} WakingCountsDown(workers: seq<Worker>)
    ensures WorkersLeft(WakeAll(workers)) <= WorkersLeft(workers)
  {
    if workers != [] {
      var n := |workers| - 1;
      WakingCountsDown(workers[..n]);
      assert WakeAll(workers)[..n] == WakeAll(workers[..n]);
    }
  }

  lemma WorkerCounts(s: State, i: nat)
    requires Inv(s) && Stopping(s.client) && i < |s.workers| && Next(s, WorkerSteps(i)).Some?
    ensures (var t := Next(s, WorkerSteps(i)).value; t.client == s.client && StopLeft(t) < StopLeft(s))
  {
    hide Accounted, Exclusive, WorkersLeft;
    var t := Next(s, WorkerSteps(i)).value;
    assert WorkerOk(s, s.workers[i]);
    assert t.workers == s.workers[i := t.workers[i]];
    OneWorkerLess(s.workers, i, t.workers[i]);
  }

  lemma StopCounts(s: State)
    requires StopNext(s).Some? && Stopping(s.client) && (s.client.Joining? ==> s.client.next <= |s.workers|)
    ensures Stopping(StopNext(s).value.client) && StopLeft(StopNext(s).value) < StopLeft(s)
  {
    WakingCountsDown(s.workers);
    hide WorkersLeft;
  }

  lemma EveryStopStepCounts(s: State, a: Action)
    requires Inv(s) && Stopping(s.client) && Next(s, a).Some?
    ensures Stopping(Next(s, a).value.client) && StopLeft(Next(s, a).value) < StopLeft(s)
  {
    match a
    case WorkerSteps(i) => WorkerCounts(s, i);
    case WakesUp(i) =>
      OneWorkerLess(s.workers, i, s.workers[i].(pc := Woken));
      hide Inv, WorkersLeft;
    case ClientSteps(_) =>
      StopCounts(s);
      hide Inv, StopNext, StopLeft;
    case ClientCalls(_) =>
  }

  lemma StopGoesOn(s: State) returns (a: Action)
    requires Inv(s) && Stopping(s.client) && !s.client.Stopped?
    ensures Regular(a) && Next(s, a).Some?
  {
    hide Accounted;
    if !s.owner.Free? {
      a := MutexOwnerMoves(s);
    } else if s.client.Joining? && s.client.next < |s.workers| && !s.workers[s.client.next].pc.Returned? {
      assert !Sleeping(s.workers[s.client.next]);
      a := WorkerSteps(s.client.next);
    } else {
      a := ClientSteps(0);
    }
  }

  /** Once `Stop` has cleared the running flag it returns: whatever the threads do, only so
      many steps remain, and until it has returned some thread can go on. */
  lemma {:induction false} StopReturns(s: State, actions: seq<Action>)
    requires Inv(s) && Stopping(s.client) && Run(s, actions).Some?
    ensures Inv(Run(s, actions).value) && Stopping(Run(s, actions).value.client)
    ensures |actions| + StopLeft(Run(s, actions).value) <= StopLeft(s)
    ensures (var t := Run(s, actions).value; t.client.Stopped? || exists a :: Regular(a) && Next(t, a).Some?)
  {
    hide Inv, Next, StopLeft;
    if actions != [] {
      var n := |actions| - 1;
      StopReturns(s, actions[..n]);
      NextKeeps(Run(s, actions[..n]).value, actions[n]);
      EveryStopStepCounts(Run(s, actions[..n]).value, actions[n]);
    }
    if !Run(s, actions).value.client.Stopped? {
      var a := StopGoesOn(Run(s, actions).value);
    }
  }

  // ---------- processJobs returns ----------

  /** What a worker has left to do in a running pool, where each queued job adds eight. */
  function WorkerTodo(w: Worker): nat {
    match w.pc
    case Holding(_, _) => 8
    case Working(_, _) => 7
    case AfterWork => 6
    case Starting => 6
    case AtLock => 5
    case Woken => 5
    case Checking => 4
    case Passed => 3
    case Marked => 2
    case Popping => 1
    case _ => 0
  }

  function WorkersTodo(workers: seq<Worker>): nat {
    if workers == [] then 0 else WorkersTodo(workers[..|workers| - 1]) + WorkerTodo(workers[|workers| - 1])
  }

  function PoolTodo(s: State): nat { WorkersTodo(s.workers) + 8 * |s.queue| }

  lemma {:induction false} OneWorkerDid(workers: seq<Worker>, i: nat, w: Worker)
    requires i < |workers|
    ensures WorkersTodo(workers[i := w]) == WorkersTodo(workers) - WorkerTodo(workers[i]) + WorkerTodo(w)
  {
    hide WorkerTodo;
    var n := |workers| - 1;
    if i < n {
      assert workers[i := w][..n] == workers[..n][i := w];
      OneWorkerDid(workers[..n], i, w);
    } else {
      assert workers[i := w][..n] == workers[..n];
    }
  }

  /** In a running pool every step of a worker brings the pool nearer to rest. */
  lemma WorkerDoes(s: State, i: nat)
    requires Inv(s) && s.running && Next(s, WorkerSteps(i)).Some?
    ensures (var t := Next(s, WorkerSteps(i)).value; t.client == s.client && t.running && PoolTodo(t) < PoolTodo(s))
  {
    hide Accounted, Exclusive, WorkersTodo;
    var t := Next(s, WorkerSteps(i)).value;
    assert WorkerOk(s, s.workers[i]);
    assert t.workers == s.workers[i := t.workers[i]];
    OneWorkerDid(s.workers, i, t.workers[i]);
  }

  /** Nothing is queued and nobody works. */
  predicate AtRest(s: State) { s.queue == [] && forall i | 0 <= i < |s.workers| :: !s.workers[i].busy }

  /** Steps of the client until it returns, when the pool is at rest, or else until it lets go
      of the mutex. */
  function ScanLeft(s: State): nat {
    match s.client
    case ScanAgain => if AtRest(s) then |s.workers| + 6 else 1
    case ScanLock => if AtRest(s) then |s.workers| + 5 else 0
    case ScanQueue => |s.workers| + 4
    case Scanning(i) => if i > |s.workers| then 0 else |s.workers| + 3 - i
    case ScanDone => 1
    case _ => 0
  }

  lemma ClientScans(s: State)
    requires Inv(s) && InProcess(s.client) && !s.client.Processed?
    requires s.client.ScanLock? ==> s.owner.Free? && AtRest(s)
    ensures (var t := Next(s, ClientSteps(0));
             && t.Some? && InProcess(t.value.client) && t.value.running == s.running
             && PoolTodo(t.value) == PoolTodo(s) && ScanLeft(t.value) < ScanLeft(s))
  {
    hide Accounted, Exclusive, WorkersOk, Awake, WorkersTodo;
  }

  /** With the mutex free and something left to do, some worker can do it. */
  lemma SomeoneCanWork(s: State) returns (i: nat)
    requires Inv(s) && s.running && s.workers != [] && InProcess(s.client) && s.owner.Free? && !AtRest(s)
    ensures Next(s, WorkerSteps(i)).Some?
  {
    hide Accounted, Scanned;
    if j: nat :| j < |s.workers| && s.workers[j].busy {
      i := j;
    } else {
      assert s.queue != [];
      i :| 0 <= i < |s.workers| && !Sleeping(s.workers[i]);
    }
    assert WorkerOk(s, s.workers[i]);
  }

  lemma OwnerWorks(s: State) returns (i: nat)
    requires Inv(s) && s.owner.Of?
    ensures Next(s, WorkerSteps(i)).Some?
  {
    i := s.owner.worker;
    assert WorkerOk(s, s.workers[i]);
  }

  lemma {:induction false} RunFirst(s: State, a: Action, rest: seq<Action>)
    requires Next(s, a).Some?
    ensures Run(s, [a] + rest) == Run(Next(s, a).value, rest)
  {
    hide Next;
    if rest == [] {
      assert [a] + rest == [a] && [a][..0] == [];
      assert Run(s, []) == Some(s);
    } else {
      var n := |rest| - 1;
      assert ([a] + rest)[..n + 1] == [a] + rest[..n];
      RunFirst(s, a, rest[..n]);
    }
  }

  lemma NextToReturn(s: State) returns (a: Action)
    requires Inv(s) && s.running && s.workers != [] && InProcess(s.client) && !s.client.Processed?
    ensures Regular(a) && Next(s, a).Some?
    ensures (var t := Next(s, a).value;
             && InProcess(t.client) && t.running
             && (PoolTodo(t) < PoolTodo(s) || (PoolTodo(t) == PoolTodo(s) && ScanLeft(t) < ScanLeft(s))))
  {
    hide Accounted, WorkersOk, Scanned, Awake, Halting, AtRest, PoolTodo, ScanLeft;
    if s.owner.Client? || (s.owner.Free? && AtRest(s)) {
      ClientScans(s);
      a := ClientSteps(0);
    } else {
      var i: nat;
      if s.owner.Free? {
        i := SomeoneCanWork(s);
      } else {
        i := OwnerWorks(s);
      }
      WorkerDoes(s, i);
      a := WorkerSteps(i);
    }
  }

  lemma ReturnsFrom(s: State) returns (actions: seq<Action>)
    requires Inv(s) && s.running && s.workers != [] && InProcess(s.client)
    ensures (forall a | a in actions :: Regular(a)) && Run(s, actions).Some? && Run(s, actions).value.client.Processed?
    decreases PoolTodo(s), ScanLeft(s)
  {
    if s.client.Processed? {
      actions := [];
    } else {
      hide Inv, Next, PoolTodo, ScanLeft, Run;
      var a := NextToReturn(s);
      NextKeeps(s, a);
      NextWorkers(s, a);
      var rest := ReturnsFrom(Next(s, a).value);
      RunFirst(s, a, rest);
      actions := [a] + rest;
    }
  }

  /** From every state that a pool with a worker can reach while the client is in
      `processJobs`, threads that go on, without any spurious wakeup, can bring it back. */
  lemma ProcessCanReturn(count: nat, actions: seq<Action>) returns (more: seq<Action>)
    requires count > 0 && Run(Init(count), actions).Some? && InProcess(Run(Init(count), actions).value.client)
    ensures (var s := Run(Init(count), actions).value;
             && (forall a | a in more :: Regular(a))
             && Run(s, more).Some? && Run(s, more).value.client.Processed?)
  {
    InitHolds(count);
    RunKeeps(Init(count), actions);
    RunWorkers(Init(count), actions);
    var s := Run(Init(count), actions).value;
    assert s.running;
    hide Run, Inv;
    more := ReturnsFrom(s);
  }

  function WorkerStepsIn(actions: seq<Action>): nat {
    if actions == [] then 0
    else WorkerStepsIn(actions[..|actions| - 1]) + if actions[|actions| - 1].WorkerSteps? then 1 else 0
  }

  lemma RegularInProcess(s: State, a: Action)
    requires Inv(s) && s.running && InProcess(s.client) && Regular(a) && Next(s, a).Some?
    ensures (var t := Next(s, a).value;
             && t.running && InProcess(t.client)
             && PoolTodo(t) + (if a.WorkerSteps? then 1 else 0) <= PoolTodo(s))
  {
    match a
    case WorkerSteps(i) => WorkerDoes(s, i);
    case ClientSteps(_) => hide Inv, WorkersTodo;
    case _ =>
  }

  /** Only the client's scanning can go on for long: without spurious wakeups the workers take
      a bounded number of steps until it returns, and whenever the mutex is free and the pool
      not at rest, one of them can take the next. */
  lemma {:induction false} WorkersComeToRest(s: State, actions: seq<Action>)
    requires Inv(s) && s.running && s.workers != [] && InProcess(s.client) && Run(s, actions).Some?
    requires forall a | a in actions :: Regular(a)
    ensures (var t := Run(s, actions).value;
             && Inv(t) && t.running && InProcess(t.client) && |t.workers| == |s.workers|
             && WorkerStepsIn(actions) + PoolTodo(t) <= PoolTodo(s)
             && (t.owner.Free? && !AtRest(t) ==> exists i :: Next(t, WorkerSteps(i)).Some?))
  {
    hide Inv, Next, PoolTodo;
    if actions != [] {
      var n := |actions| - 1;
      assert actions[n] in actions;
      WorkersComeToRest(s, actions[..n]);
      NextKeeps(Run(s, actions[..n]).value, actions[n]);
      NextWorkers(Run(s, actions[..n]).value, actions[n]);
      RegularInProcess(Run(s, actions[..n]).value, actions[n]);
    }
    var t := Run(s, actions).value;
    if t.owner.Free? && !AtRest(t) {
      var i := SomeoneCanWork(t);
    }
  }

  // ---------- Enque and Stop return ----------

  lemma WorkerReleases(s: State) returns (i: nat)
    requires Inv(s) && s.running && s.owner.Of?
    ensures Next(s, WorkerSteps(i)).Some?
    ensures (var t := Next(s, WorkerSteps(i)).value; t.client == s.client && t.running && PoolTodo(t) < PoolTodo(s))
  {
    i := OwnerWorks(s);
    WorkerDoes(s, i);
  }

  function EnqueLeft(pc: ClientPc): nat {
    match pc
    case EnqueLock(_) => 4
    case EnquePush(_) => 3
    case EnqueNotify => 2
    case EnqueUnlock => 1
    case _ => 0
  }

  lemma NextInEnque(s: State) returns (a: Action)
    requires Inv(s) && InEnque(s.client)
    ensures Regular(a) && Next(s, a).Some?
    ensures (var t := Next(s, a).value;
             && (InEnque(t.client) || t.client.Idle?)
             && (EnqueLeft(t.client) < EnqueLeft(s.client) || (t.client == s.client && PoolTodo(t) < PoolTodo(s))))
  {
    assert s.running;
    if s.owner.Of? {
      var i := WorkerReleases(s);
      a := WorkerSteps(i);
    } else {
      hide Accounted, WorkersOk, Scanned, Awake, Halting;
      if s.client.EnqueNotify? && !NoneSleeping(s) {
        var pick: nat :| pick < |s.workers| && Sleeping(s.workers[pick]);
        a := ClientSteps(pick);
      } else {
        a := ClientSteps(0);
      }
    }
  }

  lemma EnqueReturnsFrom(s: State) returns (actions: seq<Action>)
    requires Inv(s) && (InEnque(s.client) || s.client.Idle?)
    ensures (forall a | a in actions :: Regular(a)) && Run(s, actions).Some? && Run(s, actions).value.client.Idle?
    decreases EnqueLeft(s.client), PoolTodo(s)
  {
    if s.client.Idle? {
      actions := [];
    } else {
      hide Inv, Next, PoolTodo, EnqueLeft, Run;
      var a := NextInEnque(s);
      NextKeeps(s, a);
      var rest := EnqueReturnsFrom(Next(s, a).value);
      RunFirst(s, a, rest);
      actions := [a] + rest;
    }
  }

  /** Steps that are no calls enqueue what was on its way. */
  lemma {:induction false} RegularEnqueues(s: State, actions: seq<Action>)
    requires Run(s, actions).Some? && forall a | a in actions :: Regular(a)
    ensures (var t := Run(s, actions).value; t.enqueued + Entering(t) == s.enqueued + Entering(s))
  {
    if actions != [] {
      var n := |actions| - 1;
      assert actions[n] in actions;
      RegularEnqueues(s, actions[..n]);
      NextEnqueues(Run(s, actions[..n]).value, actions[n]);
      hide Next, Entering;
    }
  }

  /** From every state in which the client is in `Enque`, threads that go on can bring it back,
      and then its job is the last in the account. */
  lemma EnqueCanReturn(count: nat, actions: seq<Action>) returns (more: seq<Action>)
    requires Run(Init(count), actions).Some? && InEnque(Run(Init(count), actions).value.client)
    ensures (var s := Run(Init(count), actions).value;
             && (forall a | a in more :: Regular(a))
             && Run(s, more).Some? && Run(s, more).value.client.Idle?
             && Run(s, more).value.enqueued == Called(actions))
  {
    InitHolds(count);
    RunKeeps(Init(count), actions);
    var s := Run(Init(count), actions).value;
    hide Run, Inv;
    more := EnqueReturnsFrom(s);
    RegularEnqueues(s, more);
    EveryJobIsEnqueued(count, actions);
  }

  predicate InStop(pc: ClientPc) { pc.StopLock? || pc.StopSet? || Stopping(pc) }

  function StopRank(pc: ClientPc): nat { if pc.StopLock? then 2 else if pc.StopSet? then 1 else 0 }

  function LeftToStop(s: State): nat { if s.running then PoolTodo(s) else StopLeft(s) }

  lemma NextInStop(s: State) returns (a: Action)
    requires Inv(s) && InStop(s.client) && !s.client.Stopped?
    ensures Regular(a) && Next(s, a).Some?
    ensures (var t := Next(s, a).value;
             && InStop(t.client)
             && (StopRank(t.client) < StopRank(s.client)
                 || (StopRank(t.client) == StopRank(s.client) && t.running == s.running && LeftToStop(t) < LeftToStop(s))))
  {
    if Stopping(s.client) {
      a := StopGoesOn(s);
      EveryStopStepCounts(s, a);
      NextKeeps(s, a);
      hide Next, StopLeft;
    } else if s.owner.Of? {
      var i := WorkerReleases(s);
      a := WorkerSteps(i);
      hide Next, PoolTodo;
    } else {
      a := ClientSteps(0);
      hide Accounted, WorkersOk, Scanned, Awake;
    }
  }

  lemma StopReturnsFrom(s: State) returns (actions: seq<Action>)
    requires Inv(s) && InStop(s.client)
    ensures (forall a | a in actions :: Regular(a)) && Run(s, actions).Some? && Run(s, actions).value.client.Stopped?
    decreases StopRank(s.client), LeftToStop(s)
  {
    if s.client.Stopped? {
      actions := [];
    } else {
      hide Inv, Next, LeftToStop, StopRank, Run;
      var a := NextInStop(s);
      NextKeeps(s, a);
      var rest := StopReturnsFrom(Next(s, a).value);
      RunFirst(s, a, rest);
      actions := [a] + rest;
    }
  }

  /** From every state in which the client is in `Stop`, threads that go on can bring it to its
      end. */
  lemma StopCanReturn(count: nat, actions: seq<Action>) returns (more: seq<Action>)
    requires Run(Init(count), actions).Some? && InStop(Run(Init(count), actions).value.client)
    ensures (var s := Run(Init(count), actions).value;
             && (forall a | a in more :: Regular(a))
             && Run(s, more).Some? && Run(s, more).value.client.Stopped?)
  {
    InitHolds(count);
    RunKeeps(Init(count), actions);
    hide Run, Inv;
    more := StopReturnsFrom(Run(Init(count), actions).value);
  }

  /** The client may make any of the three calls when it is in none. */
  lemma CallsArePossible(s: State, call: ClientPc)
    requires IsCall(call) && (s.client.Idle? || s.client.Processed?)
    ensures Next(s, ClientCalls(call)) == Some(s.(client := call))
    ensures InEnque(call) || InProcess(call) || InStop(call)
  {
  }
}
