/** The blocking protocol of lib/FreeRTOS-Kernel/queue.c as interleaved steps. */
module QueueProtocol {
  import opened Common

  // A task that finds the queue empty (or full) suspends the scheduler, locks the queue, looks again,
  // puts itself on an event list and unlocks.  Interrupts run between any two of these steps; while
  // the queue is locked they leave the event lists alone and count in cTxLock / cRxLock instead.
  // A step is one critical section.  Which waiter is woken is left open, so every priority order is
  // covered, and so is when a block time runs out.  The invariants bound the wake-ups that may be
  // missing; the laws behind them say what a call has done when it returns, and that it waits when
  // it should.

  type Task = nat

  datatype Call = Receive | Peek | Send | Overwrite

  datatype Outcome = Block | Retry | Expire

  datatype Phase = Idle | Check | Suspend | Lock | Test | Place | UnlockTx | UnlockRx | Resume | Waiting | LastLook

  /** Where a task is in its call; the phases from Lock to Resume run with the scheduler suspended.
      `after` says, from UnlockTx to Resume, why the queue is being unlocked. */
  datatype Pc = Pc(
    phase: Phase,
    call: Call,
    after: Outcome,
    patient: bool,   // xTicksToWait is not zero
    passed: bool)    // what the last call returned: pdPASS, or errQUEUE_EMPTY or errQUEUE_FULL

  const UNLOCKED := -1

  /** The queue's length and the number of tasks in the system, numbered from 0. */
  datatype Config = Config(length: nat, tasks: nat)

  datatype State = State(
    n: nat,                  // uxMessagesWaiting
    cTx: int,                // cTxLock
    cRx: int,                // cRxLock
    toReceive: set<Task>,    // xTasksWaitingToReceive
    toSend: set<Task>,       // xTasksWaitingToSend
    wokenRx: set<Task>,      // taken off toReceive by a post, not yet back at their check
    wokenTx: set<Task>,      // taken off toSend by a removal, not yet back at their check
    suspended: Option<Task>,
    pc: seq<Pc>)

  datatype Step =
    | Begin(t: Task, call: Call, patient: bool)
    | CheckQueue(t: Task, woken: set<Task>)
    | SuspendAll(t: Task)
    | LockQueue(t: Task)
    | TestQueue(t: Task, expired: bool)
    | PlaceOnList(t: Task)
    | UnlockTxStep(t: Task, woken: set<Task>)
    | UnlockRxStep(t: Task, woken: set<Task>)
    | ResumeAll(t: Task)
    | WakeUp(t: Task)
    | LookAgain(t: Task)
    | TimeOut(t: Task)
    | IsrSend(overwrite: bool, woken: set<Task>)
    | IsrReceive(woken: set<Task>)
    | Reset(t: Task, woken: set<Task>)

  predicate Reads(call: Call) { call == Receive || call == Peek }

  predicate Credible(c: Config) {
    1 <= c.length && c.tasks <= 127
  }

  function Credit(lock: int): nat { if lock > 0 then lock else 0 }

  /** The one waiter an event takes off a list, none when the list is empty. */
  predicate OneOf(woken: set<Task>, waiting: set<Task>) {
    woken <= waiting && |woken| == if waiting == {} then 0 else 1
  }

  /** The waiters the unlocking loop takes off a list: one per count until either runs out. */
  predicate Drained(woken: set<Task>, waiting: set<Task>, lock: int) {
    woken <= waiting && |woken| == if Credit(lock) <= |waiting| then Credit(lock) else |waiting|
  }

  function WakeReceivers(s: State, w: set<Task>): State {
    s.(toReceive := s.toReceive - w, wokenRx := s.wokenRx + w)
  }

  function WakeSenders(s: State, w: set<Task>): State {
    s.(toSend := s.toSend - w, wokenTx := s.wokenTx + w)
  }

  /** The state with t in another phase of its call. */
  function Goto(s: State, t: Task, phase: Phase): State
    requires t < |s.pc|
  {
    s.(pc := s.pc[t := s.pc[t].(phase := phase)])
  }

  function Unlocking(s: State, t: Task, after: Outcome): State
    requires t < |s.pc|
  {
    s.(pc := s.pc[t := s.pc[t].(phase := UnlockTx, after := after)])
  }

  /** t's time is up, and stays up. */
  function OutOfTime(s: State, t: Task): State
    requires t < |s.pc|
  {
    s.(pc := s.pc[t := s.pc[t].(patient := false)])
  }

  /** The call returns. */
  function Returned(pc: Pc, passed: bool): Pc {
    pc.(phase := Idle, passed := passed)
  }

  /** Where the task goes on when it has unlocked the queue. */
  function Resumed(pc: Pc): Pc {
    match pc.after
    case Block => pc.(phase := Waiting)
    case Retry => pc.(phase := Check)
    case Expire => if Reads(pc.call) then pc.(phase := LastLook) else Returned(pc, false)
  }

  /** t has come back to the top of its loop, so it no longer counts as woken. */
  function Arrive(s: State, t: Task): State {
    s.(wokenRx := s.wokenRx - {t}, wokenTx := s.wokenTx - {t})
  }

  function CountAfterPost(n: nat, overwrite: bool): nat {
    if overwrite && n > 0 then n else n + 1
  }

  predicate CanRun(c: Config, s: State, t: Task) {
    t < c.tasks == |s.pc| && (s.suspended == None || s.suspended == Some(t))
  }

  predicate Enabled(c: Config, s: State, step: Step) {
    match step
    case Begin(t, call, _) => CanRun(c, s, t) && s.pc[t].phase == Idle && (call == Overwrite ==> c.length == 1)
    case CheckQueue(t, woken) =>
      && CanRun(c, s, t) && s.pc[t].phase == Check && (s.pc[t].call == Overwrite ==> c.length == 1)
      && (!CheckFails(c, s, s.pc[t].call) ==>
            OneOf(woken, if s.pc[t].call == Receive then s.toSend else s.toReceive))
    case SuspendAll(t) => CanRun(c, s, t) && s.pc[t].phase == Suspend && s.suspended == None
    case LockQueue(t) => CanRun(c, s, t) && s.pc[t].phase == Lock
    case TestQueue(t, _) => CanRun(c, s, t) && s.pc[t].phase == Test
    case PlaceOnList(t) => CanRun(c, s, t) && s.pc[t].phase == Place
    case UnlockTxStep(t, woken) => CanRun(c, s, t) && s.pc[t].phase == UnlockTx && Drained(woken, s.toReceive, s.cTx)
    case UnlockRxStep(t, woken) => CanRun(c, s, t) && s.pc[t].phase == UnlockRx && Drained(woken, s.toSend, s.cRx)
    case ResumeAll(t) => CanRun(c, s, t) && s.pc[t].phase == Resume
    case WakeUp(t) => CanRun(c, s, t) && s.pc[t].phase == Waiting && t !in s.toReceive && t !in s.toSend
    case LookAgain(t) => CanRun(c, s, t) && s.pc[t].phase == LastLook
    case TimeOut(t) => t in s.toReceive || t in s.toSend
    case IsrSend(overwrite, woken) =>
      && (overwrite ==> c.length == 1)
      && ((s.n < c.length || overwrite) && s.cTx == UNLOCKED ==> OneOf(woken, s.toReceive))
    case IsrReceive(woken) => s.n > 0 && s.cRx == UNLOCKED ==> OneOf(woken, s.toSend)
    case Reset(t, woken) => CanRun(c, s, t) && s.pc[t].phase == Idle && s.suspended == None && OneOf(woken, s.toSend)
  }

  /** t has run its check: the count and the lists as given, t itself as in x. */
  function Checked(s: State, t: Task, n: nat, receivers: set<Task>, senders: set<Task>, x: Pc): State
    requires t < |s.pc|
  {
    var s' := Arrive(WakeReceivers(WakeSenders(s.(n := n), senders), receivers), t);
    s'.(pc := s'.pc[t := x])
  }

  predicate CheckFails(c: Config, s: State, call: Call) {
    match call
    case Receive => s.n == 0
    case Peek => s.n == 0
    case Send => s.n >= c.length
    case Overwrite => false
  }

  function DoCheck(c: Config, s: State, t: Task, woken: set<Task>): State
    requires t < |s.pc| && (s.pc[t].call == Receive && !CheckFails(c, s, Receive) ==> s.n > 0)
  {
    var pc := s.pc[t];
    if CheckFails(c, s, pc.call)
    then Checked(s, t, s.n, {}, {}, if pc.patient then pc.(phase := Suspend) else Returned(pc, false))
    else match pc.call
      case Receive => Checked(s, t, s.n - 1, {}, woken, Returned(pc, true))
      case Peek => Checked(s, t, s.n, woken, {}, Returned(pc, true))
      case _ => Checked(s, t, CountAfterPost(s.n, pc.call == Overwrite), woken, {}, Returned(pc, true))
  }

  function Do(c: Config, s: State, step: Step): State
    requires Enabled(c, s, step)
  {
    match step
    case Begin(t, call, patient) => s.(pc := s.pc[t := Pc(Check, call, Block, patient, false)])
    case CheckQueue(t, woken) => DoCheck(c, s, t, woken)
    case SuspendAll(t) => Goto(s.(suspended := Some(t)), t, Lock)
    case LockQueue(t) =>
      Goto(s.(cRx := if s.cRx == UNLOCKED then 0 else s.cRx,
              cTx := if s.cTx == UNLOCKED then 0 else s.cTx), t, Test)
    case TestQueue(t, expired) =>
      var call := s.pc[t].call;
      if expired then Unlocking(OutOfTime(s, t), t, Expire)
      else if (if Reads(call) then s.n == 0 else s.n == c.length) then Goto(s, t, Place)
      else Unlocking(s, t, Retry)
    case PlaceOnList(t) =>
      var call := s.pc[t].call;
      Unlocking(if Reads(call) then s.(toReceive := s.toReceive + {t}) else s.(toSend := s.toSend + {t}), t, Block)
    case UnlockTxStep(t, woken) =>
      Goto(WakeReceivers(s, woken).(cTx := UNLOCKED), t, UnlockRx)
    case UnlockRxStep(t, woken) =>
      Goto(WakeSenders(s, woken).(cRx := UNLOCKED), t, Resume)
    case ResumeAll(t) =>
      s.(suspended := None, pc := s.pc[t := Resumed(s.pc[t])])
    case WakeUp(t) => Goto(s, t, Check)
    case LookAgain(t) =>
      s.(pc := s.pc[t := if s.n == 0 then Returned(s.pc[t], false) else s.pc[t].(phase := Check)])
    case TimeOut(t) => s.(toReceive := s.toReceive - {t}, toSend := s.toSend - {t})
    case IsrSend(overwrite, woken) =>
      if s.n >= c.length && !overwrite then s
      else
        var posted := s.(n := CountAfterPost(s.n, overwrite));
        if s.cTx == UNLOCKED then WakeReceivers(posted, woken)
        else if s.cTx < c.tasks then posted.(cTx := s.cTx + 1) else posted
    case IsrReceive(woken) =>
      if s.n == 0 then s
      else
        var removed := s.(n := s.n - 1);
        if s.cRx == UNLOCKED then WakeSenders(removed, woken)
        else if s.cRx < c.tasks then removed.(cRx := s.cRx + 1) else removed
    case Reset(t, woken) => WakeSenders(s.(n := 0, cTx := UNLOCKED, cRx := UNLOCKED), woken)
  }

  // ---- the invariant

  /** Which phases a task on an event list, or just taken off it, can be in. */
  predicate Blocking(pc: Pc, reading: bool) {
    && Reads(pc.call) == reading && pc.after == Block
    && (pc.phase == UnlockTx || pc.phase == UnlockRx || pc.phase == Resume || pc.phase == Waiting)
  }

  predicate Returning(pc: Pc, reading: bool) {
    Blocking(pc, reading) || (pc.phase == Check && Reads(pc.call) == reading)
  }

  predicate Suspending(phase: Phase) {
    phase == Lock || phase == Test || phase == Place || phase == UnlockTx || phase == UnlockRx || phase == Resume
  }

  ghost predicate ListOk(pc: seq<Pc>, waiting: set<Task>, woken: set<Task>, reading: bool) {
    && waiting !! woken
    && (forall t :: t in waiting ==> t < |pc| && Blocking(pc[t], reading))
    && (forall t :: t in woken ==> t < |pc| && Returning(pc[t], reading))
  }

  ghost predicate ListsOk(c: Config, s: State) {
    && |s.pc| == c.tasks
    && ListOk(s.pc, s.toReceive, s.wokenRx, true)
    && ListOk(s.pc, s.toSend, s.wokenTx, false)
  }

  /** What the lock counts can be while the scheduler is suspended by a task in a given phase. */
  predicate PhaseLocks(phase: Phase, cTx: int, cRx: int) {
    match phase
    case Lock => cTx == UNLOCKED && cRx == UNLOCKED
    case Test => cTx >= 0 && cRx >= 0
    case Place => cTx >= 0 && cRx >= 0
    case UnlockTx => cTx >= 0 && cRx >= 0
    case UnlockRx => cTx == UNLOCKED && cRx >= 0
    case Resume => cTx == UNLOCKED && cRx == UNLOCKED
    case _ => false
  }

  /** Only the task that suspended the scheduler can be in a suspending phase or hold the lock. */
  ghost predicate LockOk(c: Config, s: State) {
    && UNLOCKED <= s.cTx <= c.tasks && UNLOCKED <= s.cRx <= c.tasks
    && s.n <= c.length
    && (forall t :: 0 <= t < |s.pc| && Suspending(s.pc[t].phase) ==> s.suspended == Some(t))
    && match s.suspended
       case None => s.cTx == UNLOCKED && s.cRx == UNLOCKED
       case Some(u) => u < |s.pc| && PhaseLocks(s.pc[u].phase, s.cTx, s.cRx)
  }

  /** Some task is about to put itself on the list of receivers (or of senders). */
  predicate Placing(s: State, reading: bool) {
    && s.suspended.Some? && s.suspended.value < |s.pc|
    && s.pc[s.suspended.value].phase == Place && Reads(s.pc[s.suspended.value].call) == reading
  }

  /** While a receiver is blocked, the messages waiting are covered by receivers already woken and
      by wake-ups owed to the lock count, unless that count is saturated at the number of tasks. */
  ghost predicate ReceiveBound(c: Config, s: State) {
    && (s.toReceive != {} ==> s.cTx == c.tasks || s.n <= |s.wokenRx| + Credit(s.cTx))
    && (Placing(s, true) ==> s.cTx == c.tasks || s.n <= Credit(s.cTx))
  }

  /** The same for blocked senders and free places. */
  ghost predicate SendBound(c: Config, s: State) {
    && (s.toSend != {} ==> s.cRx == c.tasks || c.length - s.n <= |s.wokenTx| + Credit(s.cRx))
    && (Placing(s, false) ==> s.cRx == c.tasks || c.length - s.n <= Credit(s.cRx))
  }

  ghost predicate Inv(c: Config, s: State) {
    ListsOk(c, s) && LockOk(c, s) && ReceiveBound(c, s)
  }

  function Init(c: Config): State {
    State(0, UNLOCKED, UNLOCKED, {}, {}, {}, {}, None, seq(c.tasks, _ => Pc(Idle, Receive, Block, false, false)))
  }

  /** Everything one step has to keep. */
  ghost predicate Keeps(c: Config, s: State, s': State) {
    Inv(c, s') && (SendBound(c, s) ==> SendBound(c, s'))
  }

  /** A subset as large as the set is the set. */
  lemma WholeSet(w: set<Task>, all: set<Task>)
    requires w <= all && |w| == |all|
    ensures w == all
  {
    assert |all - w| == |all| - |w|;
  }

  /** No more than n tasks can be on a list of tasks below n. */
  lemma {:induction false} BoundedSet(w: set<Task>, n: nat)
    requires forall t :: t in w ==> t < n
    ensures |w| <= n
  {
    if n > 0 {
      BoundedSet(w - {n - 1}, n - 1);
    } else {
      assert w == {};
    }
  }

  lemma WakeList(pc: seq<Pc>, waiting: set<Task>, woken: set<Task>, reading: bool, w: set<Task>)
    requires ListOk(pc, waiting, woken, reading) && w <= waiting
    ensures ListOk(pc, waiting - w, woken + w, reading)
    ensures |woken + w| == |woken| + |w|
  {
  }

  lemma RemoveTask(w: set<Task>, t: Task)
    ensures |w - {t}| == |w| - (if t in w then 1 else 0)
  {
    if t !in w { assert w - {t} == w; }
  }

  /** A task back at its check leaves the woken set, which shrinks by at most itself. */
  lemma ArriveList(pc: seq<Pc>, waiting: set<Task>, woken: set<Task>, reading: bool, t: Task, x: Pc)
    requires ListOk(pc, waiting, woken, reading) && t < |pc| && t !in waiting
    ensures ListOk(pc[t := x], waiting, woken - {t}, reading)
    ensures |woken - {t}| == |woken| - (if t in woken then 1 else 0)
  {
    RemoveTask(woken, t);
  }

  /** Nobody holds the lock or the scheduler while a task is running outside the suspended phases. */
  lemma LockFree(c: Config, s: State, s': State, t: Task, x: Pc)
    requires ListsOk(c, s) && LockOk(c, s) && CanRun(c, s, t) && !Suspending(s.pc[t].phase)
    requires s'.suspended == s.suspended && s'.cTx == s.cTx && s'.cRx == s.cRx && s'.n <= c.length
    requires !Suspending(x.phase) && s'.pc == s.pc[t := x]
    ensures LockOk(c, s') && s.suspended == None
  {
  }

  /** The task that suspended the scheduler moves on to another of its phases. */
  lemma LockMoves(c: Config, s: State, s': State, t: Task, x: Pc)
    requires LockOk(c, s) && s.suspended == Some(t) && s'.suspended == Some(t) && s'.pc == s.pc[t := x]
    requires PhaseLocks(x.phase, s'.cTx, s'.cRx) && s'.cTx <= c.tasks && s'.cRx <= c.tasks && s'.n <= c.length
    ensures LockOk(c, s')
  {
  }

  lemma KeepBegin(c: Config, s: State, t: Task, call: Call, patient: bool)
    requires Inv(c, s) && Credible(c) && Enabled(c, s, Begin(t, call, patient))
    ensures Keeps(c, s, Do(c, s, Begin(t, call, patient)))
  {
  }

  lemma CheckedLists(c: Config, s: State, t: Task, n: nat, receivers: set<Task>, senders: set<Task>, x: Pc)
    requires ListsOk(c, s) && t < c.tasks && s.pc[t].phase == Check
    requires receivers <= s.toReceive && senders <= s.toSend
    ensures ListsOk(c, Checked(s, t, n, receivers, senders, x))
  {
    WakeList(s.pc, s.toReceive, s.wokenRx, true, receivers);
    WakeList(s.pc, s.toSend, s.wokenTx, false, senders);
    ArriveList(s.pc, s.toReceive - receivers, s.wokenRx + receivers, true, t, x);
    ArriveList(s.pc, s.toSend - senders, s.wokenTx + senders, false, t, x);
  }

  /** How many are woken after a wake-up and an arrival. */
  lemma WokenCount(waiting: set<Task>, woken: set<Task>, w: set<Task>, t: Task)
    requires waiting !! woken && w <= waiting && t !in waiting
    ensures |woken + w - {t}| == |woken| + |w| - (if t in woken then 1 else 0)
  {
    RemoveTask(woken + w, t);
  }

  lemma CheckedReceiveBound(c: Config, s: State, t: Task, n: nat, receivers: set<Task>, senders: set<Task>,
                            x: Pc)
    requires LockOk(c, s) && ReceiveBound(c, s) && t < |s.pc| && s.suspended == None && c.tasks > 0
    requires s.toReceive !! s.wokenRx && receivers <= s.toReceive && t !in s.toReceive
    requires n == 0 || s.toReceive == receivers || n <= s.n + |receivers| - (if t in s.wokenRx then 1 else 0)
    ensures ReceiveBound(c, Checked(s, t, n, receivers, senders, x))
  {
    WokenCount(s.toReceive, s.wokenRx, receivers, t);
  }

  lemma CheckedSendBound(c: Config, s: State, t: Task, n: nat, receivers: set<Task>, senders: set<Task>, x: Pc)
    requires LockOk(c, s) && SendBound(c, s) && t < |s.pc| && s.suspended == None && c.tasks > 0
    requires s.toSend !! s.wokenTx && senders <= s.toSend && t !in s.toSend
    requires n >= c.length || s.toSend == senders || s.n <= n + |senders| - (if t in s.wokenTx then 1 else 0)
    ensures SendBound(c, Checked(s, t, n, receivers, senders, x))
  {
    WokenCount(s.toSend, s.wokenTx, senders, t);
  }

  lemma OneOfEmpty(woken: set<Task>, waiting: set<Task>)
    requires OneOf(woken, waiting)
    ensures waiting == woken || |woken| == 1
  {
  }

  /** A task at its check is on no list, is counted as woken only for its own kind of call, and
      runs with the queue unlocked. */
  lemma AtCheck(c: Config, s: State, t: Task)
    requires ListsOk(c, s) && LockOk(c, s) && CanRun(c, s, t) && s.pc[t].phase == Check
    ensures t !in s.toReceive && t !in s.toSend && s.suspended == None
    ensures t in s.wokenRx ==> Reads(s.pc[t].call)
    ensures t in s.wokenTx ==> !Reads(s.pc[t].call)
  {
  }

  lemma KeepCheckQueue(c: Config, s: State, t: Task, woken: set<Task>)
    requires Inv(c, s) && Credible(c) && Enabled(c, s, CheckQueue(t, woken))
    ensures Keeps(c, s, Do(c, s, CheckQueue(t, woken)))
  {
    if CheckFails(c, s, s.pc[t].call) {
      KeepFailed(c, s, t, woken);
    } else {
      KeepPassed(c, s, t, woken);
    }
  }

  lemma KeepFailed(c: Config, s: State, t: Task, woken: set<Task>)
    requires Inv(c, s) && CanRun(c, s, t) && s.pc[t].phase == Check && CheckFails(c, s, s.pc[t].call)
    ensures Keeps(c, s, DoCheck(c, s, t, woken))
  {
    AtCheck(c, s, t);
    var pc := s.pc[t];
    KeepChecked(c, s, t, s.n, {}, {}, if pc.patient then pc.(phase := Suspend) else Returned(pc, false));
  }

  lemma KeepPassed(c: Config, s: State, t: Task, woken: set<Task>)
    requires Inv(c, s) && CanRun(c, s, t) && s.pc[t].phase == Check && !CheckFails(c, s, s.pc[t].call)
    requires s.pc[t].call == Overwrite ==> c.length == 1
    requires OneOf(woken, if s.pc[t].call == Receive then s.toSend else s.toReceive)
    ensures Keeps(c, s, DoCheck(c, s, t, woken))
  {
    var pc := s.pc[t];
    if pc.call == Receive {
      KeepReceives(c, s, t, s.n - 1, woken, Returned(pc, true));
    } else if pc.call == Peek {
      KeepOffers(c, s, t, s.n, woken, Returned(pc, true));
    } else {
      KeepOffers(c, s, t, CountAfterPost(s.n, pc.call == Overwrite), woken, Returned(pc, true));
    }
  }

  lemma KeepReceives(c: Config, s: State, t: Task, n: nat, woken: set<Task>, x: Pc)
    requires Inv(c, s) && CanRun(c, s, t) && s.pc[t].phase == Check && s.pc[t].call == Receive
    requires n == s.n - 1 && OneOf(woken, s.toSend) && !Suspending(x.phase)
    ensures Keeps(c, s, Checked(s, t, n, {}, woken, x))
  {
    AtCheck(c, s, t);
    OneOfEmpty(woken, s.toSend);
    KeepChecked(c, s, t, n, {}, woken, x);
  }

  /** Peeking or sending: the queue holds an item afterwards and one receiver is offered it. */
  lemma KeepOffers(c: Config, s: State, t: Task, n: nat, woken: set<Task>, x: Pc)
    requires Inv(c, s) && CanRun(c, s, t) && s.pc[t].phase == Check && OneOf(woken, s.toReceive)
    requires if Reads(s.pc[t].call) then n == s.n else s.n <= n <= s.n + 1 && (n == s.n + 1 || s.n == c.length)
    requires n <= c.length && !Suspending(x.phase)
    ensures Keeps(c, s, Checked(s, t, n, woken, {}, x))
  {
    AtCheck(c, s, t);
    OneOfEmpty(woken, s.toReceive);
    KeepChecked(c, s, t, n, woken, {}, x);
  }

  lemma KeepChecked(c: Config, s: State, t: Task, n: nat, receivers: set<Task>, senders: set<Task>, x: Pc)
    requires Inv(c, s) && CanRun(c, s, t) && s.pc[t].phase == Check && s.suspended == None
    requires receivers <= s.toReceive && senders <= s.toSend && n <= c.length && !Suspending(x.phase)
    requires n == 0 || s.toReceive == receivers || n <= s.n + |receivers| - (if t in s.wokenRx then 1 else 0)
    requires n >= c.length || s.toSend == senders || s.n <= n + |senders| - (if t in s.wokenTx then 1 else 0)
    ensures Keeps(c, s, Checked(s, t, n, receivers, senders, x))
  {
    AtCheck(c, s, t);
    CheckedLists(c, s, t, n, receivers, senders, x);
    LockFree(c, s, Checked(s, t, n, receivers, senders, x), t, x);
    CheckedReceiveBound(c, s, t, n, receivers, senders, x);
    if SendBound(c, s) {
      CheckedSendBound(c, s, t, n, receivers, senders, x);
    }
  }

  lemma KeepSuspendAll(c: Config, s: State, t: Task)
    requires Inv(c, s) && Credible(c) && Enabled(c, s, SuspendAll(t))
    ensures Keeps(c, s, Do(c, s, SuspendAll(t)))
  {
  }

  lemma KeepLockQueue(c: Config, s: State, t: Task)
    requires Inv(c, s) && Credible(c) && Enabled(c, s, LockQueue(t))
    ensures Keeps(c, s, Do(c, s, LockQueue(t)))
  {
  }

  lemma KeepTestQueue(c: Config, s: State, t: Task, expired: bool)
    requires Inv(c, s) && Credible(c) && Enabled(c, s, TestQueue(t, expired))
    ensures Keeps(c, s, Do(c, s, TestQueue(t, expired)))
  {
    var pc := s.pc[t];
    if expired {
      MoveOn(c, s, t, pc.(phase := UnlockTx, after := Expire, patient := false));
    } else if if Reads(pc.call) then s.n == 0 else s.n == c.length {
      MoveOn(c, s, t, pc.(phase := Place));
    } else {
      MoveOn(c, s, t, pc.(phase := UnlockTx, after := Retry));
    }
  }

  /** The task at its second look goes on; about to enqueue only if there is nothing for it. */
  lemma MoveOn(c: Config, s: State, t: Task, x: Pc)
    requires Inv(c, s) && s.suspended == Some(t) && t < |s.pc| && s.pc[t].phase == Test
    requires x.phase == UnlockTx || x.phase == Place
    requires x.phase == Place ==> if Reads(x.call) then s.n == 0 else s.n == c.length
    ensures Keeps(c, s, s.(pc := s.pc[t := x]))
  {
  }

  /** A task in the Place phase is on no list; placing it changes one list. */
  lemma PlaceLists(pc: seq<Pc>, waiting: set<Task>, woken: set<Task>, reading: bool, t: Task)
    requires ListOk(pc, waiting, woken, reading) && t < |pc| && pc[t].phase == Place
    ensures var pc' := pc[t := pc[t].(phase := UnlockTx, after := Block)];
            && ListOk(pc', waiting, woken, reading)
            && (Reads(pc[t].call) == reading ==> ListOk(pc', waiting + {t}, woken, reading))
  {
  }

  lemma KeepPlaceOnList(c: Config, s: State, t: Task)
    requires Inv(c, s) && Credible(c) && Enabled(c, s, PlaceOnList(t))
    ensures Keeps(c, s, Do(c, s, PlaceOnList(t)))
  {
    var s' := Do(c, s, PlaceOnList(t));
    PlaceLists(s.pc, s.toReceive, s.wokenRx, true, t);
    PlaceLists(s.pc, s.toSend, s.wokenTx, false, t);
    LockMoves(c, s, s', t, s'.pc[t]);
  }

  /** Once the loop has taken one waiter per count off the list, whoever is left is covered by the
      woken ones alone; a saturated count empties the list. */
  lemma DrainCovers(waiting: set<Task>, woken: set<Task>, w: set<Task>, lock: int, tasks: nat, amount: int)
    requires waiting !! woken && Drained(w, waiting, lock) && lock <= tasks
    requires forall t :: t in waiting ==> t < tasks
    requires waiting != {} ==> lock == tasks || amount <= |woken| + Credit(lock)
    ensures waiting - w != {} ==> amount <= |woken + w|
  {
    BoundedSet(waiting, tasks);
    if |w| == |waiting| { WholeSet(w, waiting); }
  }

  lemma KeepUnlockTxStep(c: Config, s: State, t: Task, woken: set<Task>)
    requires Inv(c, s) && Credible(c) && Enabled(c, s, UnlockTxStep(t, woken))
    ensures Keeps(c, s, Do(c, s, UnlockTxStep(t, woken)))
  {
    var s' := Do(c, s, UnlockTxStep(t, woken));
    LockMoves(c, s, s', t, s'.pc[t]);
    WakeList(s.pc, s.toReceive, s.wokenRx, true, woken);
    DrainCovers(s.toReceive, s.wokenRx, woken, s.cTx, c.tasks, s.n);
    MoveLists(c, WakeReceivers(s, woken), t, UnlockRx);
  }

  lemma KeepUnlockRxStep(c: Config, s: State, t: Task, woken: set<Task>)
    requires Inv(c, s) && Credible(c) && Enabled(c, s, UnlockRxStep(t, woken))
    ensures Keeps(c, s, Do(c, s, UnlockRxStep(t, woken)))
  {
    var s' := Do(c, s, UnlockRxStep(t, woken));
    LockMoves(c, s, s', t, s'.pc[t]);
    WakeList(s.pc, s.toSend, s.wokenTx, false, woken);
    if SendBound(c, s) { DrainCovers(s.toSend, s.wokenTx, woken, s.cRx, c.tasks, c.length - s.n); }
    MoveLists(c, WakeSenders(s, woken), t, Resume);
  }

  /** Unlocking moves a task through phases in which it may be on a list. */
  lemma MoveLists(c: Config, s: State, t: Task, phase: Phase)
    requires ListsOk(c, s) && t < |s.pc| && (s.pc[t].phase == UnlockTx || s.pc[t].phase == UnlockRx)
    requires phase == UnlockRx || phase == Resume
    ensures ListsOk(c, Goto(s, t, phase))
  {
  }

  lemma KeepResumeAll(c: Config, s: State, t: Task)
    requires Inv(c, s) && Credible(c) && Enabled(c, s, ResumeAll(t))
    ensures Keeps(c, s, Do(c, s, ResumeAll(t)))
  {
  }

  lemma KeepWakeUp(c: Config, s: State, t: Task)
    requires Inv(c, s) && Credible(c) && Enabled(c, s, WakeUp(t))
    ensures Keeps(c, s, Do(c, s, WakeUp(t)))
  {
  }

  lemma KeepLookAgain(c: Config, s: State, t: Task)
    requires Inv(c, s) && Credible(c) && Enabled(c, s, LookAgain(t))
    ensures Keeps(c, s, Do(c, s, LookAgain(t)))
  {
  }

  lemma ShrinkList(pc: seq<Pc>, waiting: set<Task>, woken: set<Task>, reading: bool, t: Task)
    requires ListOk(pc, waiting, woken, reading)
    ensures ListOk(pc, waiting - {t}, woken, reading)
  {
  }

  lemma KeepTimeOut(c: Config, s: State, t: Task)
    requires Inv(c, s) && Credible(c) && Enabled(c, s, TimeOut(t))
    ensures Keeps(c, s, Do(c, s, TimeOut(t)))
  {
    ShrinkList(s.pc, s.toReceive, s.wokenRx, true, t);
    ShrinkList(s.pc, s.toSend, s.wokenTx, false, t);
  }

  lemma KeepIsrSend(c: Config, s: State, overwrite: bool, woken: set<Task>)
    requires Inv(c, s) && Credible(c) && Enabled(c, s, IsrSend(overwrite, woken))
    ensures Keeps(c, s, Do(c, s, IsrSend(overwrite, woken)))
  {
    if s.n < c.length || overwrite {
      var n := CountAfterPost(s.n, overwrite);
      if s.cTx == UNLOCKED { KeepPost(c, s, n, woken); } else { KeepPostLocked(c, s, n); }
    }
  }

  lemma KeepPost(c: Config, s: State, n: nat, woken: set<Task>)
    requires Inv(c, s) && s.cTx == UNLOCKED && OneOf(woken, s.toReceive) && s.n <= n <= s.n + 1 && n <= c.length
    ensures Keeps(c, s, WakeReceivers(s.(n := n), woken))
  {
    WakeList(s.pc, s.toReceive, s.wokenRx, true, woken);
    OneOfEmpty(woken, s.toReceive);
  }

  /** While the queue is locked a post is remembered in the count, up to the number of tasks. */
  lemma KeepPostLocked(c: Config, s: State, n: nat)
    requires Inv(c, s) && s.cTx >= 0 && s.n <= n <= s.n + 1 && n <= c.length
    ensures Keeps(c, s, s.(n := n, cTx := if s.cTx < c.tasks then s.cTx + 1 else s.cTx))
    ensures Keeps(c, s, if s.cTx < c.tasks then s.(n := n).(cTx := s.cTx + 1) else s.(n := n))
  {
  }

  lemma KeepIsrReceive(c: Config, s: State, woken: set<Task>)
    requires Inv(c, s) && Credible(c) && Enabled(c, s, IsrReceive(woken))
    ensures Keeps(c, s, Do(c, s, IsrReceive(woken)))
  {
    if s.n > 0 {
      if s.cRx == UNLOCKED {
        KeepRemoval(c, s, woken);
      } else {
        KeepRemovalLocked(c, s);
      }
    }
  }

  /** A removal that wakes one sender. */
  lemma KeepRemoval(c: Config, s: State, woken: set<Task>)
    requires Inv(c, s) && s.cRx == UNLOCKED && s.n > 0 && OneOf(woken, s.toSend)
    ensures Keeps(c, s, WakeSenders(s.(n := s.n - 1), woken))
  {
    WakeList(s.pc, s.toSend, s.wokenTx, false, woken);
    OneOfEmpty(woken, s.toSend);
  }

  /** While the queue is locked a removal is remembered in the count, up to the number of tasks. */
  lemma KeepRemovalLocked(c: Config, s: State)
    requires Inv(c, s) && s.cRx >= 0 && s.n > 0
    ensures Keeps(c, s, s.(n := s.n - 1, cRx := if s.cRx < c.tasks then s.cRx + 1 else s.cRx))
  {
  }

  lemma KeepReset(c: Config, s: State, t: Task, woken: set<Task>)
    requires Inv(c, s) && Enabled(c, s, Reset(t, woken))
    ensures Inv(c, Do(c, s, Reset(t, woken)))
  {
    WakeList(s.pc, s.toSend, s.wokenTx, false, woken);
  }

  /** What every step of every task and interrupt keeps. */
  lemma StepKeeps(c: Config, s: State, step: Step)
    requires Inv(c, s) && Credible(c) && Enabled(c, s, step)
    ensures Inv(c, Do(c, s, step))
    ensures SendBound(c, s) && !step.Reset? ==> SendBound(c, Do(c, s, step))
  {
    match step
    case Begin(t, call, patient) => KeepBegin(c, s, t, call, patient);
    case CheckQueue(t, woken) => KeepCheckQueue(c, s, t, woken);
    case SuspendAll(t) => KeepSuspendAll(c, s, t);
    case LockQueue(t) => KeepLockQueue(c, s, t);
    case TestQueue(t, expired) => KeepTestQueue(c, s, t, expired);
    case PlaceOnList(t) => KeepPlaceOnList(c, s, t);
    case UnlockTxStep(t, woken) => KeepUnlockTxStep(c, s, t, woken);
    case UnlockRxStep(t, woken) => KeepUnlockRxStep(c, s, t, woken);
    case ResumeAll(t) => KeepResumeAll(c, s, t);
    case WakeUp(t) => KeepWakeUp(c, s, t);
    case LookAgain(t) => KeepLookAgain(c, s, t);
    case TimeOut(t) => KeepTimeOut(c, s, t);
    case IsrSend(overwrite, woken) => KeepIsrSend(c, s, overwrite, woken);
    case IsrReceive(woken) => KeepIsrReceive(c, s, woken);
    case Reset(t, woken) => KeepReset(c, s, t, woken);
  }

  // ---- whole runs

  ghost predicate Executes(c: Config, s: State, steps: seq<Step>)
    decreases |steps|
  {
    steps != [] ==> Enabled(c, s, steps[0]) && Executes(c, Do(c, s, steps[0]), steps[1..])
  }

  ghost function RunTo(c: Config, s: State, steps: seq<Step>): State
    requires Executes(c, s, steps)
    decreases |steps|
  {
    if steps == [] then s else RunTo(c, Do(c, s, steps[0]), steps[1..])
  }

  lemma {:induction false} RunKeeps(c: Config, s: State, steps: seq<Step>)
    requires Inv(c, s) && Credible(c) && Executes(c, s, steps)
    ensures Inv(c, RunTo(c, s, steps))
    ensures SendBound(c, s) && (forall i :: 0 <= i < |steps| ==> !steps[i].Reset?) ==>
              SendBound(c, RunTo(c, s, steps))
    decreases |steps|
  {
    if steps != [] {
      StepKeeps(c, s, steps[0]);
      RunKeeps(c, Do(c, s, steps[0]), steps[1..]);
    }
  }

  /** No lost wake-up on receive: in every interleaving, with the queue unlocked and every woken
      receiver back at its check, nobody is blocked waiting to receive from a queue that holds a
      message; at any other time the messages never outnumber the wake-ups still due. */
  lemma NoLostReceiver(c: Config, steps: seq<Step>)
    requires Credible(c) && Executes(c, Init(c), steps)
    ensures var s := RunTo(c, Init(c), steps);
            && (s.toReceive != {} && s.cTx != c.tasks ==> s.n <= |s.wokenRx| + Credit(s.cTx))
            && (s.toReceive != {} && s.cTx == UNLOCKED && s.wokenRx == {} ==> s.n == 0)
  {
    RunKeeps(c, Init(c), steps);
  }

  /** No lost wake-up on send, in every interleaving without a queue reset. */
  lemma NoLostSender(c: Config, steps: seq<Step>)
    requires Credible(c) && Executes(c, Init(c), steps)
    requires forall i :: 0 <= i < |steps| ==> !steps[i].Reset?
    ensures var s := RunTo(c, Init(c), steps);
            && (s.toSend != {} && s.cRx != c.tasks ==> c.length - s.n <= |s.wokenTx| + Credit(s.cRx))
            && (s.toSend != {} && s.cRx == UNLOCKED && s.wokenTx == {} ==> s.n == c.length)
  {
    RunKeeps(c, Init(c), steps);
  }

  /** A saturated count is harmless: the unlock that reads it wakes every waiting receiver. */
  lemma SaturatedUnlockWakesAll(c: Config, s: State, t: Task, woken: set<Task>)
    requires Inv(c, s) && Enabled(c, s, UnlockTxStep(t, woken)) && s.cTx == c.tasks
    ensures Do(c, s, UnlockTxStep(t, woken)).toReceive == {}
  {
    BoundedSet(s.toReceive, c.tasks);
    WholeSet(woken, s.toReceive);
  }

  /** xQueueGenericReset wakes one sender for a whole empty queue.  It keeps the send-side bound
      exactly when at most one sender waits or the senders already woken fill the queue. */
  lemma ResetKeepsSendBoundIff(c: Config, s: State, t: Task, woken: set<Task>)
    requires Inv(c, s) && c.tasks > 0 && Enabled(c, s, Reset(t, woken))
    ensures SendBound(c, Do(c, s, Reset(t, woken))) <==> |s.toSend| <= 1 || c.length <= |s.wokenTx| + 1
  {
    WakeList(s.pc, s.toSend, s.wokenTx, false, woken);
    assert |s.toSend - woken| == |s.toSend| - |woken|;
  }

  lemma {:induction false} RunsOn(c: Config, s: State, a: seq<Step>, b: seq<Step>)
    requires Executes(c, s, a) && Executes(c, RunTo(c, s, a), b)
    ensures Executes(c, s, a + b) && RunTo(c, s, a + b) == RunTo(c, RunTo(c, s, a), b)
    decreases |a|
  {
    if a == [] {
      assert a + b == b;
    } else {
      assert (a + b)[0] == a[0] && (a + b)[1..] == a[1..] + b;
      RunsOn(c, Do(c, s, a[0]), a[1..], b);
    }
  }

  /** The queue is empty for a receive or a peek, full for a send. */
  predicate Stuck(c: Config, n: nat, call: Call) {
    match call
    case Receive => n == 0
    case Peek => n == 0
    case Send => n == c.length
    case Overwrite => false
  }

  /** t is on the list that its call waits on. */
  function Listed(s: State, t: Task, call: Call): State {
    if call == Send then s.(toSend := s.toSend + {t}) else s.(toReceive := s.toReceive + {t})
  }

  /** t is about to make a call that cannot go ahead, and nobody holds the queue. */
  ghost predicate StuckAndFree(c: Config, s: State, t: Task, call: Call) {
    && Stuck(c, s.n, call) && s.cTx == UNLOCKED && s.cRx == UNLOCKED && s.suspended == None
    && t < |s.pc| == c.tasks && s.pc[t].phase == Idle && t !in s.wokenTx && t !in s.wokenRx
  }

  /** s with t in some phase of a call with a block time. */
  ghost function At(s: State, t: Task, call: Call, phase: Phase, cTx: int, cRx: int, held: bool): State
    requires t < |s.pc|
  {
    s.(cTx := cTx, cRx := cRx, suspended := if held then Some(t) else None,
       pc := s.pc[t := Pc(phase, call, Block, true, false)])
  }

  /** t has gone to sleep in its call. */
  ghost function Asleep(s: State, t: Task, call: Call): State
    requires t < |s.pc|
  {
    Listed(s, t, call).(pc := s.pc[t := Pc(Waiting, call, Block, true, false)])
  }

  ghost predicate Goes(c: Config, s: State, step: Step, s': State) {
    Enabled(c, s, step) && Do(c, s, step) == s'
  }

  lemma WakeNobody(s: State)
    ensures WakeReceivers(s, {}) == s && WakeSenders(s, {}) == s
  {
    assert s.toReceive - {} == s.toReceive && s.toSend - {} == s.toSend;
    assert s.wokenRx + {} == s.wokenRx && s.wokenTx + {} == s.wokenTx;
  }

  lemma NotWoken(s: State, t: Task)
    requires t !in s.wokenTx && t !in s.wokenRx
    ensures Arrive(s, t) == s
  {
    assert s.wokenRx - {t} == s.wokenRx && s.wokenTx - {t} == s.wokenTx;
  }

  lemma CheckGoes(c: Config, s: State, t: Task, call: Call)
    requires StuckAndFree(c, s, t, call)
    ensures Goes(c, At(s, t, call, Check, UNLOCKED, UNLOCKED, false), CheckQueue(t, {}),
                 At(s, t, call, Suspend, UNLOCKED, UNLOCKED, false))
  {
    CheckWaits(c, At(s, t, call, Check, UNLOCKED, UNLOCKED, false), t);
  }

  /** A check that fails changes nothing but where the task is: with time left it goes on to wait. */
  lemma CheckWaits(c: Config, s: State, t: Task)
    requires t < |s.pc| && t !in s.wokenTx && t !in s.wokenRx && Stuck(c, s.n, s.pc[t].call) && s.pc[t].patient
    ensures DoCheck(c, s, t, {}) == Goto(s, t, Suspend)
  {
    WakeNobody(s);
    NotWoken(s, t);
  }

  lemma EntryGoes(c: Config, s: State, t: Task, call: Call)
    requires StuckAndFree(c, s, t, call)
    ensures Goes(c, s, Begin(t, call, true), At(s, t, call, Check, UNLOCKED, UNLOCKED, false))
    ensures Goes(c, At(s, t, call, Suspend, UNLOCKED, UNLOCKED, false), SuspendAll(t),
                 At(s, t, call, Lock, UNLOCKED, UNLOCKED, true))
    ensures Goes(c, At(s, t, call, Lock, UNLOCKED, UNLOCKED, true), LockQueue(t), At(s, t, call, Test, 0, 0, true))
    ensures Goes(c, At(s, t, call, Test, 0, 0, true), TestQueue(t, false), At(s, t, call, Place, 0, 0, true))
  {
  }

  lemma PlaceGoes(c: Config, s: State, t: Task, call: Call)
    requires StuckAndFree(c, s, t, call)
    ensures Goes(c, At(s, t, call, Place, 0, 0, true), PlaceOnList(t),
                 At(Listed(s, t, call), t, call, UnlockTx, 0, 0, true))
  {
  }

  lemma UnlockTxGoes(c: Config, s: State, t: Task, call: Call)
    requires t < |s.pc| == c.tasks
    ensures Goes(c, At(s, t, call, UnlockTx, 0, 0, true), UnlockTxStep(t, {}),
                 At(s, t, call, UnlockRx, UNLOCKED, 0, true))
  {
    WakeNobody(At(s, t, call, UnlockTx, 0, 0, true));
  }

  lemma UnlockRxGoes(c: Config, s: State, t: Task, call: Call)
    requires t < |s.pc| == c.tasks
    ensures Goes(c, At(s, t, call, UnlockRx, UNLOCKED, 0, true), UnlockRxStep(t, {}),
                 At(s, t, call, Resume, UNLOCKED, UNLOCKED, true))
  {
    WakeNobody(At(s, t, call, UnlockRx, UNLOCKED, 0, true));
  }

  lemma ResumeGoes(c: Config, s: State, t: Task, call: Call)
    requires t < |s.pc| == c.tasks
    ensures Goes(c, At(s, t, call, Resume, UNLOCKED, UNLOCKED, true), ResumeAll(t),
                 At(s, t, call, Waiting, UNLOCKED, UNLOCKED, false))
  {
  }

  /** A run from s0 that is in state s goes one step further. */
  lemma GoOn(c: Config, s0: State, run: seq<Step>, s: State, step: Step, s': State) returns (run': seq<Step>)
    requires Executes(c, s0, run) && RunTo(c, s0, run) == s && Goes(c, s, step, s')
    ensures run' == run + [step] && Executes(c, s0, run') && RunTo(c, s0, run') == s'
  {
    assert [step][1..] == [] && Executes(c, Do(c, s, step), []);
    RunsOn(c, s0, run, [step]);
    run' := run + [step];
  }

  /** A call with a block time that cannot go ahead, a receive or a peek on an empty queue or a send to a
      full one, goes to sleep on its list. */
  lemma CallBlocks(c: Config, s0: State, run0: seq<Step>, s: State, t: Task, call: Call) returns (run: seq<Step>)
    requires StuckAndFree(c, s, t, call) && Executes(c, s0, run0) && RunTo(c, s0, run0) == s
    ensures Executes(c, s0, run) && RunTo(c, s0, run) == Asleep(s, t, call)
  {
    EntryGoes(c, s, t, call);
    CheckGoes(c, s, t, call);
    PlaceGoes(c, s, t, call);
    run := GoOn(c, s0, run0, s, Begin(t, call, true), At(s, t, call, Check, UNLOCKED, UNLOCKED, false));
    run := GoOn(c, s0, run, At(s, t, call, Check, UNLOCKED, UNLOCKED, false), CheckQueue(t, {}),
                At(s, t, call, Suspend, UNLOCKED, UNLOCKED, false));
    run := GoOn(c, s0, run, At(s, t, call, Suspend, UNLOCKED, UNLOCKED, false), SuspendAll(t),
                At(s, t, call, Lock, UNLOCKED, UNLOCKED, true));
    run := GoOn(c, s0, run, At(s, t, call, Lock, UNLOCKED, UNLOCKED, true), LockQueue(t),
                At(s, t, call, Test, 0, 0, true));
    run := GoOn(c, s0, run, At(s, t, call, Test, 0, 0, true), TestQueue(t, false), At(s, t, call, Place, 0, 0, true));
    run := GoOn(c, s0, run, At(s, t, call, Place, 0, 0, true), PlaceOnList(t),
                At(Listed(s, t, call), t, call, UnlockTx, 0, 0, true));
    run := ListedSleeps(c, s0, run, Listed(s, t, call), t, call);
    assert At(Listed(s, t, call), t, call, Waiting, UNLOCKED, UNLOCKED, false) == Asleep(s, t, call);
  }

  lemma ListedSleeps(c: Config, s0: State, run0: seq<Step>, s: State, t: Task, call: Call) returns (run: seq<Step>)
    requires t < |s.pc| == c.tasks && Executes(c, s0, run0)
    requires RunTo(c, s0, run0) == At(s, t, call, UnlockTx, 0, 0, true)
    ensures Executes(c, s0, run) && RunTo(c, s0, run) == At(s, t, call, Waiting, UNLOCKED, UNLOCKED, false)
  {
    UnlockTxGoes(c, s, t, call);
    UnlockRxGoes(c, s, t, call);
    ResumeGoes(c, s, t, call);
    run := GoOn(c, s0, run0, At(s, t, call, UnlockTx, 0, 0, true), UnlockTxStep(t, {}),
                At(s, t, call, UnlockRx, UNLOCKED, 0, true));
    run := GoOn(c, s0, run, At(s, t, call, UnlockRx, UNLOCKED, 0, true), UnlockRxStep(t, {}),
                At(s, t, call, Resume, UNLOCKED, UNLOCKED, true));
    run := GoOn(c, s0, run, At(s, t, call, Resume, UNLOCKED, UNLOCKED, true), ResumeAll(t),
                At(s, t, call, Waiting, UNLOCKED, UNLOCKED, false));
  }

  /** Two posts from interrupts fill a queue of two. */
  lemma FillsUp(c: Config) returns (run: seq<Step>)
    requires c == Config(2, 3)
    ensures Executes(c, Init(c), run) && RunTo(c, Init(c), run) == Init(c).(n := 2)
  {
    var s := Init(c);
    WakeNobody(s.(n := 1));
    WakeNobody(s.(n := 2));
    run := GoOn(c, s, [], s, IsrSend(false, {}), s.(n := 1));
    run := GoOn(c, s, run, s.(n := 1), IsrSend(false, {}), s.(n := 2));
  }

  /** Two senders sleep on a queue of two, and a third task can act. */
  ghost predicate TwoAsleep(c: Config, s: State) {
    && c == Config(2, 3) && |s.pc| == 3 && s.pc[2].phase == Idle && s.pc[0] == Pc(Waiting, Send, Block, true, false)
    && s.suspended == None && s.toSend == {0, 1} && s.wokenTx == {} && s.toReceive == {} && s.wokenRx == {}
  }

  /** The reset wakes one of the two ... */
  lemma ResetGoes(c: Config, s: State)
    requires TwoAsleep(c, s)
    ensures Goes(c, s, Reset(2, {0}), s.(n := 0, cTx := UNLOCKED, cRx := UNLOCKED, toSend := {1}, wokenTx := {0}))
  {
    assert s.toSend - {0} == {1} && s.wokenTx + {0} == {0};
  }

  ghost function Sent(s1: State): State
    requires |s1.pc| == 3
  {
    s1.(n := 1, wokenTx := {}, pc := s1.pc[0 := Returned(s1.pc[0], true)])
  }

  /** ... which sends. */
  lemma WokenSends(c: Config, s: State)
    requires TwoAsleep(c, s)
    ensures var s1 := s.(n := 0, cTx := UNLOCKED, cRx := UNLOCKED, toSend := {1}, wokenTx := {0});
            && Goes(c, s1, WakeUp(0), Goto(s1, 0, Check))
            && Goes(c, Goto(s1, 0, Check), CheckQueue(0, {}), Sent(s1))
  {
    var s2 := Goto(s.(n := 0, cTx := UNLOCKED, cRx := UNLOCKED, toSend := {1}, wokenTx := {0}), 0, Check);
    WakeNobody(s2.(n := 1));
    assert s2.wokenTx - {0} == {} && s2.wokenRx - {0} == s2.wokenRx;
  }

  lemma OneSenderWoken(c: Config, s0: State, run0: seq<Step>, s: State) returns (run: seq<Step>)
    requires TwoAsleep(c, s) && Executes(c, s0, run0) && RunTo(c, s0, run0) == s
    ensures Executes(c, s0, run)
    ensures var end := RunTo(c, s0, run);
            end.toSend == {1} && end.wokenTx == {} && end.cRx == UNLOCKED && end.n == 1 && |end.pc| == 3
                && end.pc[1] == s.pc[1]
  {
    ResetGoes(c, s);
    WokenSends(c, s);
    var s1 := s.(n := 0, cTx := UNLOCKED, cRx := UNLOCKED, toSend := {1}, wokenTx := {0});
    run := GoOn(c, s0, run0, s, Reset(2, {0}), s1);
    run := GoOn(c, s0, run, s1, WakeUp(0), Goto(s1, 0, Check));
    run := GoOn(c, s0, run, Goto(s1, 0, Check), CheckQueue(0, {}), Sent(s1));
  }

  /** A run that loses a wake-up: a queue of two is filled, two senders go to sleep, the queue is reset
      and the one sender that is woken sends.  The other sleeps on, with nobody left to wake it, while
      the queue, unlocked, has room. */
  lemma ResetLosesSender() returns (run: seq<Step>)
    ensures var c := Config(2, 3);
            && Executes(c, Init(c), run)
            && var s := RunTo(c, Init(c), run);
               s.toSend == {1} && s.wokenTx == {} && s.cRx == UNLOCKED && s.n < c.length
               && |s.pc| == 3 && s.pc[1].phase == Waiting
  {
    var c := Config(2, 3);
    run := FillsUp(c);
    var s := Init(c).(n := 2);
    run := CallBlocks(c, Init(c), run, s, 0, Send);
    run := CallBlocks(c, Init(c), run, Asleep(s, 0, Send), 1, Send);
    assert {} + {0} + {1} == {0, 1};
    run := OneSenderWoken(c, Init(c), run, Asleep(Asleep(s, 0, Send), 1, Send));
  }

  // ---- exactly when a reset loses a wake-up

  /** A sender sleeps in front of an unlocked queue with room, and no wake-up is due. */
  ghost predicate Lost(c: Config, s: State) {
    s.toSend != {} && s.wokenTx == {} && s.cRx == UNLOCKED && s.n < c.length
  }

  ghost predicate NoReset(run: seq<Step>) {
    forall i :: 0 <= i < |run| ==> !run[i].Reset?
  }

  /** Only a queue of length one is overwritten. */
  ghost predicate OverwritesFit(c: Config, s: State) {
    c.length != 1 ==> forall t :: 0 <= t < |s.pc| ==> s.pc[t].call != Overwrite
  }

  lemma StepFits(c: Config, s: State, step: Step)
    requires OverwritesFit(c, s) && Enabled(c, s, step)
    ensures OverwritesFit(c, Do(c, s, step))
  {
  }

  lemma {:induction false} RunFits(c: Config, s: State, steps: seq<Step>)
    requires OverwritesFit(c, s) && Executes(c, s, steps)
    ensures OverwritesFit(c, RunTo(c, s, steps))
    decreases |steps|
  {
    if steps != [] {
      StepFits(c, s, steps[0]);
      RunFits(c, Do(c, s, steps[0]), steps[1..]);
    }
  }

  /** Woken senders are about to send, fewer than there is room for, and somebody else still sleeps. */
  ghost predicate RoomForMore(c: Config, s: State) {
    && Inv(c, s) && Credible(c) && OverwritesFit(c, s) && s.suspended == None
    && s.toSend != {} && s.n + |s.wokenTx| < c.length && 2 <= c.length
  }

  /** A woken sender comes back to its check ... */
  lemma WokenArrives(c: Config, s: State, t: Task)
    requires RoomForMore(c, s) && t in s.wokenTx && s.pc[t].phase != Check
    ensures Enabled(c, s, WakeUp(t)) && RoomForMore(c, Do(c, s, WakeUp(t)))
    ensures Do(c, s, WakeUp(t)) == Goto(s, t, Check)
  {
    StepKeeps(c, s, WakeUp(t));
    StepFits(c, s, WakeUp(t));
  }

  /** ... and sends. */
  lemma CheckSends(c: Config, s: State, t: Task) returns (woken: set<Task>)
    requires RoomForMore(c, s) && t in s.wokenTx && s.pc[t].phase == Check
    ensures Enabled(c, s, CheckQueue(t, woken))
    ensures var s' := Do(c, s, CheckQueue(t, woken));
            && s'.n == s.n + 1 && s'.toSend == s.toSend && s'.wokenTx == s.wokenTx - {t} && s'.suspended == None
  {
    assert CanRun(c, s, t) && s.n < c.length;
    assert s.pc[t].call == Send;
    woken := SendPasses(c, s, t);
  }

  lemma SendPasses(c: Config, s: State, t: Task) returns (woken: set<Task>)
    requires CanRun(c, s, t) && s.pc[t].phase == Check && s.pc[t].call == Send && s.n < c.length
    ensures Enabled(c, s, CheckQueue(t, woken))
    ensures var s' := Do(c, s, CheckQueue(t, woken));
            && s'.n == s.n + 1 && s'.toSend == s.toSend && s'.wokenTx == s.wokenTx - {t}
            && s'.suspended == s.suspended
  {
    if s.toReceive == {} {
      woken := {};
    } else {
      var r :| r in s.toReceive;
      woken := {r};
    }
  }

  lemma SentLeavesRoom(c: Config, s: State, t: Task) returns (woken: set<Task>)
    requires RoomForMore(c, s) && t in s.wokenTx && s.pc[t].phase == Check
    ensures Enabled(c, s, CheckQueue(t, woken))
    ensures var s' := Do(c, s, CheckQueue(t, woken)); RoomForMore(c, s') && s'.wokenTx == s.wokenTx - {t}
  {
    woken := CheckSends(c, s, t);
    StepKeeps(c, s, CheckQueue(t, woken));
    StepFits(c, s, CheckQueue(t, woken));
    assert |s.wokenTx - {t}| == |s.wokenTx| - 1;
  }

  /** From s one gets to s' without a reset. */
  ghost predicate Leads(c: Config, s: State, run: seq<Step>, s': State) {
    Executes(c, s, run) && NoReset(run) && RunTo(c, s, run) == s'
  }

  lemma LeadsOn(c: Config, s: State, run: seq<Step>, s1: State, step: Step) returns (run': seq<Step>)
    requires Leads(c, s, run, s1) && Enabled(c, s1, step) && !step.Reset?
    ensures Leads(c, s, run', Do(c, s1, step))
  {
    run' := GoOn(c, s, run, s1, step, Do(c, s1, step));
  }

  lemma OneSends(c: Config, s0: State, run0: seq<Step>, s: State, t: Task) returns (run: seq<Step>, s': State)
    requires RoomForMore(c, s) && Leads(c, s0, run0, s) && t in s.wokenTx && s.pc[t].phase == Check
    ensures Leads(c, s0, run, s') && RoomForMore(c, s') && s'.wokenTx == s.wokenTx - {t}
  {
    var woken := SentLeavesRoom(c, s, t);
    s' := Do(c, s, CheckQueue(t, woken));
    run := LeadsOn(c, s0, run0, s, CheckQueue(t, woken));
  }

  lemma {:induction false} AllSend(c: Config, s0: State, run0: seq<Step>, s: State) returns (run: seq<Step>, s': State)
    requires RoomForMore(c, s) && Leads(c, s0, run0, s)
    ensures Leads(c, s0, run, s') && Lost(c, s')
    decreases |s.wokenTx|
  {
    run, s' := run0, s;
    if s.wokenTx != {} {
      var t :| t in s.wokenTx;
      if s.pc[t].phase != Check {
        WokenArrives(c, s', t);
        run := LeadsOn(c, s0, run, s', WakeUp(t));
        s' := Do(c, s', WakeUp(t));
      }
      run, s' := OneSends(c, s0, run, s', t);
      run, s' := AllSend(c, s0, run, s');
    }
  }

  /** Some run without another reset ends with a lost wake-up. */
  ghost predicate CanLose(c: Config, s: State) {
    exists run :: Executes(c, s, run) && NoReset(run) && Lost(c, RunTo(c, s, run))
  }

  lemma RoomAfterReset(c: Config, s: State, t: Task, woken: set<Task>)
    requires Inv(c, s) && Credible(c) && OverwritesFit(c, s) && Enabled(c, s, Reset(t, woken))
    requires |s.toSend| > 1 && c.length > |s.wokenTx| + 1
    ensures RoomForMore(c, Do(c, s, Reset(t, woken)))
  {
    StepKeeps(c, s, Reset(t, woken));
    StepFits(c, s, Reset(t, woken));
    assert |s.toSend - woken| == |s.toSend| - |woken|;
  }

  lemma RoomCanLose(c: Config, s: State)
    requires RoomForMore(c, s)
    ensures CanLose(c, s)
  {
    var run, _ := AllSend(c, s, [], s);
  }

  /** With the send-side bound no wake-up can be lost. */
  lemma BoundCannotLose(c: Config, s: State)
    requires Inv(c, s) && Credible(c) && SendBound(c, s)
    ensures !CanLose(c, s)
  {
    forall run | Executes(c, s, run) && NoReset(run) ensures !Lost(c, RunTo(c, s, run)) {
      RunKeeps(c, s, run);
    }
  }

  /** A reset can lose a wake-up if and only if more than one sender sleeps and the queue has more places
      than there are senders on their way, the one the reset wakes included. */
  lemma ResetLosesIff(c: Config, s: State, t: Task, woken: set<Task>)
    requires Inv(c, s) && Credible(c) && OverwritesFit(c, s) && Enabled(c, s, Reset(t, woken))
    ensures CanLose(c, Do(c, s, Reset(t, woken))) <==> |s.toSend| > 1 && c.length > |s.wokenTx| + 1
  {
    if |s.toSend| > 1 && c.length > |s.wokenTx| + 1 {
      RoomAfterReset(c, s, t, woken);
      RoomCanLose(c, Do(c, s, Reset(t, woken)));
    } else {
      StepKeeps(c, s, Reset(t, woken));
      ResetKeepsSendBoundIff(c, s, t, woken);
      BoundCannotLose(c, Do(c, s, Reset(t, woken)));
    }
  }

  /** In every run, whatever led up to the reset. */
  lemma ReachableResetLosesIff(c: Config, steps: seq<Step>, t: Task, woken: set<Task>)
    requires Credible(c) && Executes(c, Init(c), steps) && Enabled(c, RunTo(c, Init(c), steps), Reset(t, woken))
    ensures var s := RunTo(c, Init(c), steps);
            CanLose(c, Do(c, s, Reset(t, woken))) <==> |s.toSend| > 1 && c.length > |s.wokenTx| + 1
  {
    RunKeeps(c, Init(c), steps);
    RunFits(c, Init(c), steps);
    ResetLosesIff(c, RunTo(c, Init(c), steps), t, woken);
  }

  // ---- what a call returns, and when

  /** t is in its call before and back from it after. */
  ghost predicate Returns(s: State, s': State, t: Task) {
    t < |s.pc| == |s'.pc| && s.pc[t].phase != Idle && s'.pc[t].phase == Idle
  }

  /** What a call that passes does to the messages: one is taken, seen, added, or put in the only place. */
  predicate MovesOne(c: Config, n: nat, n': nat, call: Call) {
    match call
    case Receive => n > 0 && n' == n - 1
    case Peek => n > 0 && n' == n
    case Send => n < c.length && n' == n + 1
    case Overwrite => c.length == 1 && n' == 1
  }

  /** Only a call with time left goes on to wait; one whose time has run out does not wait again. */
  predicate Patience(pc: Pc) {
    match pc.phase
    case Idle => true
    case Check => true
    case UnlockTx => pc.call != Overwrite && (pc.patient <==> pc.after != Expire)
    case UnlockRx => pc.call != Overwrite && (pc.patient <==> pc.after != Expire)
    case Resume => pc.call != Overwrite && (pc.patient <==> pc.after != Expire)
    case LastLook => Reads(pc.call) && !pc.patient
    case _ => pc.call != Overwrite && pc.patient
  }

  ghost predicate PatienceOk(s: State) {
    forall t :: 0 <= t < |s.pc| ==> Patience(s.pc[t])
  }

  lemma PatienceKept(c: Config, s: State, step: Step)
    requires PatienceOk(s) && Enabled(c, s, step)
    ensures PatienceOk(Do(c, s, step))
  {
    if step.CheckQueue? {
      CheckPatience(c, s, step.t, step.woken);
    } else {
      OtherPatience(c, s, step);
    }
  }

  lemma CheckPatience(c: Config, s: State, t: Task, woken: set<Task>)
    requires PatienceOk(s) && Enabled(c, s, CheckQueue(t, woken))
    ensures PatienceOk(DoCheck(c, s, t, woken))
  {
    CheckMovesOnly(c, s, t, woken);
    assert Patience(DoCheck(c, s, t, woken).pc[t]);
  }

  lemma OtherPatience(c: Config, s: State, step: Step)
    requires PatienceOk(s) && Enabled(c, s, step) && !step.CheckQueue?
    ensures PatienceOk(Do(c, s, step))
  {
  }

  lemma {:induction false} PatienceAfter(c: Config, s: State, steps: seq<Step>)
    requires PatienceOk(s) && Executes(c, s, steps)
    ensures PatienceOk(RunTo(c, s, steps))
    decreases |steps|
  {
    if steps != [] {
      PatienceKept(c, s, steps[0]);
      PatienceAfter(c, Do(c, s, steps[0]), steps[1..]);
    }
  }

  /** A check returns at once, except that a call with time left waits for a stuck queue; it passes
      exactly if the queue is not stuck, and then it moves one item. */
  lemma CheckMeans(c: Config, s: State, t: Task, woken: set<Task>)
    requires LockOk(c, s) && Enabled(c, s, CheckQueue(t, woken))
    ensures var s', pc := Do(c, s, CheckQueue(t, woken)), s.pc[t];
            && (Returns(s, s', t) <==> !Stuck(c, s.n, pc.call) || !pc.patient)
            && (Stuck(c, s.n, pc.call) ==> s'.n == s.n && (!pc.patient ==> !s'.pc[t].passed))
            && (!Stuck(c, s.n, pc.call) ==> s'.pc[t].passed && MovesOne(c, s.n, s'.n, pc.call))
  {
    CheckShows(c, s, t, woken);
  }

  /** What the check leaves of the count and of t. */
  lemma CheckShows(c: Config, s: State, t: Task, woken: set<Task>)
    requires t < |s.pc| && s.n <= c.length && (s.pc[t].call == Overwrite ==> c.length == 1)
    ensures var s', pc := DoCheck(c, s, t, woken), s.pc[t];
            && |s'.pc| == |s.pc|
            && (Stuck(c, s.n, pc.call) ==> s'.n == s.n)
            && (Stuck(c, s.n, pc.call) ==>
                  s'.pc[t] == if pc.patient then pc.(phase := Suspend) else pc.(phase := Idle, passed := false))
            && (!Stuck(c, s.n, pc.call) ==> MovesOne(c, s.n, s'.n, pc.call))
            && (!Stuck(c, s.n, pc.call) ==> s'.pc[t] == pc.(phase := Idle, passed := true))
  {
  }

  /** What a call has done when it returns. */
  lemma ReturnMeans(c: Config, s: State, step: Step, t: Task)
    requires LockOk(c, s) && PatienceOk(s) && Enabled(c, s, step) && Returns(s, Do(c, s, step), t)
    ensures var s', pc := Do(c, s, step), s.pc[t];
            && (s'.pc[t].passed ==> MovesOne(c, s.n, s'.n, pc.call))
            && (!s'.pc[t].passed ==> s'.n == s.n && !pc.patient && (Reads(pc.call) ==> s.n == 0))
  {
    if step.CheckQueue? {
      CheckMovesOnly(c, s, step.t, step.woken);
      CheckShows(c, s, step.t, step.woken);
    } else {
      OtherReturns(c, s, step, t);
    }
  }

  /** Otherwise a call returns without an item, because its time is up. */
  lemma OtherReturns(c: Config, s: State, step: Step, t: Task)
    requires PatienceOk(s) && Enabled(c, s, step) && !step.CheckQueue? && Returns(s, Do(c, s, step), t)
    ensures var s', pc := Do(c, s, step), s.pc[t];
            !s'.pc[t].passed && s'.n == s.n && !pc.patient && (Reads(pc.call) ==> s.n == 0)
  {
    assert Patience(s.pc[t]);
  }

  /** Whether, after these steps, t's call has no block time or its time has run out. */
  function TimeIsUp(steps: seq<Step>, t: Task, up: bool): bool {
    if steps == [] then up else TimeIsUp(steps[1..], t, UpAfter(steps[0], t, up))
  }

  predicate UpAfter(step: Step, t: Task, up: bool) {
    if step.Begin? && step.t == t then !step.patient else if step == TestQueue(t, true) then true else up
  }

  lemma TimeStep(c: Config, s: State, step: Step, t: Task)
    requires Enabled(c, s, step) && t < |s.pc|
    ensures t < |Do(c, s, step).pc| && !Do(c, s, step).pc[t].patient == UpAfter(step, t, !s.pc[t].patient)
  {
    if step.CheckQueue? {
      CheckMovesOnly(c, s, step.t, step.woken);
    } else {
      OtherTimeStep(c, s, step, t);
    }
  }

  lemma OtherTimeStep(c: Config, s: State, step: Step, t: Task)
    requires Enabled(c, s, step) && t < |s.pc| && !step.CheckQueue?
    ensures t < |Do(c, s, step).pc| && !Do(c, s, step).pc[t].patient == UpAfter(step, t, !s.pc[t].patient)
  {
  }

  lemma CheckMovesOnly(c: Config, s: State, t: Task, woken: set<Task>)
    requires t < |s.pc|
    ensures var s' := DoCheck(c, s, t, woken);
            |s'.pc| == |s.pc| && s'.pc == s.pc[t := s'.pc[t]] && s'.pc[t].patient == s.pc[t].patient
  {
  }

  lemma {:induction false} TimeTold(c: Config, s: State, steps: seq<Step>, t: Task)
    requires Executes(c, s, steps) && t < |s.pc|
    ensures t < |RunTo(c, s, steps).pc| && !RunTo(c, s, steps).pc[t].patient == TimeIsUp(steps, t, !s.pc[t].patient)
    decreases |steps|
  {
    if steps != [] {
      TimeStep(c, s, steps[0], t);
      TimeTold(c, Do(c, s, steps[0]), steps[1..], t);
    }
  }

  /** In every run a call returns empty or full only if it was not willing to wait or its time has run
      out, and a receive or a peek then leaves an empty queue; a call that passes has moved one item. */
  lemma ReturnsInEveryRun(c: Config, steps: seq<Step>, step: Step, t: Task)
    requires Credible(c) && Executes(c, Init(c), steps) && Enabled(c, RunTo(c, Init(c), steps), step)
    requires Returns(RunTo(c, Init(c), steps), Do(c, RunTo(c, Init(c), steps), step), t)
    ensures var s := RunTo(c, Init(c), steps);
            var s', call := Do(c, s, step), s.pc[t].call;
            && (s'.pc[t].passed ==> MovesOne(c, s.n, s'.n, call))
            && (!s'.pc[t].passed ==> TimeIsUp(steps, t, true) && s'.n == s.n && (Reads(call) ==> s.n == 0))
  {
    SoundAfter(c, steps);
    ReturnMeans(c, RunTo(c, Init(c), steps), step, t);
    TimeTold(c, Init(c), steps, t);
  }

  lemma SoundAfter(c: Config, steps: seq<Step>)
    requires Credible(c) && Executes(c, Init(c), steps)
    ensures LockOk(c, RunTo(c, Init(c), steps)) && PatienceOk(RunTo(c, Init(c), steps))
  {
    RunKeeps(c, Init(c), steps);
    PatienceAfter(c, Init(c), steps);
  }

  /** Nobody is put to sleep against its will. */
  lemma SleepersAreWilling(c: Config, steps: seq<Step>, t: Task)
    requires Credible(c) && Executes(c, Init(c), steps)
    requires var s := RunTo(c, Init(c), steps); t in s.toReceive || t in s.toSend
    ensures !TimeIsUp(steps, t, true)
  {
    RunKeeps(c, Init(c), steps);
    PatienceAfter(c, Init(c), steps);
    TimeTold(c, Init(c), steps, t);
  }

  /** Nothing but a call that passes, an interrupt or a reset changes the number of messages. */
  lemma OnlyPassingMoves(c: Config, s: State, step: Step)
    requires Enabled(c, s, step) && Do(c, s, step).n != s.n
    ensures || (step.CheckQueue? && Returns(s, Do(c, s, step), step.t) && Do(c, s, step).pc[step.t].passed)
            || step.IsrSend? || step.IsrReceive? || (step.Reset? && Do(c, s, step).n == 0)
  {
  }

  /** Messages a step adds, as callers see it: a send that passes, or one from an interrupt that finds room. */
  ghost function Added(c: Config, s: State, step: Step): nat
    requires Enabled(c, s, step)
  {
    match step
    case IsrSend(_, _) => if s.n < c.length then 1 else 0
    case CheckQueue(t, _) => if Passes(c, s, step, t) && s.pc[t].call == Send then 1 else 0
    case _ => 0
  }

  ghost function Removed(c: Config, s: State, step: Step): nat
    requires Enabled(c, s, step)
  {
    match step
    case IsrReceive(_) => if s.n > 0 then 1 else 0
    case CheckQueue(t, _) => if Passes(c, s, step, t) && s.pc[t].call == Receive then 1 else 0
    case _ => 0
  }

  ghost predicate Passes(c: Config, s: State, step: Step, t: Task)
    requires Enabled(c, s, step)
  {
    Returns(s, Do(c, s, step), t) && Do(c, s, step).pc[t].passed
  }

  ghost function AllAdded(c: Config, s: State, steps: seq<Step>): nat
    requires Executes(c, s, steps)
    decreases |steps|
  {
    if steps == [] then 0 else Added(c, s, steps[0]) + AllAdded(c, Do(c, s, steps[0]), steps[1..])
  }

  ghost function AllRemoved(c: Config, s: State, steps: seq<Step>): nat
    requires Executes(c, s, steps)
    decreases |steps|
  {
    if steps == [] then 0 else Removed(c, s, steps[0]) + AllRemoved(c, Do(c, s, steps[0]), steps[1..])
  }

  lemma StepConserves(c: Config, s: State, step: Step)
    requires Enabled(c, s, step) && !step.Reset? && OverwritesFit(c, s) && c.length != 1
    ensures Do(c, s, step).n + Removed(c, s, step) == s.n + Added(c, s, step)
  {
  }

  /** Messages are conserved in every run without a reset: what is in the queue is what was added less
      what was removed.  (A queue of length one, the only one that may be overwritten, is left out.) */
  lemma {:induction false} MessagesConserved(c: Config, s: State, steps: seq<Step>)
    requires Executes(c, s, steps) && NoReset(steps) && OverwritesFit(c, s) && c.length != 1
    ensures RunTo(c, s, steps).n + AllRemoved(c, s, steps) == s.n + AllAdded(c, s, steps)
    decreases |steps|
  {
    if steps != [] {
      StepConserves(c, s, steps[0]);
      StepFits(c, s, steps[0]);
      MessagesConserved(c, Do(c, s, steps[0]), steps[1..]);
    }
  }

  /** A set of waiters after an event took one of them off the list, if there was one. */
  ghost predicate OneGone(waiting: set<Task>, left: set<Task>) {
    left <= waiting && |left| == Less(|waiting|, 1)
  }

  lemma TakenOff(waiting: set<Task>, woken: set<Task>)
    requires OneOf(woken, waiting)
    ensures OneGone(waiting, waiting - woken)
  {
    assert |waiting - woken| == |waiting| - |woken|;
  }

  /** A call that passes wakes one task: a receive a sender, anything else a receiver; no other goes. */
  lemma PassingWakesOne(c: Config, s: State, t: Task, woken: set<Task>)
    requires Enabled(c, s, CheckQueue(t, woken)) && s.n <= c.length
    ensures var s', call := DoCheck(c, s, t, woken), s.pc[t].call;
            && (Stuck(c, s.n, call) ==> s'.toSend == s.toSend && s'.toReceive == s.toReceive)
            && (!Stuck(c, s.n, call) && call == Receive ==>
                  OneGone(s.toSend, s'.toSend) && s'.toReceive == s.toReceive)
            && (!Stuck(c, s.n, call) && call != Receive ==>
                  OneGone(s.toReceive, s'.toReceive) && s'.toSend == s.toSend)
  {
    CheckLists(c, s, t, woken);
    if !Stuck(c, s.n, s.pc[t].call) {
      TakenOff(if s.pc[t].call == Receive then s.toSend else s.toReceive, woken);
    }
  }

  lemma CheckLists(c: Config, s: State, t: Task, woken: set<Task>)
    requires t < |s.pc| && s.n <= c.length
    ensures var s', call := DoCheck(c, s, t, woken), s.pc[t].call;
            && (Stuck(c, s.n, call) ==> s'.toSend == s.toSend && s'.toReceive == s.toReceive)
            && (!Stuck(c, s.n, call) && call == Receive ==>
                  s'.toSend == s.toSend - woken && s'.toReceive == s.toReceive)
            && (!Stuck(c, s.n, call) && call != Receive ==>
                  s'.toReceive == s.toReceive - woken && s'.toSend == s.toSend)
  {
  }

  /** A post from an interrupt adds a message if there is room, or puts it in the only place; it wakes
      one receiver, or while the queue is locked counts one more, at most one for each task. */
  lemma IsrSendMeans(c: Config, s: State, overwrite: bool, woken: set<Task>)
    requires Enabled(c, s, IsrSend(overwrite, woken)) && s.n <= c.length
    ensures var s' := Do(c, s, IsrSend(overwrite, woken));
            && s'.n == (if overwrite then 1 else if s.n < c.length then s.n + 1 else s.n)
            && s'.toSend == s.toSend && s'.cRx == s.cRx && s'.pc == s.pc && s'.suspended == s.suspended
            && (s.n == c.length && !overwrite ==> s' == s)
            && (s.n < c.length || overwrite ==>
                  if s.cTx == UNLOCKED then OneGone(s.toReceive, s'.toReceive) && s'.cTx == s.cTx
                  else s'.toReceive == s.toReceive && s'.cTx == if s.cTx < c.tasks then s.cTx + 1 else s.cTx)
  {
    if (s.n < c.length || overwrite) && s.cTx == UNLOCKED { TakenOff(s.toReceive, woken); }
  }

  /** The same for a receive from an interrupt. */
  lemma IsrReceiveMeans(c: Config, s: State, woken: set<Task>)
    requires Enabled(c, s, IsrReceive(woken))
    ensures var s' := Do(c, s, IsrReceive(woken));
            && s'.n == Less(s.n, 1)
            && s'.toReceive == s.toReceive && s'.cTx == s.cTx && s'.pc == s.pc && s'.suspended == s.suspended
            && (s.n == 0 ==> s' == s)
            && (s.n > 0 ==>
                  if s.cRx == UNLOCKED then OneGone(s.toSend, s'.toSend) && s'.cRx == s.cRx
                  else s'.toSend == s.toSend && s'.cRx == if s.cRx < c.tasks then s.cRx + 1 else s.cRx)
  {
    if s.n > 0 && s.cRx == UNLOCKED { TakenOff(s.toSend, woken); }
  }

  // ---- what comes of the second look

  lemma {:induction false} DrainExists(waiting: set<Task>, lock: int) returns (w: set<Task>)
    ensures Drained(w, waiting, lock)
    decreases Credit(lock)
  {
    if lock <= 0 || waiting == {} {
      w := {};
    } else {
      var t :| t in waiting;
      w := DrainExists(waiting - {t}, lock - 1);
      w := w + {t};
    }
  }

  /** Unlocking, whoever it wakes, gives everything back and lets t go on as `after` says. */
  lemma UnlocksTo(c: Config, s: State, t: Task, next: Pc) returns (run: seq<Step>, s': State)
    requires t < |s.pc| == c.tasks && s.suspended == Some(t) && s.pc[t].phase == UnlockTx && next == Resumed(s.pc[t])
    ensures Executes(c, s, run) && RunTo(c, s, run) == s' && s'.n == s.n && s'.suspended == None
    ensures s'.cTx == UNLOCKED && s'.cRx == UNLOCKED && s'.pc == s.pc[t := next]
    ensures s'.toReceive <= s.toReceive && s'.toSend <= s.toSend
  {
    var w1 := DrainExists(s.toReceive, s.cTx);
    var s1 := Goto(WakeReceivers(s, w1).(cTx := UNLOCKED), t, UnlockRx);
    var w2 := DrainExists(s1.toSend, s1.cRx);
    var s2 := Goto(WakeSenders(s1, w2).(cRx := UNLOCKED), t, Resume);
    s' := s2.(suspended := None, pc := s2.pc[t := Resumed(s2.pc[t])]);
    assert Goes(c, s2, ResumeAll(t), s');
    assert s'.pc == s.pc[t := next];
    run := ThreeOn(c, s, UnlockTxStep(t, w1), s1, UnlockRxStep(t, w2), s2, ResumeAll(t), s');
  }

  lemma ThreeOn(c: Config, s: State, a: Step, s1: State, b: Step, s2: State, d: Step, s3: State)
    returns (run: seq<Step>)
    requires Goes(c, s, a, s1) && Goes(c, s1, b, s2) && Goes(c, s2, d, s3)
    ensures Executes(c, s, run) && RunTo(c, s, run) == s3
  {
    assert Executes(c, s, []) && RunTo(c, s, []) == s;
    run := GoOn(c, s, [], s, a, s1);
    run := GoOn(c, s, run, s1, b, s2);
    run := GoOn(c, s, run, s2, d, s3);
  }

  /** The look taken with the queue locked: if the time is up, a send returns without another look and
      a receive or peek takes one last look; if the queue has changed, the call tries again; t is put
      on no list. */
  lemma SecondLook(c: Config, s: State, t: Task, expired: bool) returns (run: seq<Step>, s': State)
    requires CanRun(c, s, t) && s.suspended == Some(t) && s.pc[t].phase == Test && s.pc[t].call != Overwrite
    requires expired || !Stuck(c, s.n, s.pc[t].call)
    ensures Executes(c, s, run) && RunTo(c, s, run) == s' && s'.n == s.n && s'.suspended == None && |s'.pc| == |s.pc|
    ensures s'.cTx == UNLOCKED && s'.cRx == UNLOCKED && s'.toReceive <= s.toReceive && s'.toSend <= s.toSend
    ensures s'.pc[t].call == s.pc[t].call && s'.pc[t].phase ==
              if !expired then Check else if s.pc[t].call == Send then Idle else LastLook
    ensures if expired then !s'.pc[t].patient else s'.pc[t].patient == s.pc[t].patient
    ensures expired && s.pc[t].call == Send ==> !s'.pc[t].passed
  {
    var s1 := Do(c, s, TestQueue(t, expired));
    assert Executes(c, s, []) && RunTo(c, s, []) == s;
    var run1 := GoOn(c, s, [], s, TestQueue(t, expired), s1);
    var run2;
    run2, s' := UnlocksTo(c, s1, t, Resumed(s1.pc[t]));
    RunsOn(c, s, run1, run2);
    run := run1 + run2;
  }

  /** The last look: a receive or peek whose time is up returns if the queue is empty, and otherwise
      tries once more. */
  lemma LastLookMeans(c: Config, s: State, t: Task)
    requires PatienceOk(s) && Enabled(c, s, LookAgain(t))
    ensures var s' := Do(c, s, LookAgain(t));
            && s'.n == s.n && (s.n == 0 <==> Returns(s, s', t))
            && (s.n == 0 ==> !s'.pc[t].passed) && (s.n > 0 ==> s'.pc[t].phase == Check && !s'.pc[t].patient)
  {
  }

  /** A time-out takes a sleeping task off its list, and only that; it can then go on to check again. */
  lemma TimeOutWakes(c: Config, s: State, t: Task)
    requires Inv(c, s) && Enabled(c, s, TimeOut(t))
    ensures var s' := Do(c, s, TimeOut(t));
            && s'.toReceive == s.toReceive - {t} && s'.toSend == s.toSend - {t}
            && s'.pc == s.pc && s'.n == s.n
            && (s.pc[t].phase == Waiting && s.suspended == None ==>
                  Enabled(c, s', WakeUp(t)) && Do(c, s', WakeUp(t)).pc[t] == s.pc[t].(phase := Check))
  {
  }

  /** The loop of prvUnlockQueue takes one waiter off the list per count, until either runs out. */
  method UnlockLoop(lock: int, waiting: set<Task>) returns (woken: set<Task>, left: set<Task>)
    ensures Drained(woken, waiting, lock) && left == waiting - woken
  {
    var count := lock;
    woken, left := {}, waiting;
    while count > 0 && left != {}
      invariant woken <= waiting && left == waiting - woken
      invariant |woken| + Credit(count) == Credit(lock)
      decreases count
    {
      var head :| head in left;
      left := left - {head};
      woken := woken + {head};
      count := count - 1;
    }
    assert |waiting| == |woken| + |left| by {
      assert waiting == woken + left;
    }
  }
}
