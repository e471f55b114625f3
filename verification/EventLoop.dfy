/** The Furi event loop (furi/core/event_loop.c) with message queues (furi/core/message_queue.c) as its event
    sources, as interleaved steps. */
module EventLoop {
  import opened Common

  // The loop thread takes its notification bits, dispatches one of them and blocks again; callbacks
  // run on it and may subscribe, unsubscribe, pend work or start timers.  Any other thread or
  // interrupt may at any time operate on a queue and, as a second step, notify the queue's link.
  // A step is one critical section, or one stretch of code that only the loop thread can see.  Which
  // callbacks start in a run is read off its steps and phases, and so is what callers have pended.
  // Subscriptions carry no Once flag.

  type Obj = nat
  type ItemId = nat

  datatype Flag = Event | Stop | Timer | Pending | ThreadFlag

  datatype Direction = In | Out

  datatype Item = Item(obj: Obj, direction: Direction, edge: bool)

  datatype Queue = Queue(count: nat, capacity: nat)

  /** Where the loop thread is.  `held` are the bits it took and will restore. */
  datatype Phase =
    | Wait
    | PopItem(held: set<Flag>)
    | Popped(item: ItemId, held: set<Flag>)
    | InCallback(item: ItemId, held: set<Flag>)
    | Recheck(item: ItemId, held: set<Flag>)
    | Decided(item: ItemId, incomplete: bool, held: set<Flag>)
    | Notifying(held: set<Flag>)
    | Sync(held: set<Flag>)
    | TimerWork(held: set<Flag>)
    | Restore(held: set<Flag>)
    | PendingLoop
    | PendingCallback
    | UserCode           // set-up code, timer, tick and thread-flag callbacks
    | Stopped
    | Crashed

  datatype Sources = Sources(
    queues: map<Obj, Queue>,
    inflight: multiset<(Obj, Direction)>)   // queue operations whose link notify is still to come

  datatype Registry = Registry(
    tree: map<Obj, ItemId>,
    items: map<ItemId, Item>,               // allocated items
    links: map<(Obj, Direction), ItemId>,   // item_in and item_out of each queue's link
    orphan: bool,                           // the current item was unsubscribed in its callback
    nextId: ItemId,
    freed: seq<ItemId>)                     // history: items freed

  datatype Deferred = Deferred(
    pending: seq<nat>,                      // oldest first
    pended: seq<nat>,                       // history: callbacks pended
    ran: seq<nat>)                          // history: callbacks started

  datatype State = State(
    src: Sources,
    reg: Registry,
    waiting: seq<ItemId>,
    flags: set<Flag>,
    timerRequests: nat,
    deferred: Deferred,
    phase: Phase)

  datatype QueueOp = Put | Get | Reset

  datatype Step =
    | Operate(op: QueueOp, obj: Obj)
    | LinkNotify(obj: Obj, direction: Direction)
    | SetFlag(flag: Flag)
    | Loop(expired: bool)
    | Subscribe(obj: Obj, direction: Direction, edge: bool)
    | Unsubscribe(obj: Obj)
    | RequestTimer
    | Pend(callback: nat)

  /** furi_message_queue_event_loop_get_level. */
  predicate Level(q: Queue, direction: Direction) {
    if direction == In then q.count > 0 else q.count < q.capacity
  }

  predicate ItemLevel(src: Sources, reg: Registry, i: ItemId) {
    i in reg.items && reg.items[i].obj in src.queues && Level(src.queues[reg.items[i].obj], reg.items[i].direction)
  }

  function Current(p: Phase): Option<ItemId> {
    match p
    case Popped(i, _) => Some(i)
    case InCallback(i, _) => Some(i)
    case Recheck(i, _) => Some(i)
    case Decided(i, _, _) => Some(i)
    case _ => None
  }

  predicate RunsUserCode(p: Phase) {
    p.InCallback? || p.PendingCallback? || p.UserCode?
  }

  function Push(waiting: seq<ItemId>, i: ItemId): seq<ItemId> {
    if i in waiting then waiting else waiting + [i]
  }

  function LinkOf(reg: Registry, obj: Obj, direction: Direction): Option<ItemId> {
    if (obj, direction) in reg.links then Some(reg.links[(obj, direction)]) else None
  }

  /** furi_event_loop_item_notify inside a critical section: list and bit change together. */
  function NotifyItem(s: State, i: ItemId): State {
    s.(waiting := Push(s.waiting, i), flags := s.flags + {Event})
  }

  predicate OperateEnabled(src: Sources, op: QueueOp, obj: Obj) {
    && obj in src.queues
    && (op == Put ==> src.queues[obj].count < src.queues[obj].capacity)
    && (op == Get ==> src.queues[obj].count > 0)
  }

  /** The queue operation of furi_message_queue_put, _get and _reset; the notify follows later. */
  function DoOperate(src: Sources, op: QueueOp, obj: Obj): Sources
    requires OperateEnabled(src, op, obj)
  {
    var q := src.queues[obj];
    var count := match op case Put => q.count + 1 case Get => q.count - 1 case Reset => 0;
    Sources(src.queues[obj := q.(count := count)],
            src.inflight + multiset{(obj, if op == Put then In else Out)})
  }

  /** furi_event_loop_link_notify: the whole of it runs in one critical section. */
  function DoLinkNotify(s: State, obj: Obj, direction: Direction): State {
    var s1 := s.(src := s.src.(inflight := s.src.inflight - multiset{(obj, direction)}));
    match LinkOf(s.reg, obj, direction)
    case None => s1
    case Some(i) => NotifyItem(s1, i)
  }

  /** The dispatch on the bits taken by xTaskNotifyWait. */
  function Dispatch(f: set<Flag>): Phase {
    if Stop in f then Stopped
    else if Event in f then PopItem(f - {Event})
    else if Timer in f then TimerWork(f - {Timer})
    else if Pending in f then PendingLoop
    else if ThreadFlag in f then UserCode
    else Crashed
  }

  function FreeItem(reg: Registry, i: ItemId): Registry {
    reg.(items := reg.items - {i}, freed := reg.freed + [i])
  }

  function AddItem(reg: Registry, obj: Obj, direction: Direction, edge: bool): Registry {
    var i := reg.nextId;
    reg.(nextId := i + 1, items := reg.items[i := Item(obj, direction, edge)], tree := reg.tree[obj := i],
         links := reg.links[(obj, direction) := i])
  }

  /** furi_event_loop_object_subscribe. */
  function DoSubscribe(s: State, obj: Obj, direction: Direction, edge: bool): State {
    if LinkOf(s.reg, obj, direction).Some? then s.(phase := Crashed)
    else
      var s1 := s.(reg := AddItem(s.reg, obj, direction, edge));
      if !edge && obj in s.src.queues && Level(s.src.queues[obj], direction)
      then NotifyItem(s1, s.reg.nextId) else s1
  }

  /** furi_event_loop_unsubscribe, apart from the waiting list. */
  function RemoveItem(reg: Registry, obj: Obj, current: Option<ItemId>): Registry
    requires obj in reg.tree && reg.tree[obj] in reg.items
  {
    var i := reg.tree[obj];
    var reg1 := reg.(tree := reg.tree - {obj}, links := reg.links - {(obj, reg.items[i].direction)});
    if current == Some(i) then reg1.(orphan := true) else FreeItem(reg1, i)
  }

  function DoUnsubscribe(s: State, obj: Obj): State
    requires obj in s.reg.tree
  {
    var i := s.reg.tree[obj];
    if i !in s.reg.items || LinkOf(s.reg, obj, s.reg.items[i].direction) != Some(i) then s.(phase := Crashed)
    else s.(reg := RemoveItem(s.reg, obj, Current(s.phase)), waiting := Without(s.waiting, i))
  }

  predicate Enabled(s: State, step: Step) {
    match step
    case Operate(op, obj) => OperateEnabled(s.src, op, obj)
    case LinkNotify(obj, direction) => (obj, direction) in s.src.inflight
    case SetFlag(flag) => flag == Stop || flag == ThreadFlag
    case Loop(_) => Current(s.phase).Some? ==> Current(s.phase).value in s.reg.items
    case Subscribe(obj, _, _) => RunsUserCode(s.phase) && obj in s.src.queues && obj !in s.reg.tree
    case Unsubscribe(obj) => RunsUserCode(s.phase) && obj in s.reg.tree
    case RequestTimer => RunsUserCode(s.phase)
    case Pend(_) => RunsUserCode(s.phase)
  }

  /** The end of furi_event_loop_process_event and the switch on its status. */
  function DoFinish(s: State): State
    requires s.phase.Decided?
  {
    var Decided(i, incomplete, held) := s.phase;
    if s.reg.orphan then s.(reg := FreeItem(s.reg, i).(orphan := false), phase := Sync(held))
    else if incomplete then s.(waiting := Push(s.waiting, i), phase := Notifying(held))
    else s.(phase := Sync(held))
  }

  /** The next step of the loop thread; in user code, the return from it. */
  function DoLoop(s: State, expired: bool): State
    requires Current(s.phase).Some? ==> Current(s.phase).value in s.reg.items
  {
    match s.phase
    case Wait =>
      if s.flags != {} then s.(flags := {}, phase := Dispatch(s.flags))
      else if expired then s.(phase := UserCode) else s
    case PopItem(held) =>
      if s.waiting == [] then s.(phase := Restore(held))
      else s.(waiting := s.waiting[1..], phase := Popped(s.waiting[0], held))
    case Popped(i, held) =>
      s.(phase := if s.reg.items[i].edge || ItemLevel(s.src, s.reg, i)
                  then InCallback(i, held) else Decided(i, false, held))
    case InCallback(i, held) =>
      s.(phase := if s.reg.items[i].edge then Decided(i, false, held) else Recheck(i, held))
    case Recheck(i, held) => s.(phase := Decided(i, ItemLevel(s.src, s.reg, i), held))
    case Decided(_, _, _) => DoFinish(s)
    case Notifying(held) => s.(flags := s.flags + {Event}, phase := Sync(held))
    case Sync(held) => s.(flags := if s.waiting != [] then s.flags + {Event} else s.flags, phase := Restore(held))
    case Restore(held) => s.(flags := s.flags + held, phase := Wait)
    case TimerWork(held) => s.(timerRequests := 0, phase := Restore(held))
    case PendingLoop =>
      if s.deferred.pending == [] then s.(phase := Wait)
      else s.(deferred := s.deferred.(ran := s.deferred.ran + [s.deferred.pending[0]]), phase := PendingCallback)
    case PendingCallback =>
      if s.deferred.pending == [] then s.(phase := Crashed)
      else s.(deferred := s.deferred.(pending := s.deferred.pending[1..]), phase := PendingLoop)
    case UserCode => s.(phase := Wait)
    case Stopped => s
    case Crashed => s
  }

  function Do(s: State, step: Step): State
    requires Enabled(s, step)
  {
    match step
    case Operate(op, obj) => s.(src := DoOperate(s.src, op, obj))
    case LinkNotify(obj, direction) => DoLinkNotify(s, obj, direction)
    case SetFlag(flag) => s.(flags := s.flags + {flag})
    case Loop(expired) => DoLoop(s, expired)
    case Subscribe(obj, direction, edge) => DoSubscribe(s, obj, direction, edge)
    case Unsubscribe(obj) => DoUnsubscribe(s, obj)
    case RequestTimer => s.(timerRequests := s.timerRequests + 1, flags := s.flags + {Timer})
    case Pend(callback) =>
      s.(deferred := s.deferred.(pending := s.deferred.pending + [callback], pended := s.deferred.pended + [callback]),
         flags := s.flags + {Pending})
  }

  // ---- the invariant, in parts that read few fields each

  /** Tree, link slots and allocated items agree; one extra item lives on while its own callback
      runs after it was unsubscribed. */
  ghost predicate Registered(reg: Registry, current: Option<ItemId>) {
    && TreeOk(reg.tree, reg.items)
    && LinksOk(reg.tree, reg.items, reg.links)
    && (forall i :: i in reg.items ==> Subscribed(reg, i) || (reg.orphan && current == Some(i)))
    && (reg.orphan ==> current.Some?)
    && (current.Some? ==> current.value in reg.items && (Subscribed(reg, current.value) <==> !reg.orphan))
  }

  ghost predicate TreeOk(tree: map<Obj, ItemId>, items: map<ItemId, Item>) {
    forall o :: o in tree ==> tree[o] in items && items[tree[o]].obj == o
  }

  /** A link slot is filled exactly for a subscription in its direction, with the item in the tree. */
  ghost predicate LinksOk(tree: map<Obj, ItemId>, items: map<ItemId, Item>, links: map<(Obj, Direction), ItemId>) {
    && (forall k :: k in links ==>
          k.0 in tree && links[k] == tree[k.0] && links[k] in items && items[links[k]].direction == k.1)
    && (forall o :: o in tree && tree[o] in items ==> (o, items[tree[o]].direction) in links)
  }

  predicate Subscribed(reg: Registry, i: ItemId) {
    i in reg.items && reg.items[i].obj in reg.tree && reg.tree[reg.items[i].obj] == i
  }

  /** Every waiting item is subscribed and appears once. */
  ghost predicate WaitingOk(reg: Registry, waiting: seq<ItemId>) {
    && (forall k :: 0 <= k < |waiting| ==> Subscribed(reg, waiting[k]))
    && Distinct(waiting)
  }

  /** Every item ever made is either allocated or was freed, and freed exactly once. */
  ghost predicate FreedOnce(reg: Registry) {
    && (forall i :: i in reg.items ==> i < reg.nextId && i !in reg.freed)
    && (forall i :: i in reg.freed ==> i < reg.nextId)
    && (forall i :: 0 <= i < reg.nextId ==> i in reg.items || i in reg.freed)
    && Distinct(reg.freed)
  }

  /** The item is in the hands of the dispatcher, which will look at its level again. */
  predicate Dispatching(p: Phase, i: ItemId) {
    || (p.Popped? && p.item == i) || (p.InCallback? && p.item == i) || (p.Recheck? && p.item == i)
    || (p.Decided? && p.item == i && p.incomplete)
  }

  /** The level of the level-triggered subscription to o is true. */
  predicate Raised(src: Sources, reg: Registry, o: Obj) {
    && o in reg.tree && reg.tree[o] in reg.items && !reg.items[reg.tree[o]].edge
    && o in src.queues && Level(src.queues[o], reg.items[reg.tree[o]].direction)
  }

  /** No lost wake-up: the level of a level-triggered subscription is never true unnoticed. */
  ghost predicate Noticed(src: Sources, reg: Registry, waiting: seq<ItemId>, phase: Phase) {
    forall o :: Raised(src, reg, o) ==>
      || reg.tree[o] in waiting
      || Dispatching(phase, reg.tree[o])
      || (o, reg.items[reg.tree[o]].direction) in src.inflight
  }

  predicate BeforeSync(p: Phase) {
    p.PopItem? || p.Popped? || p.InCallback? || p.Recheck? || p.Decided? || p.Notifying? || p.Sync?
  }

  function Held(p: Phase): set<Flag> {
    match p
    case PopItem(h) => h
    case Popped(_, h) => h
    case InCallback(_, h) => h
    case Recheck(_, h) => h
    case Decided(_, _, h) => h
    case Notifying(h) => h
    case Sync(h) => h
    case TimerWork(h) => h
    case Restore(h) => h
    case _ => {}
  }

  /** Work that is queued has its bit set, is about to be given it back, or is being done. */
  ghost predicate FlagsOk(waiting: seq<ItemId>, timerRequests: nat, pending: seq<nat>, flags: set<Flag>, phase: Phase) {
    phase != Stopped ==>
      && (waiting != [] ==> Event in flags || BeforeSync(phase))
      && (timerRequests > 0 ==> Timer in flags || Timer in Held(phase) || phase.TimerWork?)
      && (pending != [] ==> Pending in flags || Pending in Held(phase) || phase.PendingLoop? || phase.PendingCallback?)
  }

  /** Pended callbacks are started once each, in the order they were pended. */
  ghost predicate PendingOk(d: Deferred, running: bool) {
    if running then d.pending != [] && d.pended == d.ran + d.pending[1..] else d.pended == d.ran + d.pending
  }

  ghost predicate Inv(s: State) {
    && Registered(s.reg, Current(s.phase))
    && WaitingOk(s.reg, s.waiting)
    && FreedOnce(s.reg)
    && Noticed(s.src, s.reg, s.waiting, s.phase)
    && FlagsOk(s.waiting, s.timerRequests, s.deferred.pending, s.flags, s.phase)
    && PendingOk(s.deferred, s.phase.PendingCallback?)
    && s.phase != Crashed
  }

  /** furi_event_loop_alloc, with the queues as the program left them. */
  function Init(queues: map<Obj, Queue>): State {
    State(Sources(queues, multiset{}), Registry(map[], map[], map[], false, 0, []), [], {}, 0,
          Deferred([], [], []), UserCode)
  }

  // ---- whole runs; that single steps keep the invariant is proved below

  ghost predicate Executes(s: State, steps: seq<Step>)
    decreases |steps|
  {
    steps != [] ==> Enabled(s, steps[0]) && Executes(Do(s, steps[0]), steps[1..])
  }

  ghost function RunTo(s: State, steps: seq<Step>): State
    requires Executes(s, steps)
    decreases |steps|
  {
    if steps == [] then s else RunTo(Do(s, steps[0]), steps[1..])
  }

  lemma {:induction false} RunKeeps(s: State, steps: seq<Step>)
    requires Inv(s) && Executes(s, steps)
    ensures Inv(RunTo(s, steps))
    decreases |steps|
  {
    if steps != [] {
      StepKeeps(s, steps[0]);
      RunKeeps(Do(s, steps[0]), steps[1..]);
    }
  }

  /** No lost wake-up, in every interleaving: if the level of a level-triggered subscription is
      true, its item is waiting, being dispatched, or a producer has yet to notify the link. */
  lemma NoLostWakeup(queues: map<Obj, Queue>, steps: seq<Step>, o: Obj)
    requires Executes(Init(queues), steps)
    requires var s := RunTo(Init(queues), steps); Raised(s.src, s.reg, o)
    ensures var s := RunTo(Init(queues), steps);
            var i := s.reg.tree[o];
            i in s.waiting || Dispatching(s.phase, i) || (o, s.reg.items[i].direction) in s.src.inflight
  {
    RunKeeps(Init(queues), steps);
  }

  /** At every blocking point, work that is queued has its notification bit set. */
  lemma BlockingPointFlags(queues: map<Obj, Queue>, steps: seq<Step>)
    requires Executes(Init(queues), steps) && RunTo(Init(queues), steps).phase.Wait?
    ensures var s := RunTo(Init(queues), steps);
            && (s.waiting != [] ==> Event in s.flags)
            && (s.timerRequests > 0 ==> Timer in s.flags)
            && (s.deferred.pending != [] ==> Pending in s.flags)
  {
    RunKeeps(Init(queues), steps);
  }

  /** So when the loop is about to block and no producer is half-way, a true level has woken it. */
  lemma BlockedLoopIsNotified(queues: map<Obj, Queue>, steps: seq<Step>, o: Obj)
    requires Executes(Init(queues), steps)
    requires var s := RunTo(Init(queues), steps);
             Raised(s.src, s.reg, o) && s.phase.Wait? && s.src.inflight == multiset{}
    ensures Event in RunTo(Init(queues), steps).flags
  {
    NoLostWakeup(queues, steps, o);
    BlockingPointFlags(queues, steps);
  }

  /** Bits the loop holds while it works come back to it. */
  lemma HeldBitsReturn(s: State, expired: bool, flag: Flag)
    requires Enabled(s, Loop(expired)) && flag in Held(s.phase)
    ensures var s' := DoLoop(s, expired); flag in Held(s'.phase) || flag in s'.flags
  {
  }

  /** The one arm that restores nothing: a thread-flag bit taken by a running loop is neither acted on nor
      held for later if and only if pending work was taken with it, and neither an event nor a timer. */
  lemma ThreadFlagLostIff(s: State, expired: bool)
    requires s.phase.Wait? && ThreadFlag in s.flags && Stop !in s.flags
    ensures var s' := DoLoop(s, expired);
            ThreadFlag !in s'.flags && ThreadFlag !in Held(s'.phase) && s'.phase != UserCode
            <==> Pending in s.flags && Event !in s.flags && Timer !in s.flags
  {
  }

  /** The furi_crash of the dispatch and the link-slot checks of subscribe and unsubscribe never fail. */
  lemma NeverCrashes(queues: map<Obj, Queue>, steps: seq<Step>)
    requires Executes(Init(queues), steps)
    ensures !RunTo(Init(queues), steps).phase.Crashed?
  {
    RunKeeps(Init(queues), steps);
  }

  ghost function Pends(steps: seq<Step>): seq<nat> {
    if steps == [] then [] else (if steps[0].Pend? then [steps[0].callback] else []) + Pends(steps[1..])
  }

  /** The pended callbacks that start in a run. */
  ghost function PendedStarts(s: State, steps: seq<Step>): seq<nat>
    requires Executes(s, steps)
    decreases |steps|
  {
    if steps == [] then []
    else PendedStartIn(s, Do(s, steps[0]).phase) + PendedStarts(Do(s, steps[0]), steps[1..])
  }

  function PendedStartIn(s: State, after: Phase): seq<nat> {
    if after.PendingCallback? && !s.phase.PendingCallback? && s.deferred.pending != [] then [s.deferred.pending[0]]
    else []
  }

  lemma RanStep(s: State, step: Step)
    requires Enabled(s, step)
    ensures Do(s, step).deferred.ran == s.deferred.ran + PendedStartIn(s, Do(s, step).phase)
  {
  }

  lemma {:induction false} PendedIsTrace(s: State, steps: seq<Step>)
    requires Executes(s, steps)
    ensures RunTo(s, steps).deferred.pended == s.deferred.pended + Pends(steps)
    decreases |steps|
  {
    if steps != [] {
      PendedIsTrace(Do(s, steps[0]), steps[1..]);
    }
  }

  lemma {:induction false} RanIsTrace(s: State, steps: seq<Step>)
    requires Executes(s, steps)
    ensures RunTo(s, steps).deferred.ran == s.deferred.ran + PendedStarts(s, steps)
    decreases |steps|
  {
    if steps != [] {
      RanStep(s, steps[0]);
      RanIsTrace(Do(s, steps[0]), steps[1..]);
    }
  }

  lemma PendingOkAfter(queues: map<Obj, Queue>, steps: seq<Step>)
    requires Executes(Init(queues), steps)
    ensures var s := RunTo(Init(queues), steps); PendingOk(s.deferred, s.phase.PendingCallback?)
  {
    RunKeeps(Init(queues), steps);
  }

  /** Pended callbacks start exactly once each and in the order they were pended. */
  lemma PendedRunInOrder(queues: map<Obj, Queue>, steps: seq<Step>)
    requires Executes(Init(queues), steps)
    ensures PendedStarts(Init(queues), steps) <= Pends(steps)
    ensures var d := RunTo(Init(queues), steps).deferred;
            && d.pended == Pends(steps) && d.ran == PendedStarts(Init(queues), steps)
            && |d.pended| <= |d.ran| + |d.pending|
            && (d.pending == [] ==> PendedStarts(Init(queues), steps) == Pends(steps))
  {
    PendingOkAfter(queues, steps);
    assert Init(queues).deferred.pended + Pends(steps) == Pends(steps);
    assert Init(queues).deferred.ran + PendedStarts(Init(queues), steps) == PendedStarts(Init(queues), steps);
    PendedIsTrace(Init(queues), steps);
    RanIsTrace(Init(queues), steps);
  }

  /** The lifetime of an item: it is freed at most once; while it is in the tree, in a link slot, on the
      waiting list or in its own callback, it has not been freed.  While no item is being dispatched,
      it has been freed exactly when it is no longer subscribed: none is leaked. */
  ghost predicate Lifetime(s: State, i: ItemId) {
    && Distinct(s.reg.freed) && Distinct(s.waiting)
    && (i < s.reg.nextId ==> (i in s.reg.items <==> i !in s.reg.freed))
    && ((i in s.reg.tree.Values || i in s.reg.links.Values || i in s.waiting || Current(s.phase) == Some(i)) ==>
          i in s.reg.items && i !in s.reg.freed)
    && (Current(s.phase) == None && i < s.reg.nextId ==> (Subscribed(s.reg, i) <==> i !in s.reg.freed))
  }

  /** Every item has such a lifetime in every interleaving, whatever callbacks unsubscribe. */
  lemma ItemLifetime(queues: map<Obj, Queue>, steps: seq<Step>, i: ItemId)
    requires Executes(Init(queues), steps)
    ensures Lifetime(RunTo(Init(queues), steps), i)
  {
    RunKeeps(Init(queues), steps);
  }

  // ---- which callbacks run

  /** What the loop finds when it looks at an item it took: whether its callback is due, because the
      subscription is edge-triggered or its level is true. */
  datatype Look = Look(item: ItemId, due: bool)

  predicate Due(src: Sources, reg: Registry, i: ItemId) {
    i in reg.items && (reg.items[i].edge || ItemLevel(src, reg, i))
  }

  function TakenIn(s: State, step: Step): seq<ItemId> {
    if step.Loop? && s.phase.PopItem? && s.waiting != [] then [s.waiting[0]] else []
  }

  function LooksIn(s: State, step: Step): seq<Look> {
    if step.Loop? && s.phase.Popped? then [Look(s.phase.item, Due(s.src, s.reg, s.phase.item))] else []
  }

  function StartedIn(before: Phase, after: Phase): seq<ItemId> {
    if after.InCallback? && !before.InCallback? then [after.item] else []
  }

  /** The items that the loop takes off its waiting list in a run. */
  ghost function Taken(s: State, steps: seq<Step>): seq<ItemId>
    requires Executes(s, steps)
    decreases |steps|
  {
    if steps == [] then [] else TakenIn(s, steps[0]) + Taken(Do(s, steps[0]), steps[1..])
  }

  ghost function Looks(s: State, steps: seq<Step>): seq<Look>
    requires Executes(s, steps)
    decreases |steps|
  {
    if steps == [] then [] else LooksIn(s, steps[0]) + Looks(Do(s, steps[0]), steps[1..])
  }

  /** The items whose callbacks start in a run. */
  ghost function Started(s: State, steps: seq<Step>): seq<ItemId>
    requires Executes(s, steps)
    decreases |steps|
  {
    if steps == [] then []
    else StartedIn(s.phase, Do(s, steps[0]).phase) + Started(Do(s, steps[0]), steps[1..])
  }

  function Seen(looks: seq<Look>): seq<ItemId> {
    seq(|looks|, k requires 0 <= k < |looks| => looks[k].item)
  }

  function DueItems(looks: seq<Look>): seq<ItemId> {
    if looks == [] then [] else (if looks[0].due then [looks[0].item] else []) + DueItems(looks[1..])
  }

  /** The item that was taken and not looked at yet. */
  function InHand(p: Phase): seq<ItemId> {
    if p.Popped? then [p.item] else []
  }

  /** How one step moves items: taken, then looked at, and its callback started if it is due. */
  lemma StepTaken(s: State, step: Step)
    requires Enabled(s, step) && s.phase != Crashed && Do(s, step).phase != Crashed
    ensures InHand(s.phase) + TakenIn(s, step) == Seen(LooksIn(s, step)) + InHand(Do(s, step).phase)
    ensures StartedIn(s.phase, Do(s, step).phase) == DueItems(LooksIn(s, step))
  {
    if LooksIn(s, step) != [] { assert LooksIn(s, step)[1..] == []; }
  }

  lemma OneLook(now: seq<Look>, later: seq<Look>)
    requires |now| <= 1
    ensures Seen(now + later) == Seen(now) + Seen(later) && DueItems(now + later) == DueItems(now) + DueItems(later)
  {
    if now == [] {
      assert now + later == later;
    } else {
      assert (now + later)[1..] == later && now[1..] == [];
    }
  }

  /** In every run, from the start on, each item taken off the waiting list is looked at once, in the
      order taken, and a callback starts exactly for each item found due, in that order. */
  lemma DueCallbacksStart(queues: map<Obj, Queue>, steps: seq<Step>)
    requires Executes(Init(queues), steps)
    ensures var s, looks := Init(queues), Looks(Init(queues), steps);
            && Taken(s, steps) == Seen(looks) + InHand(RunTo(s, steps).phase)
            && Started(s, steps) == DueItems(looks)
  {
    LooksFollow(Init(queues), steps);
  }

  lemma {:induction false} LooksFollow(s: State, steps: seq<Step>)
    requires Inv(s) && Executes(s, steps)
    ensures InHand(s.phase) + Taken(s, steps) == Seen(Looks(s, steps)) + InHand(RunTo(s, steps).phase)
    ensures Started(s, steps) == DueItems(Looks(s, steps))
    decreases |steps|
  {
    if steps != [] {
      var s' := Do(s, steps[0]);
      StepKeeps(s, steps[0]);
      StepTaken(s, steps[0]);
      LooksFollow(s', steps[1..]);
      OneLook(LooksIn(s, steps[0]), Looks(s', steps[1..]));
      TakenAlong(InHand(s.phase), TakenIn(s, steps[0]), Taken(s', steps[1..]), Seen(LooksIn(s, steps[0])),
                 InHand(s'.phase), Seen(Looks(s', steps[1..])), InHand(RunTo(s', steps[1..]).phase));
    }
  }

  lemma TakenAlong(hand: seq<ItemId>, taken: seq<ItemId>, later: seq<ItemId>, seen: seq<ItemId>, hand1: seq<ItemId>,
                   seenLater: seq<ItemId>, hand2: seq<ItemId>)
    requires hand + taken == seen + hand1 && hand1 + later == seenLater + hand2
    ensures hand + (taken + later) == (seen + seenLater) + hand2
  {
    assert hand + (taken + later) == (hand + taken) + later == seen + (hand1 + later);
  }

  // ---- and that they do run: the loop left to itself

  function Own(n: nat): seq<Step> {
    seq(n, _ => Loop(false))
  }

  /** The loop thread's own n next steps lead to t; callbacks return without doing anything. */
  ghost predicate Leads(s: State, n: nat, t: State) {
    Executes(s, Own(n)) && RunTo(s, Own(n)) == t
  }

  lemma LeadsNow(s: State)
    ensures Leads(s, 0, s)
  {
  }

  lemma LeadsStep(s: State, next: State, n: nat, t: State)
    requires Enabled(s, Loop(false)) && next == DoLoop(s, false) && Leads(next, n, t)
    ensures Leads(s, n + 1, t)
  {
    assert Own(n + 1)[1..] == Own(n);
  }

  lemma {:induction false} LeadsOn(s: State, n: nat, t: State, m: nat, u: State)
    requires Leads(s, n, t) && Leads(t, m, u)
    ensures Leads(s, n + m, u)
    decreases n
  {
    if n > 0 {
      assert Own(n)[1..] == Own(n - 1);
      var next := DoLoop(s, false);
      LeadsOn(next, n - 1, t, m, u);
      LeadsStep(s, next, n - 1 + m, u);
    }
  }

  /** The loop back at its blocking point, with the bits it held and, if items wait, the event bit. */
  function Blocked(s: State, waiting: seq<ItemId>, held: set<Flag>): State {
    s.(waiting := waiting, flags := (if waiting != [] then {Event} else {}) + held, phase := Wait)
  }

  lemma FromSync(s: State, held: set<Flag>) returns (n: nat)
    requires s.phase == Sync(held) && s.flags <= {Event} && (s.flags != {} ==> s.waiting != [])
    ensures Leads(s, n, Blocked(s, s.waiting, held))
  {
    var s1 := DoLoop(s, false);
    var s2 := DoLoop(s1, false);
    assert s2 == Blocked(s, s.waiting, held);
    LeadsNow(s2);
    LeadsStep(s1, s2, 0, s2);
    LeadsStep(s, s1, 1, s2);
    n := 2;
  }

  lemma FromDecided(s: State, i: ItemId, incomplete: bool, held: set<Flag>) returns (n: nat)
    requires s.phase == Decided(i, incomplete, held) && i in s.reg.items && !s.reg.orphan && s.flags == {}
    ensures Leads(s, n, Blocked(s, if incomplete then Push(s.waiting, i) else s.waiting, held))
  {
    var s1 := DoLoop(s, false);
    if incomplete {
      var s2 := DoLoop(s1, false);
      n := FromSync(s2, held);
      LeadsStep(s1, s2, n, Blocked(s2, s2.waiting, held));
      n := n + 1;
    } else {
      n := FromSync(s1, held);
    }
    LeadsStep(s, s1, n, Blocked(s1, if incomplete then Push(s.waiting, i) else s.waiting, held));
    n := n + 1;
  }

  /** An item in the dispatcher's hands, its callback running if it is due, and back to the blocking point. */
  lemma FromPopped(s: State, i: ItemId, held: set<Flag>) returns (n: nat, again: bool)
    requires s.phase == Popped(i, held) && i in s.reg.items && !s.reg.orphan && s.flags == {}
    ensures Leads(s, n, Blocked(s, if again then Push(s.waiting, i) else s.waiting, held))
  {
    var s1 := DoLoop(s, false);
    if s1.phase.Decided? {
      again := false;
      n := FromDecided(s1, i, again, held);
    } else {
      n, again := FromCallback(s1, i, held);
    }
    LeadsStep(s, s1, n, Blocked(s1, if again then Push(s.waiting, i) else s.waiting, held));
    n := n + 1;
  }

  lemma FromCallback(s: State, i: ItemId, held: set<Flag>) returns (n: nat, again: bool)
    requires s.phase == InCallback(i, held) && i in s.reg.items && !s.reg.orphan && s.flags == {}
    ensures Leads(s, n, Blocked(s, if again then Push(s.waiting, i) else s.waiting, held))
  {
    var s1 := DoLoop(s, false);
    if s1.phase.Recheck? {
      var s2 := DoLoop(s1, false);
      again := s2.phase.incomplete;
      n := FromDecided(s2, i, again, held);
      LeadsStep(s1, s2, n, Blocked(s2, if again then Push(s.waiting, i) else s.waiting, held));
      n := n + 1;
    } else {
      again := false;
      n := FromDecided(s1, i, again, held);
    }
    LeadsStep(s, s1, n, Blocked(s1, if again then Push(s.waiting, i) else s.waiting, held));
    n := n + 1;
  }

  /** The loop at its blocking point, not asked to stop. */
  ghost predicate AtRest(s: State) {
    && s.phase.Wait? && Stop !in s.flags && !s.reg.orphan && (s.waiting != [] ==> Event in s.flags)
    && Distinct(s.waiting) && forall i :: i in s.waiting ==> i in s.reg.items
  }

  lemma RestsInWait(s: State)
    requires Inv(s) && s.phase.Wait? && Stop !in s.flags
    ensures AtRest(s)
  {
    forall i | i in s.waiting ensures i in s.reg.items {
      var k :| 0 <= k < |s.waiting| && s.waiting[k] == i;
      assert Subscribed(s.reg, s.waiting[k]);
    }
  }

  lemma BlockedRests(s: State, rest: seq<ItemId>, i: ItemId, again: bool, held: set<Flag>, u: State)
    requires s.waiting == rest && Distinct([i] + rest) && !s.reg.orphan && Stop !in held
    requires forall x :: x == i || x in rest ==> x in s.reg.items
    requires u == Blocked(s, if again then Push(rest, i) else rest, held)
    ensures AtRest(u) && rest <= u.waiting
  {
    assert forall k :: 0 <= k < |rest| ==> ([i] + rest)[k + 1] == rest[k];
    assert ([i] + rest)[0] == i;
  }

  /** The first waiting item is taken. */
  lemma TakesFirst(s: State) returns (t: State)
    requires AtRest(s) && s.waiting != []
    ensures t == s.(waiting := s.waiting[1..], flags := {}, phase := Popped(s.waiting[0], s.flags - {Event}))
    ensures Leads(s, 2, t)
  {
    var s1 := DoLoop(s, false);
    t := DoLoop(s1, false);
    assert s1.phase == PopItem(s.flags - {Event});
    LeadsNow(t);
    LeadsStep(s1, t, 0, t);
    LeadsStep(s, s1, 1, t);
  }

  /** From the blocking point, unless it is told to stop, the loop starts the callback of every item on
      its waiting list that is due, wherever on the list it is. */
  lemma WaitingItemRuns(s: State, i: ItemId) returns (n: nat, t: State)
    requires AtRest(s) && i in s.waiting && Due(s.src, s.reg, i)
    ensures Leads(s, n, t) && t.phase.InCallback? && t.phase.item == i
  {
    var k :| 0 <= k < |s.waiting| && s.waiting[k] == i;
    n, t := ItemRunsAt(s, k);
  }

  lemma {:induction false} ItemRunsAt(s: State, k: nat) returns (n: nat, t: State)
    requires AtRest(s) && k < |s.waiting| && Due(s.src, s.reg, s.waiting[k])
    ensures Leads(s, n, t) && t.phase.InCallback? && t.phase.item == s.waiting[k]
    decreases k
  {
    var i, held := s.waiting[0], s.flags - {Event};
    t := TakesFirst(s);
    if k == 0 {
      var s3 := DoLoop(t, false);
      LeadsNow(s3);
      LeadsStep(t, s3, 0, s3);
      LeadsOn(s, 2, t, 1, s3);
      n, t := 3, s3;
    } else {
      var m, again := FromPopped(t, i, held);
      var u := Blocked(t, if again then Push(t.waiting, i) else t.waiting, held);
      LeadsOn(s, 2, t, m, u);
      assert s.waiting == [i] + t.waiting;
      BlockedRests(t, t.waiting, i, again, held, u);
      var n1, t1 := ItemRunsAt(u, k - 1);
      LeadsOn(s, 2 + m, u, n1, t1);
      n, t := 2 + m + n1, t1;
    }
  }

  /** A message has come in for a level-triggered subscription, or there is room for one to go out. */
  predicate Ready(src: Sources, reg: Registry, o: Obj) {
    && o in reg.tree && reg.tree[o] in reg.items && !reg.items[reg.tree[o]].edge && o in src.queues
    && (reg.items[reg.tree[o]].direction == In ==> src.queues[o].count > 0)
    && (reg.items[reg.tree[o]].direction == Out ==> src.queues[o].count < src.queues[o].capacity)
  }

  /** In every run, at a blocking point, with no stop request and no producer half-way: the callback of
      every level-triggered subscription to a ready queue will run. */
  lemma RaisedCallbackRuns(queues: map<Obj, Queue>, steps: seq<Step>, o: Obj) returns (n: nat, t: State)
    requires Executes(Init(queues), steps)
    requires var s := RunTo(Init(queues), steps);
             && s.phase.Wait? && Stop !in s.flags
             && Ready(s.src, s.reg, o) && (o, s.reg.items[s.reg.tree[o]].direction) !in s.src.inflight
    ensures var s := RunTo(Init(queues), steps);
            Leads(s, n, t) && t.phase.InCallback? && t.phase.item == s.reg.tree[o]
  {
    var s := RunTo(Init(queues), steps);
    NoLostWakeup(queues, steps, o);
    RestsAfter(queues, steps);
    LinkSlotFilled(queues, steps, o);
    n, t := WaitingItemRuns(s, s.reg.tree[o]);
  }

  lemma RestsAfter(queues: map<Obj, Queue>, steps: seq<Step>)
    requires Executes(Init(queues), steps)
    requires var s := RunTo(Init(queues), steps); s.phase.Wait? && Stop !in s.flags
    ensures AtRest(RunTo(Init(queues), steps))
  {
    RunKeeps(Init(queues), steps);
    RestsInWait(RunTo(Init(queues), steps));
  }

  /** And that of every edge-triggered subscription once its link has been notified, whatever its level. */
  lemma NotifiedEdgeRuns(queues: map<Obj, Queue>, steps: seq<Step>, o: Obj, direction: Direction)
    returns (n: nat, t: State)
    requires Executes(Init(queues), steps) && Enabled(RunTo(Init(queues), steps), LinkNotify(o, direction))
    requires var s := RunTo(Init(queues), steps);
             && s.phase.Wait? && Stop !in s.flags && o in s.reg.tree && s.reg.tree[o] in s.reg.items
             && s.reg.items[s.reg.tree[o]].direction == direction && s.reg.items[s.reg.tree[o]].edge
    ensures var s := RunTo(Init(queues), steps);
            && Leads(Do(s, LinkNotify(o, direction)), n, t)
            && t.phase.InCallback? && t.phase.item == s.reg.tree[o]
  {
    var s := RunTo(Init(queues), steps);
    RestsAfter(queues, steps);
    LinkSlotFilled(queues, steps, o);
    NotifiedRests(s, o, direction);
    n, t := WaitingItemRuns(DoLinkNotify(s, o, direction), s.reg.tree[o]);
  }

  lemma LinkSlotFilled(queues: map<Obj, Queue>, steps: seq<Step>, o: Obj)
    requires Executes(Init(queues), steps) && o in RunTo(Init(queues), steps).reg.tree
    ensures var reg := RunTo(Init(queues), steps).reg;
            && reg.tree[o] in reg.items && reg.items[reg.tree[o]].obj == o
            && LinkOf(reg, o, reg.items[reg.tree[o]].direction) == Some(reg.tree[o])
  {
    RunKeeps(Init(queues), steps);
    SlotOf(RunTo(Init(queues), steps).reg, o);
  }

  lemma SlotOf(reg: Registry, o: Obj)
    requires TreeOk(reg.tree, reg.items) && LinksOk(reg.tree, reg.items, reg.links) && o in reg.tree
    ensures && reg.tree[o] in reg.items && reg.items[reg.tree[o]].obj == o
            && LinkOf(reg, o, reg.items[reg.tree[o]].direction) == Some(reg.tree[o])
  {
  }

  lemma NotifiedRests(s: State, o: Obj, direction: Direction)
    requires AtRest(s) && LinkOf(s.reg, o, direction).Some? && LinkOf(s.reg, o, direction).value in s.reg.items
    ensures AtRest(DoLinkNotify(s, o, direction)) && DoLinkNotify(s, o, direction).reg == s.reg
    ensures LinkOf(s.reg, o, direction).value in DoLinkNotify(s, o, direction).waiting
  {
  }

  /** A loop with nothing on its waiting list serves the timer requests and runs everything that was pended. */
  lemma QuietLoopCatchesUp(queues: map<Obj, Queue>, steps: seq<Step>) returns (n: nat, t: State)
    requires Executes(Init(queues), steps)
    requires var s := RunTo(Init(queues), steps); s.phase.Wait? && Stop !in s.flags && s.waiting == []
    ensures Leads(RunTo(Init(queues), steps), n, t) && t.phase.Wait? && t.timerRequests == 0
    ensures t.deferred.pending == [] && t.deferred.ran == t.deferred.pended == Pends(steps)
  {
    var s := RunTo(Init(queues), steps);
    BlockingPointFlags(queues, steps);
    PendedRunInOrder(queues, steps);
    RanSoFar(queues, steps);
    var n1, s1 := SpuriousEvent(s);
    var n2, s2 := ServesTimers(s1);
    var n3, s3 := RunsPended(s2);
    LeadsOn(s, n1, s1, n2, s2);
    LeadsOn(s, n1 + n2, s2, n3, s3);
    n, t := n1 + n2 + n3, s3;
  }

  lemma RanSoFar(queues: map<Obj, Queue>, steps: seq<Step>)
    requires Executes(Init(queues), steps) && RunTo(Init(queues), steps).phase.Wait?
    ensures var d := RunTo(Init(queues), steps).deferred; d.pended == d.ran + d.pending
  {
    RunKeeps(Init(queues), steps);
  }

  lemma ThreeSteps(s: State, s1: State, s2: State, t: State)
    requires Enabled(s, Loop(false)) && s1 == DoLoop(s, false) && Enabled(s1, Loop(false)) && s2 == DoLoop(s1, false)
    requires Enabled(s2, Loop(false)) && t == DoLoop(s2, false)
    ensures Leads(s, 3, t)
  {
    LeadsNow(t);
    LeadsStep(s2, t, 0, t);
    LeadsStep(s1, s2, 1, t);
    LeadsStep(s, s1, 2, t);
  }

  lemma SpuriousEvent(s: State) returns (n: nat, t: State)
    requires s.phase.Wait? && Stop !in s.flags && s.waiting == []
    ensures Leads(s, n, t) && t == s.(flags := s.flags - {Event})
  {
    t := s.(flags := s.flags - {Event});
    if Event in s.flags {
      var s1 := DoLoop(s, false);
      ThreeSteps(s, s1, DoLoop(s1, false), t);
      n := 3;
    } else {
      assert t == s;
      LeadsNow(s);
      n := 0;
    }
  }

  lemma ServesTimers(s: State) returns (n: nat, t: State)
    requires s.phase.Wait? && Stop !in s.flags && Event !in s.flags && (s.timerRequests > 0 ==> Timer in s.flags)
    ensures Leads(s, n, t) && t == s.(flags := s.flags - {Timer}, timerRequests := 0)
  {
    t := s.(flags := s.flags - {Timer}, timerRequests := 0);
    if Timer in s.flags {
      var s1 := DoLoop(s, false);
      ThreeSteps(s, s1, DoLoop(s1, false), t);
      n := 3;
    } else {
      assert t == s;
      LeadsNow(s);
      n := 0;
    }
  }

  lemma RunsPended(s: State) returns (n: nat, t: State)
    requires s.phase.Wait? && s.flags !! {Stop, Event, Timer} && (s.deferred.pending != [] ==> Pending in s.flags)
    ensures Leads(s, n, t) && t.phase.Wait? && t.timerRequests == s.timerRequests
    ensures t.deferred == Deferred([], s.deferred.pended, s.deferred.ran + s.deferred.pending)
  {
    if Pending in s.flags {
      var s1 := DoLoop(s, false);
      n, t := PendedLoop(s1);
      LeadsStep(s, s1, n, t);
      n := n + 1;
    } else {
      LeadsNow(s);
      n, t := 0, s;
    }
  }

  lemma {:induction false} PendedLoop(s: State) returns (n: nat, t: State)
    requires s.phase.PendingLoop?
    ensures Leads(s, n, t)
    ensures t == s.(phase := Wait, deferred := Deferred([], s.deferred.pended, s.deferred.ran + s.deferred.pending))
    decreases |s.deferred.pending|
  {
    var s1 := DoLoop(s, false);
    if s.deferred.pending == [] {
      LeadsNow(s1);
      LeadsStep(s, s1, 0, s1);
      n, t := 1, s1;
      assert s.deferred.ran + [] == s.deferred.ran;
    } else {
      var s2 := DoLoop(s1, false);
      n, t := PendedLoop(s2);
      LeadsStep(s1, s2, n, t);
      LeadsStep(s, s1, n + 1, t);
      n := n + 2;
      assert s.deferred.pending == [s.deferred.pending[0]] + s.deferred.pending[1..];
      assert s2.deferred.ran + s2.deferred.pending == s.deferred.ran + s.deferred.pending;
    }
  }

  // ---- what comes of an item after its callback, and of a subscription

  /** Whether, at the last look after a callback, the level of a level-triggered item was still true. */
  ghost function StillRaised(s: State, steps: seq<Step>, last: bool): bool
    requires Executes(s, steps)
    decreases |steps|
  {
    if steps == [] then last
    else StillRaised(Do(s, steps[0]), steps[1..], LookAfter(s, steps[0], last))
  }

  ghost predicate LookAfter(s: State, step: Step, last: bool) {
    if step.Loop? && s.phase.Popped? then false
    else if step.Loop? && s.phase.Recheck? then
      !(s.phase.item in s.reg.items && s.reg.items[s.phase.item].edge) && ItemLevel(s.src, s.reg, s.phase.item)
    else last
  }

  ghost predicate LookKnown(p: Phase, items: map<ItemId, Item>, last: bool) {
    && (p.InCallback? ==> !last)
    && (p.Recheck? ==> p.item in items && !items[p.item].edge)
    && (p.Decided? ==> p.incomplete == last)
  }

  lemma LookKept(s: State, step: Step, last: bool)
    requires FreedOnce(s.reg) && Enabled(s, step) && LookKnown(s.phase, s.reg.items, last)
    ensures LookKnown(Do(s, step).phase, Do(s, step).reg.items, LookAfter(s, step, last))
  {
  }

  lemma {:induction false} LookRemembered(s: State, steps: seq<Step>, last: bool)
    requires Inv(s) && Executes(s, steps) && LookKnown(s.phase, s.reg.items, last)
    ensures var t := RunTo(s, steps); LookKnown(t.phase, t.reg.items, StillRaised(s, steps, last))
    decreases |steps|
  {
    if steps != [] {
      StepKeeps(s, steps[0]);
      LookKept(s, steps[0], last);
      LookRemembered(Do(s, steps[0]), steps[1..], LookAfter(s, steps[0], last));
    }
  }

  /** When the dispatch of an item ends, it goes back on the waiting list exactly if its subscription
      is level-triggered, its level was still true after its callback and it was not unsubscribed there;
      it is freed exactly if it was. */
  lemma PutBackIff(queues: map<Obj, Queue>, steps: seq<Step>)
    requires Executes(Init(queues), steps) && RunTo(Init(queues), steps).phase.Decided?
    ensures var s := RunTo(Init(queues), steps);
            var s', i := DoFinish(s), s.phase.item;
            && s'.waiting == (if StillRaised(Init(queues), steps, false) && !s.reg.orphan then Push(s.waiting, i)
                              else s.waiting)
            && s'.reg.freed == s.reg.freed + (if s.reg.orphan then [i] else [])
  {
    LookRemembered(Init(queues), steps, false);
  }

  /** How often the link of this item is notified in a run. */
  ghost function Notices(s: State, steps: seq<Step>, i: ItemId): nat
    requires Executes(s, steps)
    decreases |steps|
  {
    if steps == [] then 0 else NoticeIn(s, steps[0], i) + Notices(Do(s, steps[0]), steps[1..], i)
  }

  function NoticeIn(s: State, step: Step, i: ItemId): nat {
    if step.LinkNotify? && LinkOf(s.reg, step.obj, step.direction) == Some(i) then 1 else 0
  }

  function Count(items: seq<ItemId>, i: ItemId): nat {
    if items == [] then 0 else (if items[0] == i then 1 else 0) + Count(items[1..], i)
  }

  /** Callbacks of i that are yet to start. */
  function Owed(waiting: seq<ItemId>, p: Phase, i: ItemId): nat {
    (if i in waiting then 1 else 0) + (if InHand(p) == [i] then 1 else 0)
  }

  /** i belongs to an edge-triggered subscription, so its level is not looked at. */
  ghost predicate EdgeItem(reg: Registry, p: Phase, i: ItemId) {
    && i < reg.nextId && (i in reg.items ==> reg.items[i].edge)
    && !(p.Recheck? && p.item == i) && !(p.Decided? && p.item == i && p.incomplete)
  }

  lemma EdgeStep(s: State, step: Step, i: ItemId)
    requires Inv(s) && Enabled(s, step) && EdgeItem(s.reg, s.phase, i)
    ensures var s' := Do(s, step);
            && EdgeItem(s'.reg, s'.phase, i)
            && Count(StartedIn(s.phase, s'.phase), i) + Owed(s'.waiting, s'.phase, i)
               <= Owed(s.waiting, s.phase, i) + NoticeIn(s, step, i)
  {
    if step.Loop? {
      EdgeLoop(s, step.expired, i);
    } else {
      EdgeOther(s, step, i);
    }
  }

  lemma EdgeLoop(s: State, expired: bool, i: ItemId)
    requires Distinct(s.waiting) && Enabled(s, Loop(expired)) && EdgeItem(s.reg, s.phase, i)
    ensures var s' := DoLoop(s, expired);
            && EdgeItem(s'.reg, s'.phase, i)
            && Count(StartedIn(s.phase, s'.phase), i) + Owed(s'.waiting, s'.phase, i) <= Owed(s.waiting, s.phase, i)
  {
    var s' := DoLoop(s, expired);
    if StartedIn(s.phase, s'.phase) != [] { assert StartedIn(s.phase, s'.phase)[1..] == []; }
    if s.phase.PopItem? && s.waiting != [] {
      assert s.waiting == [s.waiting[0]] + s.waiting[1..];
      assert s.waiting[0] !in s.waiting[1..];
    }
  }

  lemma EdgeOther(s: State, step: Step, i: ItemId)
    requires Enabled(s, step) && !step.Loop? && EdgeItem(s.reg, s.phase, i)
    ensures var s' := Do(s, step);
            && EdgeItem(s'.reg, s'.phase, i) && StartedIn(s.phase, s'.phase) == []
            && Owed(s'.waiting, s'.phase, i) <= Owed(s.waiting, s.phase, i) + NoticeIn(s, step, i)
  {
    if step.Unsubscribe? { WithoutMembers(s.waiting, s.reg.tree[step.obj]); }
  }

  lemma {:induction false} EdgeRun(s: State, steps: seq<Step>, i: ItemId)
    requires Inv(s) && Executes(s, steps) && EdgeItem(s.reg, s.phase, i)
    ensures Count(Started(s, steps), i) <= Owed(s.waiting, s.phase, i) + Notices(s, steps, i)
    decreases |steps|
  {
    if steps != [] {
      var s' := Do(s, steps[0]);
      StepKeeps(s, steps[0]);
      EdgeStep(s, steps[0], i);
      EdgeRun(s', steps[1..], i);
      CountConcat(StartedIn(s.phase, s'.phase), Started(s', steps[1..]), i);
    }
  }

  lemma {:induction false} CountConcat(a: seq<ItemId>, b: seq<ItemId>, i: ItemId)
    ensures Count(a + b, i) == Count(a, i) + Count(b, i)
  {
    if a == [] {
      assert a + b == b;
    } else {
      assert (a + b)[1..] == a[1..] + b;
      CountConcat(a[1..], b, i);
    }
  }

  /** The callback of an edge-triggered subscription never starts more often than its link is notified:
      neither subscribing nor a level that stays true makes it run. */
  lemma EdgeRunsOncePerNotice(s: State, o: Obj, direction: Direction, steps: seq<Step>)
    requires Inv(s) && Enabled(s, Subscribe(o, direction, true))
    requires Executes(Do(s, Subscribe(o, direction, true)), steps)
    ensures var s1, i := Do(s, Subscribe(o, direction, true)), s.reg.nextId;
            Count(Started(s1, steps), i) <= Notices(s1, steps, i)
  {
    var s1, i := Do(s, Subscribe(o, direction, true)), s.reg.nextId;
    StepKeeps(s, Subscribe(o, direction, true));
    FreshItem(s, o, direction);
    EdgeRun(s1, steps, i);
  }

  lemma FreshItem(s: State, o: Obj, direction: Direction)
    requires Inv(s) && Enabled(s, Subscribe(o, direction, true))
    ensures var s1, i := DoSubscribe(s, o, direction, true), s.reg.nextId;
            EdgeItem(s1.reg, s1.phase, i) && Owed(s1.waiting, s1.phase, i) == 0
  {
    SubscribeMeans(s, o, direction, true);
    NotCurrent(s.reg, s.waiting, s.phase);
    AddItemKeeps(s.reg, Current(s.phase), o, direction, true);
  }

  lemma NotCurrent(reg: Registry, waiting: seq<ItemId>, p: Phase)
    requires Registered(reg, Current(p)) && FreedOnce(reg)
    ensures Current(p) != Some(reg.nextId)
  {
  }

  /** Once an item is unsubscribed, and not just in the loop's hands, its callback never starts again. */
  lemma {:induction false} NoCallbackOnceUnsubscribed(s: State, steps: seq<Step>, i: ItemId)
    requires Inv(s) && Executes(s, steps) && i < s.reg.nextId && !Subscribed(s.reg, i) && i !in InHand(s.phase)
    ensures i !in Started(s, steps)
    decreases |steps|
  {
    if steps != [] {
      StepKeeps(s, steps[0]);
      StaysUnsubscribed(s, steps[0], i);
      NoCallbackOnceUnsubscribed(Do(s, steps[0]), steps[1..], i);
    }
  }

  lemma StaysUnsubscribed(s: State, step: Step, i: ItemId)
    requires Inv(s) && Enabled(s, step) && i < s.reg.nextId && !Subscribed(s.reg, i) && i !in InHand(s.phase)
    ensures var s' := Do(s, step);
            && i < s'.reg.nextId && !Subscribed(s'.reg, i) && i !in InHand(s'.phase)
            && i !in StartedIn(s.phase, s'.phase)
  {
    match step
    case Loop(expired) => NotTaken(s, expired, i);
    case Subscribe(obj, direction, edge) => AddItemSubscribes(s.reg, obj, direction, edge);
    case _ => NotSubscribedAgain(s, step, i);
  }

  lemma NotTaken(s: State, expired: bool, i: ItemId)
    requires WaitingOk(s.reg, s.waiting) && Enabled(s, Loop(expired)) && i < s.reg.nextId
    requires !Subscribed(s.reg, i) && i !in InHand(s.phase)
    ensures var s' := DoLoop(s, expired);
            && i < s'.reg.nextId && !Subscribed(s'.reg, i) && i !in InHand(s'.phase)
            && i !in StartedIn(s.phase, s'.phase)
  {
  }

  lemma NotSubscribedAgain(s: State, step: Step, i: ItemId)
    requires Enabled(s, step) && !step.Loop? && !step.Subscribe? && i < s.reg.nextId
    requires !Subscribed(s.reg, i) && i !in InHand(s.phase)
    ensures var s' := Do(s, step);
            && i < s'.reg.nextId && !Subscribed(s'.reg, i) && i !in InHand(s'.phase)
            && i !in StartedIn(s.phase, s'.phase)
  {
  }

  /** Subscribing makes a new item with just what was asked for; other objects keep their items. */
  lemma SubscribeMeans(s: State, obj: Obj, direction: Direction, edge: bool)
    requires Inv(s) && obj !in s.reg.tree
    ensures var reg := DoSubscribe(s, obj, direction, edge).reg;
            var i := s.reg.nextId;
            && i !in s.reg.items && obj in reg.tree && reg.tree[obj] == i
            && i in reg.items && reg.items[i] == Item(obj, direction, edge)
            && reg.tree - {obj} == s.reg.tree && reg.items - {i} == s.reg.items
  {
    assert s.reg.nextId !in s.reg.items && LinkOf(s.reg, obj, direction) == None by {
      AddItemKeeps(s.reg, Current(s.phase), obj, direction, edge);
    }
    AddItemMeans(s.reg, obj, direction, edge);
  }

  lemma AddItemMeans(reg: Registry, obj: Obj, direction: Direction, edge: bool)
    requires obj !in reg.tree && reg.nextId !in reg.items
    ensures var reg' := AddItem(reg, obj, direction, edge);
            && obj in reg'.tree && reg'.tree[obj] == reg.nextId && reg.nextId in reg'.items
            && reg'.items[reg.nextId] == Item(obj, direction, edge)
            && reg'.tree - {obj} == reg.tree && reg'.items - {reg.nextId} == reg.items
  {
  }

  /** Unsubscribing takes the object out, and only it. */
  lemma UnsubscribeMeans(s: State, obj: Obj)
    requires Inv(s) && obj in s.reg.tree
    ensures var reg, i := DoUnsubscribe(s, obj).reg, s.reg.tree[obj];
            && reg.tree == s.reg.tree - {obj} && !Subscribed(reg, i) && i !in DoUnsubscribe(s, obj).waiting
            && reg.items == (if Current(s.phase) == Some(i) then s.reg.items else s.reg.items - {i})
  {
    SlotOf(s.reg, obj);
    WithoutMembers(s.waiting, s.reg.tree[obj]);
  }

  ghost function Times(steps: seq<Step>, op: QueueOp, obj: Obj): nat {
    if steps == [] then 0 else (if steps[0] == Operate(op, obj) then 1 else 0) + Times(steps[1..], op, obj)
  }

  /** The messages in a queue are those put less those taken, as long as it is not reset. */
  lemma {:induction false} MessagesCounted(s: State, steps: seq<Step>, obj: Obj)
    requires Executes(s, steps) && obj in s.src.queues && Operate(Reset, obj) !in steps
    ensures var q := s.src.queues[obj];
            && obj in RunTo(s, steps).src.queues
            && var q' := RunTo(s, steps).src.queues[obj];
               && q'.capacity == q.capacity && (q.count <= q.capacity ==> q'.count <= q'.capacity)
               && q'.count + Times(steps, Get, obj) == q.count + Times(steps, Put, obj)
    decreases |steps|
  {
    if steps != [] {
      assert steps == [steps[0]] + steps[1..];
      MessagesCounted(Do(s, steps[0]), steps[1..], obj);
    }
  }

  /** How many of its own steps the loop is at most away from its blocking point. */
  function Distance(p: Phase, pending: nat): nat {
    match p
    case UserCode => 1
    case Restore(_) => 1
    case Sync(_) => 2
    case TimerWork(_) => 2
    case Notifying(_) => 3
    case Decided(_, _, _) => 4
    case Recheck(_, _) => 5
    case InCallback(_, _) => 6
    case Popped(_, _) => 7
    case PopItem(_) => 8
    case PendingLoop => 2 * pending + 1
    case PendingCallback => 2 * pending
    case _ => 0
  }

  lemma GetsCloser(s: State)
    requires Enabled(s, Loop(false)) && !s.phase.Wait? && !s.phase.Stopped? && !s.phase.Crashed?
    ensures var s' := DoLoop(s, false);
            !s'.phase.Crashed? ==> Distance(s'.phase, |s'.deferred.pending|) < Distance(s.phase, |s.deferred.pending|)
    ensures !DoLoop(s, false).phase.Stopped?
  {
  }

  lemma CanGoOn(s: State)
    requires Registered(s.reg, Current(s.phase))
    ensures Enabled(s, Loop(false))
  {
  }

  /** Whatever it is doing, and whatever has happened meanwhile, the loop comes back to its blocking point
      when its callbacks return. */
  lemma {:induction false} ComesBack(s: State) returns (n: nat, t: State)
    requires Inv(s) && s.phase != Stopped
    ensures Leads(s, n, t) && t.phase.Wait?
    decreases Distance(s.phase, |s.deferred.pending|)
  {
    if s.phase.Wait? {
      LeadsNow(s);
      n, t := 0, s;
    } else {
      CanGoOn(s);
      GetsCloser(s);
      StepKeeps(s, Loop(false));
      var next := DoLoop(s, false);
      n, t := ComesBack(next);
      LeadsStep(s, next, n, t);
      n := n + 1;
    }
  }

  /** It sleeps there exactly as long as it has no bit and its time has not run out. */
  lemma SleepsIff(s: State, expired: bool)
    requires s.phase.Wait?
    ensures DoLoop(s, expired) == s <==> s.flags == {} && !expired
    ensures s.flags == {} && expired ==> DoLoop(s, expired) == s.(phase := UserCode)
  {
  }

  /** Only a stop request stops the loop, and it comes before everything else. */
  lemma StopsIff(s: State, step: Step)
    requires Enabled(s, step)
    ensures s.phase != Stopped ==>
              (Do(s, step).phase == Stopped <==> step.Loop? && s.phase.Wait? && Stop in s.flags)
    ensures s.phase == Stopped ==> Do(s, step).phase == Stopped
  {
  }

  // ---- the steps of the loop thread

  lemma LoopPending(s: State, expired: bool)
    requires PendingOk(s.deferred, s.phase.PendingCallback?) && Enabled(s, Loop(expired))
    ensures var s' := DoLoop(s, expired); PendingOk(s'.deferred, s'.phase.PendingCallback?)
  {
  }

  lemma LoopFlags(s: State, expired: bool)
    requires FlagsOk(s.waiting, s.timerRequests, s.deferred.pending, s.flags, s.phase) && Enabled(s, Loop(expired))
    ensures var s' := DoLoop(s, expired); FlagsOk(s'.waiting, s'.timerRequests, s'.deferred.pending, s'.flags, s'.phase)
  {
  }

  lemma PushKeeps(reg: Registry, waiting: seq<ItemId>, i: ItemId)
    requires WaitingOk(reg, waiting) && Subscribed(reg, i)
    ensures WaitingOk(reg, Push(waiting, i)) && i in Push(waiting, i)
    ensures forall x :: x in waiting ==> x in Push(waiting, i)
  {
  }

  lemma PopKeeps(reg: Registry, waiting: seq<ItemId>)
    requires WaitingOk(reg, waiting) && waiting != [] && Registered(reg, None)
    ensures WaitingOk(reg, waiting[1..]) && Registered(reg, Some(waiting[0]))
  {
  }

  /** Ending the dispatch of a subscribed item. */
  lemma LeaveItem(reg: Registry, i: ItemId)
    requires Registered(reg, Some(i)) && !reg.orphan
    ensures Registered(reg, None) && Subscribed(reg, i)
  {
  }

  /** Freeing the item that was unsubscribed in its own callback. */
  lemma FreeOrphan(reg: Registry, i: ItemId, waiting: seq<ItemId>)
    requires Registered(reg, Some(i)) && reg.orphan && FreedOnce(reg) && WaitingOk(reg, waiting)
    ensures var reg' := FreeItem(reg, i).(orphan := false);
            Registered(reg', None) && FreedOnce(reg') && WaitingOk(reg', waiting)
  {
    var reg' := FreeItem(reg, i).(orphan := false);
    assert forall x :: x in reg'.freed <==> x in reg.freed || x == i;
    assert forall x :: Subscribed(reg, x) ==> Subscribed(reg', x);
  }

  /** Most steps of the loop thread leave the subscriptions and the waiting list alone. */
  lemma QuietStep(s: State, expired: bool)
    requires Enabled(s, Loop(expired)) && !s.phase.PopItem? && !s.phase.Decided?
    ensures var s' := DoLoop(s, expired);
            && s'.reg == s.reg && s'.waiting == s.waiting && s'.src == s.src && Current(s'.phase) == Current(s.phase)
  {
  }

  lemma FinishRegistry(s: State)
    requires s.phase.Decided?
    requires Registered(s.reg, Some(s.phase.item)) && FreedOnce(s.reg) && WaitingOk(s.reg, s.waiting)
    ensures var s' := DoFinish(s); Registered(s'.reg, None) && FreedOnce(s'.reg) && WaitingOk(s'.reg, s'.waiting)
  {
    var i := s.phase.item;
    if s.reg.orphan {
      FreeOrphan(s.reg, i, s.waiting);
    } else {
      LeaveItem(s.reg, i);
      PushKeeps(s.reg, s.waiting, i);
    }
  }

  lemma LoopRegistry(s: State, expired: bool)
    requires Registered(s.reg, Current(s.phase)) && FreedOnce(s.reg) && WaitingOk(s.reg, s.waiting)
        && Enabled(s, Loop(expired))
    ensures var s' := DoLoop(s, expired);
            Registered(s'.reg, Current(s'.phase)) && FreedOnce(s'.reg) && WaitingOk(s'.reg, s'.waiting)
  {
    if s.phase.PopItem? {
      if s.waiting != [] { PopKeeps(s.reg, s.waiting); }
    } else if s.phase.Decided? {
      FinishRegistry(s);
    } else {
      QuietStep(s, expired);
    }
  }

  lemma NoticedPop(src: Sources, reg: Registry, waiting: seq<ItemId>, held: set<Flag>)
    requires Noticed(src, reg, waiting, PopItem(held)) && waiting != []
    ensures Noticed(src, reg, waiting[1..], Popped(waiting[0], held))
  {
    assert waiting == [waiting[0]] + waiting[1..];
  }

  /** Once an item's level was seen false, nothing is owed for it; other items are untouched. */
  lemma NoticedDone(src: Sources, reg: Registry, waiting: seq<ItemId>, p: Phase, q: Phase, i: ItemId)
    requires Noticed(src, reg, waiting, p) && Registered(reg, Some(i)) && Current(p) == Some(i)
    requires || !ItemLevel(src, reg, i) || reg.items[i].edge || Dispatching(q, i)
             || (p.Decided? && !p.incomplete) || reg.orphan
    ensures Noticed(src, reg, waiting, q)
  {
    forall o | Raised(src, reg, o) && Dispatching(p, reg.tree[o])
      ensures || reg.tree[o] in waiting || Dispatching(q, reg.tree[o])
              || (o, reg.items[reg.tree[o]].direction) in src.inflight
    {
      assert reg.tree[o] == i;
    }
  }

  lemma NoticedGrows(src: Sources, reg: Registry, waiting: seq<ItemId>, p: Phase, i: ItemId, q: Phase)
    requires Noticed(src, reg, waiting, p) && (forall x :: Dispatching(p, x) ==> x == i || Dispatching(q, x))
    ensures Noticed(src, reg, Push(waiting, i), q)
  {
    assert forall x :: x in waiting || x == i ==> x in Push(waiting, i);
  }

  lemma NoticedFree(src: Sources, reg: Registry, waiting: seq<ItemId>, p: Phase, i: ItemId)
    requires Noticed(src, reg, waiting, p) && Registered(reg, Some(i)) && reg.orphan
    ensures Noticed(src, FreeItem(reg, i).(orphan := false), waiting, p)
  {
    var reg' := FreeItem(reg, i).(orphan := false);
    forall o | Raised(src, reg', o)
      ensures Raised(src, reg, o) && reg'.items[reg'.tree[o]] == reg.items[reg.tree[o]]
    {
    }
  }

  lemma NoticedIdle(src: Sources, reg: Registry, waiting: seq<ItemId>, p: Phase, q: Phase)
    requires Noticed(src, reg, waiting, p) && Current(p) == None
    ensures Noticed(src, reg, waiting, q)
  {
  }

  lemma FinishNoticed(s: State)
    requires s.phase.Decided? && Noticed(s.src, s.reg, s.waiting, s.phase) && Registered(s.reg, Some(s.phase.item))
    ensures var s' := DoFinish(s); Noticed(s'.src, s'.reg, s'.waiting, s'.phase)
  {
    var Decided(i, incomplete, held) := s.phase;
    if s.reg.orphan {
      NoticedDone(s.src, s.reg, s.waiting, s.phase, Sync(held), i);
      NoticedFree(s.src, s.reg, s.waiting, Sync(held), i);
    } else if incomplete {
      NoticedGrows(s.src, s.reg, s.waiting, s.phase, i, Notifying(held));
    } else {
      NoticedDone(s.src, s.reg, s.waiting, s.phase, Sync(held), i);
    }
  }

  /** After looking at an item's level the dispatcher keeps hold of it exactly if it was true. */
  lemma LooksAtLevel(s: State, expired: bool, i: ItemId)
    requires Enabled(s, Loop(expired)) && Current(s.phase) == Some(i) && !s.phase.Decided?
    ensures var q := DoLoop(s, expired).phase;
            !ItemLevel(s.src, s.reg, i) || s.reg.items[i].edge || Dispatching(q, i)
  {
  }

  lemma LoopNoticed(s: State, expired: bool)
    requires Noticed(s.src, s.reg, s.waiting, s.phase) && Registered(s.reg, Current(s.phase))
        && Enabled(s, Loop(expired))
    ensures var s' := DoLoop(s, expired); Noticed(s'.src, s'.reg, s'.waiting, s'.phase)
  {
    var s' := DoLoop(s, expired);
    if s.phase.PopItem? {
      if s.waiting != [] { NoticedPop(s.src, s.reg, s.waiting, s.phase.held); }
      else { NoticedIdle(s.src, s.reg, s.waiting, s.phase, s'.phase); }
    } else if s.phase.Decided? {
      FinishNoticed(s);
    } else {
      QuietStep(s, expired);
      if Current(s.phase).Some? {
        LooksAtLevel(s, expired, Current(s.phase).value);
        NoticedDone(s.src, s.reg, s.waiting, s.phase, s'.phase, Current(s.phase).value);
      } else {
        NoticedIdle(s.src, s.reg, s.waiting, s.phase, s'.phase);
      }
    }
  }

  // ---- the steps of callbacks and of everybody else

  lemma OperateNoticed(src: Sources, reg: Registry, waiting: seq<ItemId>, phase: Phase, op: QueueOp, obj: Obj)
    requires Noticed(src, reg, waiting, phase) && OperateEnabled(src, op, obj)
    ensures Noticed(DoOperate(src, op, obj), reg, waiting, phase)
  {
    var src' := DoOperate(src, op, obj);
    forall o | Raised(src', reg, o) && !Raised(src, reg, o)
      ensures (o, reg.items[reg.tree[o]].direction) in src'.inflight
    {
    }
  }

  lemma LinkNotifyNoticed(s: State, obj: Obj, direction: Direction)
    requires Noticed(s.src, s.reg, s.waiting, s.phase) && Registered(s.reg, Current(s.phase))
    ensures var s' := DoLinkNotify(s, obj, direction); Noticed(s'.src, s'.reg, s'.waiting, s'.phase)
  {
    var s' := DoLinkNotify(s, obj, direction);
    forall o | Raised(s.src, s.reg, o) && o == obj && s.reg.items[s.reg.tree[o]].direction == direction
      ensures s.reg.tree[o] in s'.waiting
    {
      assert LinkOf(s.reg, obj, direction) == Some(s.reg.tree[o]);
    }
    assert forall x :: x in s.waiting ==> x in s'.waiting;
    assert forall o, d :: (o, d) in s.src.inflight && (o, d) != (obj, direction) ==> (o, d) in s'.src.inflight;
    forall o | Raised(s'.src, s.reg, o) ensures Raised(s.src, s.reg, o) {}
  }

  lemma LinkNotifyRegistry(s: State, obj: Obj, direction: Direction)
    requires Registered(s.reg, Current(s.phase)) && WaitingOk(s.reg, s.waiting)
    ensures WaitingOk(s.reg, DoLinkNotify(s, obj, direction).waiting)
  {
    match LinkOf(s.reg, obj, direction)
    case None =>
    case Some(i) => PushKeeps(s.reg, s.waiting, i);
  }

  lemma AddItemLinks(reg: Registry, obj: Obj, direction: Direction, edge: bool)
    requires TreeOk(reg.tree, reg.items) && LinksOk(reg.tree, reg.items, reg.links)
    requires obj !in reg.tree && reg.nextId !in reg.items
    ensures LinkOf(reg, obj, direction) == None
    ensures var reg' := AddItem(reg, obj, direction, edge);
            TreeOk(reg'.tree, reg'.items) && LinksOk(reg'.tree, reg'.items, reg'.links)
  {
  }

  /** A new subscription never finds its link slot taken, and joins tree, links and items alike. */
  lemma AddItemKeeps(reg: Registry, current: Option<ItemId>, obj: Obj, direction: Direction, edge: bool)
    requires Registered(reg, current) && obj !in reg.tree && reg.nextId !in reg.items
    ensures LinkOf(reg, obj, direction) == None
    ensures var reg' := AddItem(reg, obj, direction, edge);
            && Registered(reg', current) && Subscribed(reg', reg.nextId)
            && forall i :: Subscribed(reg, i) ==> Subscribed(reg', i)
  {
    AddItemLinks(reg, obj, direction, edge);
    AddItemSubscribes(reg, obj, direction, edge);
  }

  /** The new item is subscribed, and of the others those that were. */
  lemma AddItemSubscribes(reg: Registry, obj: Obj, direction: Direction, edge: bool)
    requires TreeOk(reg.tree, reg.items) && obj !in reg.tree && reg.nextId !in reg.items
    ensures var reg' := AddItem(reg, obj, direction, edge);
            && Subscribed(reg', reg.nextId)
            && forall i :: i != reg.nextId ==> (Subscribed(reg, i) <==> Subscribed(reg', i))
  {
  }

  lemma AddItemFreed(reg: Registry, obj: Obj, direction: Direction, edge: bool)
    requires FreedOnce(reg)
    ensures FreedOnce(AddItem(reg, obj, direction, edge))
  {
  }

  lemma SubscribeNoticed(s: State, obj: Obj, direction: Direction, edge: bool)
    requires Noticed(s.src, s.reg, s.waiting, s.phase) && Registered(s.reg, Current(s.phase)) && FreedOnce(s.reg)
    requires obj !in s.reg.tree && LinkOf(s.reg, obj, direction) == None
    ensures var s' := DoSubscribe(s, obj, direction, edge); Noticed(s'.src, s'.reg, s'.waiting, s'.phase)
  {
    var s' := DoSubscribe(s, obj, direction, edge);
    assert s'.reg == AddItem(s.reg, obj, direction, edge) && s'.src == s.src && s'.phase == s.phase;
    forall o | Raised(s'.src, s'.reg, o)
      ensures || s'.reg.tree[o] in s'.waiting || Dispatching(s'.phase, s'.reg.tree[o])
              || (o, s'.reg.items[s'.reg.tree[o]].direction) in s'.src.inflight
    {
      if o != obj {
        OtherRaised(s.src, s.reg, obj, direction, edge, o);
      }
    }
  }

  /** Subscribing one object leaves the subscriptions of the others alone. */
  lemma OtherRaised(src: Sources, reg: Registry, obj: Obj, direction: Direction, edge: bool, o: Obj)
    requires TreeOk(reg.tree, reg.items) && FreedOnce(reg) && o != obj
    requires Raised(src, AddItem(reg, obj, direction, edge), o)
    ensures var reg' := AddItem(reg, obj, direction, edge);
            Raised(src, reg, o) && reg'.tree[o] == reg.tree[o] && reg'.items[reg'.tree[o]] == reg.items[reg.tree[o]]
  {
  }

  lemma RemoveItemLinks(reg: Registry, current: Option<ItemId>, obj: Obj)
    requires TreeOk(reg.tree, reg.items) && LinksOk(reg.tree, reg.items, reg.links) && obj in reg.tree
    ensures reg.tree[obj] in reg.items && LinkOf(reg, obj, reg.items[reg.tree[obj]].direction) == Some(reg.tree[obj])
    ensures var reg' := RemoveItem(reg, obj, current);
            TreeOk(reg'.tree, reg'.items) && LinksOk(reg'.tree, reg'.items, reg'.links)
  {
  }

  /** Unsubscribing finds its own item in tree and link, and removes it from both. */
  lemma RemoveItemKeeps(reg: Registry, current: Option<ItemId>, obj: Obj)
    requires Registered(reg, current) && obj in reg.tree
    ensures reg.tree[obj] in reg.items && LinkOf(reg, obj, reg.items[reg.tree[obj]].direction) == Some(reg.tree[obj])
    ensures var reg' := RemoveItem(reg, obj, current);
            && Registered(reg', current)
            && forall i :: Subscribed(reg, i) && i != reg.tree[obj] ==> Subscribed(reg', i)
  {
    RemoveItemLinks(reg, current, obj);
    var reg' := RemoveItem(reg, obj, current);
    assert forall i :: Subscribed(reg, i) && i != reg.tree[obj] ==> Subscribed(reg', i);
    assert !Subscribed(reg', reg.tree[obj]);
    assert forall i :: Subscribed(reg', i) ==> Subscribed(reg, i);
  }

  lemma RemoveItemFreed(reg: Registry, current: Option<ItemId>, obj: Obj)
    requires FreedOnce(reg) && obj in reg.tree && reg.tree[obj] in reg.items
    ensures FreedOnce(RemoveItem(reg, obj, current))
  {
    var reg', i := RemoveItem(reg, obj, current), reg.tree[obj];
    if current != Some(i) {
      assert forall x :: x in reg'.freed <==> x in reg.freed || x == i;
    }
  }

  lemma UnsubscribeNoticed(s: State, obj: Obj)
    requires Noticed(s.src, s.reg, s.waiting, s.phase) && Registered(s.reg, Current(s.phase)) && obj in s.reg.tree
    requires WaitingOk(s.reg, s.waiting)
    requires s.reg.tree[obj] in s.reg.items
        && LinkOf(s.reg, obj, s.reg.items[s.reg.tree[obj]].direction) == Some(s.reg.tree[obj])
    ensures var s' := DoUnsubscribe(s, obj); Noticed(s'.src, s'.reg, s'.waiting, s'.phase)
  {
    var s' := DoUnsubscribe(s, obj);
    WithoutMembers(s.waiting, s.reg.tree[obj]);
    forall o | Raised(s'.src, s'.reg, o)
      ensures o != obj && Raised(s.src, s.reg, o) && s'.reg.tree[o] == s.reg.tree[o]
           && s'.reg.items[s'.reg.tree[o]] == s.reg.items[s.reg.tree[o]] && s.reg.tree[o] != s.reg.tree[obj]
    {
    }
  }

  lemma UnsubscribeWaiting(reg: Registry, reg': Registry, waiting: seq<ItemId>, gone: ItemId)
    requires WaitingOk(reg, waiting)
    requires forall i :: Subscribed(reg, i) && i != gone ==> Subscribed(reg', i)
    ensures WaitingOk(reg', Without(waiting, gone))
  {
    WithoutMembers(waiting, gone);
    var w := Without(waiting, gone);
    forall k | 0 <= k < |w| ensures Subscribed(reg', w[k]) {
      assert w[k] in w;
    }
  }

  /** The furi_crash arm of the dispatch cannot be reached: bits that wake the loop are known ones. */
  lemma LoopNoCrash(s: State, expired: bool)
    requires s.phase != Crashed && PendingOk(s.deferred, s.phase.PendingCallback?) && Enabled(s, Loop(expired))
    ensures DoLoop(s, expired).phase != Crashed
  {
    if s.phase.Wait? && s.flags != {} {
      var f :| f in s.flags;
      assert f == Stop || f == Event || f == Timer || f == Pending || f == ThreadFlag;
    }
  }

  lemma KeepLoop(s: State, expired: bool)
    requires Inv(s) && Enabled(s, Loop(expired))
    ensures Inv(Do(s, Loop(expired)))
  {
    LoopPending(s, expired);
    LoopFlags(s, expired);
    LoopRegistry(s, expired);
    LoopNoticed(s, expired);
    LoopNoCrash(s, expired);
  }

  lemma KeepLinkNotify(s: State, obj: Obj, direction: Direction)
    requires Inv(s)
    ensures Inv(DoLinkNotify(s, obj, direction))
  {
    LinkNotifyRegistry(s, obj, direction);
    LinkNotifyNoticed(s, obj, direction);
  }

  lemma KeepSubscribe(s: State, obj: Obj, direction: Direction, edge: bool)
    requires Inv(s) && obj !in s.reg.tree
    ensures Inv(DoSubscribe(s, obj, direction, edge))
  {
    AddItemKeeps(s.reg, Current(s.phase), obj, direction, edge);
    AddItemFreed(s.reg, obj, direction, edge);
    SubscribeNoticed(s, obj, direction, edge);
    var reg' := AddItem(s.reg, obj, direction, edge);
    assert WaitingOk(reg', s.waiting);
    PushKeeps(reg', s.waiting, s.reg.nextId);
  }

  lemma KeepUnsubscribe(s: State, obj: Obj)
    requires Inv(s) && obj in s.reg.tree
    ensures Inv(DoUnsubscribe(s, obj))
  {
    RemoveItemKeeps(s.reg, Current(s.phase), obj);
    RemoveItemFreed(s.reg, Current(s.phase), obj);
    UnsubscribeNoticed(s, obj);
    UnsubscribeWaiting(s.reg, RemoveItem(s.reg, obj, Current(s.phase)), s.waiting, s.reg.tree[obj]);
    WithoutMembers(s.waiting, s.reg.tree[obj]);
  }

  lemma KeepOthers(s: State, step: Step)
    requires Inv(s) && Enabled(s, step) && (step.SetFlag? || step.RequestTimer? || step.Pend?)
    ensures Inv(Do(s, step))
  {
  }

  /** What every step of the loop, its callbacks and the producers keeps. */
  lemma StepKeeps(s: State, step: Step)
    requires Inv(s) && Enabled(s, step)
    ensures Inv(Do(s, step))
  {
    match step
    case Operate(op, obj) => OperateNoticed(s.src, s.reg, s.waiting, s.phase, op, obj);
    case LinkNotify(obj, direction) => KeepLinkNotify(s, obj, direction);
    case Loop(expired) => KeepLoop(s, expired);
    case Subscribe(obj, direction, edge) => KeepSubscribe(s, obj, direction, edge);
    case Unsubscribe(obj) => KeepUnsubscribe(s, obj);
    case _ => KeepOthers(s, step);
  }
}
