/**
 Co-routine delays (lib/FreeRTOS-Kernel/croutine.c): wake-up times are kept modulo 2^32 in two sorted
 lists that change places when the tick count overflows.

 The abstract machine (Clock) has unbounded time and one due time per sleeping co-routine.  The class
 works on the wrapped tick count and the two lists; every method is shown to be the corresponding
 step of the machine, and the punctuality of delays is proved for every run of the machine.
 */
module CoRoutines {
  import KernelList
  import opened Common
  import opened Tick32

  type Co = nat

  // ----- the abstract machine -----

  /** waiting: also on an event list; pending: moved to the pending-ready list by an interrupt. */
  datatype Clock = Clock(time: nat, due: map<Co, nat>, waiting: set<Co>, pending: set<Co>, ready: set<Co>)

  datatype Step =
    | Create(co: Co)
    | Delay(co: Co, ticks: nat, onEvent: bool)
    | Tick
    | IsrReady(co: Co)
    | TakePending(co: Co)

  ghost predicate Inv(a: Clock) {
    && (forall c :: c in a.due ==> a.due[c] > a.time)
    && a.waiting <= a.due.Keys && a.pending <= a.due.Keys
    && a.waiting !! a.pending && a.ready !! a.due.Keys
  }

  predicate Enabled(a: Clock, step: Step) {
    match step
    case Create(co) => co !in a.ready && co !in a.due
    case Delay(co, ticks, _) => co in a.ready && 1 <= ticks < TICKS
    case Tick => true
    case IsrReady(co) => co in a.waiting
    case TakePending(co) => co in a.pending
  }

  ghost function DueAt(due: map<Co, nat>, time: nat): set<Co> {
    set c | c in due && due[c] == time
  }

  ghost function Next(a: Clock, step: Step): Clock
    requires Enabled(a, step)
  {
    match step
    case Create(co) => a.(ready := a.ready + {co})
    case Delay(co, ticks, onEvent) =>
      a.(due := a.due[co := a.time + ticks], ready := a.ready - {co},
         waiting := if onEvent then a.waiting + {co} else a.waiting)
    case Tick =>
      var woken := DueAt(a.due, a.time + 1);
      Clock(a.time + 1, a.due - woken, a.waiting - woken, a.pending - woken, a.ready + woken)
    case IsrReady(co) => a.(waiting := a.waiting - {co}, pending := a.pending + {co})
    case TakePending(co) => a.(due := a.due - {co}, pending := a.pending - {co}, ready := a.ready + {co})
  }

  ghost predicate Executes(a: Clock, run: seq<Step>)
    decreases |run|
  {
    run == [] || (Enabled(a, run[0]) && Executes(Next(a, run[0]), run[1..]))
  }

  ghost function RunTo(a: Clock, run: seq<Step>): Clock
    requires Executes(a, run)
    decreases |run|
  {
    if run == [] then a else RunTo(Next(a, run[0]), run[1..])
  }

  function TicksIn(run: seq<Step>): nat {
    if run == [] then 0 else (if run[0].Tick? then 1 else 0) + TicksIn(run[1..])
  }

  lemma StepKeeps(a: Clock, step: Step)
    requires Inv(a) && Enabled(a, step)
    ensures Inv(Next(a, step))
  {
  }

  lemma {:induction false} RunKeeps(a: Clock, run: seq<Step>)
    requires Inv(a) && Executes(a, run)
    ensures Inv(RunTo(a, run)) && RunTo(a, run).time == a.time + TicksIn(run)
    decreases |run|
  {
    if run != [] {
      StepKeeps(a, run[0]);
      RunKeeps(Next(a, run[0]), run[1..]);
    }
  }

  /** In every run with fewer ticks than were asked for, and no event, the co-routine sleeps on. */
  lemma {:induction false} NotBefore(a: Clock, run: seq<Step>, co: Co)
    requires Inv(a) && Executes(a, run) && co in a.due && TakePending(co) !in run
    requires a.time + TicksIn(run) < a.due[co]
    ensures co in RunTo(a, run).due && RunTo(a, run).due[co] == a.due[co] && co !in RunTo(a, run).ready
    decreases |run|
  {
    if run != [] {
      StepKeeps(a, run[0]);
      NotBefore(Next(a, run[0]), run[1..], co);
    }
  }

  /** Delays are exact: whatever else happens, a co-routine delayed by d ticks that no event readies
      sleeps through every run with fewer than d ticks, and the d-th tick makes it ready. */
  lemma WakesExactly(a: Clock, co: Co, ticks: nat, onEvent: bool, run: seq<Step>)
    requires Inv(a) && Enabled(a, Delay(co, ticks, onEvent)) && TakePending(co) !in run
    requires Executes(Next(a, Delay(co, ticks, onEvent)), run) && TicksIn(run) < ticks
    ensures var b := RunTo(Next(a, Delay(co, ticks, onEvent)), run);
            && co in b.due && co !in b.ready
            && (co in Next(b, Tick).ready <==> TicksIn(run) + 1 == ticks)
            && (co in Next(b, Tick).due <==> TicksIn(run) + 1 < ticks)
  {
    var a1 := Next(a, Delay(co, ticks, onEvent));
    StepKeeps(a, Delay(co, ticks, onEvent));
    NotBefore(a1, run, co);
    RunKeeps(a1, run);
  }

  /** While it is on no event list, a sleeping co-routine cannot be readied by the interrupt. */
  lemma {:induction false} NoEventNoReady(a: Clock, run: seq<Step>, co: Co)
    requires Inv(a) && Executes(a, run) && co in a.due && co !in a.waiting && co !in a.pending
    requires a.time + TicksIn(run) < a.due[co]
    ensures IsrReady(co) !in run && TakePending(co) !in run
    ensures co in RunTo(a, run).due && co !in RunTo(a, run).waiting && co !in RunTo(a, run).pending
    decreases |run|
  {
    if run != [] {
      assert run == [run[0]] + run[1..];
      StepKeeps(a, run[0]);
      NoEventNoReady(Next(a, run[0]), run[1..], co);
    }
  }

  /** A delay with an event can be cut short by it: the interrupt may take the co-routine off its event
      list at once, and the scheduler then finds it ready.  A delay without one cannot: in every run
      with fewer ticks than asked for no interrupt readies it and it sleeps on. */
  lemma OnlyAnEventCutsShort(a: Clock, co: Co, ticks: nat, onEvent: bool)
    requires Inv(a) && Enabled(a, Delay(co, ticks, onEvent))
    ensures var b := Next(a, Delay(co, ticks, onEvent));
            && (Enabled(b, IsrReady(co)) <==> onEvent)
            && (onEvent ==> Enabled(Next(b, IsrReady(co)), TakePending(co))
                            && co in Next(Next(b, IsrReady(co)), TakePending(co)).ready)
            && (!onEvent ==> forall run :: Executes(b, run) && TicksIn(run) < ticks ==>
                               IsrReady(co) !in run && co in RunTo(b, run).due && co !in RunTo(b, run).ready)
  {
    var b := Next(a, Delay(co, ticks, onEvent));
    StepKeeps(a, Delay(co, ticks, onEvent));
    if !onEvent {
      forall run | Executes(b, run) && TicksIn(run) < ticks
        ensures IsrReady(co) !in run && co in RunTo(b, run).due && co !in RunTo(b, run).ready
      {
        NoEventNoReady(b, run, co);
        NotBefore(b, run, co);
      }
    }
  }

  ghost function Ticks(a: Clock, n: nat): Clock
    decreases n
  {
    if n == 0 then a else Ticks(Next(a, Tick), n - 1)
  }

  /** Several ticks at once wake exactly those that were due by then. */
  lemma {:induction false} TicksWake(a: Clock, n: nat)
    decreases n
    requires Inv(a)
    ensures Inv(Ticks(a, n)) && Ticks(a, n).time == a.time + n
    ensures forall c :: c in Ticks(a, n).due <==> c in a.due && a.due[c] > a.time + n
    ensures forall c :: c in Ticks(a, n).due ==> Ticks(a, n).due[c] == a.due[c]
    ensures forall c :: c in Ticks(a, n).ready <==> c in a.ready || (c in a.due && a.due[c] <= a.time + n)
  {
    if n > 0 {
      StepKeeps(a, Tick);
      TicksWake(Next(a, Tick), n - 1);
    }
  }

  // ----- the two delayed lists -----

  datatype Sleeper = Sleeper(co: Co, wake: nat)

  function Wakes(l: seq<Sleeper>): seq<nat> {
    seq(|l|, i requires 0 <= i < |l| => l[i].wake)
  }

  /** vListInsert on one of the delayed lists. */
  function Insert(l: seq<Sleeper>, x: Sleeper): seq<Sleeper> {
    KernelList.InsertAt(l, KernelList.Position(Wakes(l), x.wake), x)
  }

  ghost predicate Ordered(l: seq<Sleeper>) {
    forall i, j :: 0 <= i < j < |l| ==> l[i].wake <= l[j].wake && l[i].co != l[j].co
  }

  /** The list holds sleepers of the 2^32 ticks from base on, none due before base + low. */
  ghost predicate Recorded(l: seq<Sleeper>, base: int, low: nat, due: map<Co, nat>) {
    forall x :: x in l ==> low <= x.wake < TICKS && x.co in due && due[x.co] == base + x.wake
  }

  ghost predicate Holds(l: seq<Sleeper>, co: Co) {
    exists x :: x in l && x.co == co
  }

  ghost predicate AllHeld(delayed: seq<Sleeper>, overflow: seq<Sleeper>, due: map<Co, nat>) {
    forall c :: c in due ==> Holds(delayed, c) || Holds(overflow, c)
  }

  datatype Lists = Lists(delayed: seq<Sleeper>, overflow: seq<Sleeper>)

  /** Two lists of wrapped wake times stand for unbounded due times; low is the first tick of the
      current 2^32 at which somebody may still be due. */
  ghost predicate ListsShow(l: Lists, base: int, low: nat, due: map<Co, nat>) {
    && Ordered(l.delayed) && Ordered(l.overflow)
    && Recorded(l.delayed, base, low, due) && Recorded(l.overflow, base + TICKS, 0, due)
    && AllHeld(l.delayed, l.overflow, due)
  }

  lemma InsertMembers(l: seq<Sleeper>, x: Sleeper)
    ensures forall y :: y in Insert(l, x) <==> y == x || y in l
  {
    var k := KernelList.Position(Wakes(l), x.wake);
    assert l == l[..k] + l[k..];
  }

  lemma InsertOrdered(l: seq<Sleeper>, x: Sleeper)
    requires Ordered(l) && !Holds(l, x.co)
    ensures Ordered(Insert(l, x))
  {
    var k := KernelList.Position(Wakes(l), x.wake);
    forall i | 0 <= i < |l|
      ensures l[i].co != x.co && (i < k ==> l[i].wake <= x.wake) && (i == k ==> l[i].wake > x.wake)
    {
      assert l[i] in l && Wakes(l)[i] == l[i].wake;
    }
    InsertAtOrdered(l, k, x);
  }

  lemma InsertAtOrdered(l: seq<Sleeper>, k: nat, x: Sleeper)
    requires Ordered(l) && k <= |l|
    requires forall i :: 0 <= i < |l| ==> l[i].co != x.co
    requires (forall i :: 0 <= i < k ==> l[i].wake <= x.wake) && (k < |l| ==> l[k].wake > x.wake)
    ensures Ordered(KernelList.InsertAt(l, k, x))
  {
  }

  /** vCoRoutineAddToDelayedList's choice of list. */
  function PutToSleep(tick: nat, l: Lists, co: Co, ticks: nat): Lists
    requires tick < TICKS && ticks < TICKS
  {
    var wake := Plus(tick, ticks);
    if wake < tick then l.(overflow := Insert(l.overflow, Sleeper(co, wake)))
        else l.(delayed := Insert(l.delayed, Sleeper(co, wake)))
  }

  lemma NotHeld(l: seq<Sleeper>, base: int, low: nat, due: map<Co, nat>, co: Co)
    requires Recorded(l, base, low, due) && co !in due
    ensures !Holds(l, co)
  {
  }

  /** A delay of at least one tick is recorded as its due time, across the overflow. */
  lemma PutToSleepShows(tick: nat, l: Lists, base: int, due: map<Co, nat>, co: Co, ticks: nat)
    requires ListsShow(l, base, tick + 1, due) && co !in due && tick < TICKS && 1 <= ticks < TICKS && base + tick >= 0
    ensures ListsShow(PutToSleep(tick, l, co, ticks), base, tick + 1, due[co := base + tick + ticks])
  {
    var x := Sleeper(co, Plus(tick, ticks));
    if x.wake < tick {
      PutInOverflow(l, base, tick + 1, due, x);
    } else {
      PutInDelayed(l, base, tick + 1, due, x);
    }
  }

  lemma PutInOverflow(l: Lists, base: int, low: nat, due: map<Co, nat>, x: Sleeper)
    requires ListsShow(l, base, low, due) && x.co !in due && x.wake < TICKS && base + TICKS + x.wake >= 0
    ensures ListsShow(l.(overflow := Insert(l.overflow, x)), base, low, due[x.co := base + TICKS + x.wake])
  {
    InsertRecorded(l.overflow, base + TICKS, 0, due, x);
    RecordedGrows(l.delayed, base, low, due, x.co, base + TICKS + x.wake);
    MoreHeld(l, l.(overflow := Insert(l.overflow, x)), due, x.co, base + TICKS + x.wake);
  }

  lemma PutInDelayed(l: Lists, base: int, low: nat, due: map<Co, nat>, x: Sleeper)
    requires ListsShow(l, base, low, due) && x.co !in due && low <= x.wake < TICKS && base + x.wake >= 0
    ensures ListsShow(l.(delayed := Insert(l.delayed, x)), base, low, due[x.co := base + x.wake])
  {
    InsertRecorded(l.delayed, base, low, due, x);
    RecordedGrows(l.overflow, base + TICKS, 0, due, x.co, base + x.wake);
    MoreHeld(l, l.(delayed := Insert(l.delayed, x)), due, x.co, base + x.wake);
  }

  lemma MoreHeld(l: Lists, l': Lists, due: map<Co, nat>, co: Co, at: nat)
    requires AllHeld(l.delayed, l.overflow, due)
    requires forall c :: Holds(l.delayed, c) ==> Holds(l'.delayed, c)
    requires forall c :: Holds(l.overflow, c) ==> Holds(l'.overflow, c)
    requires Holds(l'.delayed, co) || Holds(l'.overflow, co)
    ensures AllHeld(l'.delayed, l'.overflow, due[co := at])
  {
  }

  lemma InsertRecorded(l: seq<Sleeper>, base: int, low: nat, due: map<Co, nat>, x: Sleeper)
    requires Ordered(l) && Recorded(l, base, low, due) && x.co !in due && low <= x.wake < TICKS && base + x.wake >= 0
    ensures Ordered(Insert(l, x)) && Recorded(Insert(l, x), base, low, due[x.co := base + x.wake])
    ensures Holds(Insert(l, x), x.co) && forall c :: Holds(l, c) ==> Holds(Insert(l, x), c)
  {
    NotHeld(l, base, low, due, x.co);
    InsertOrdered(l, x);
    InsertMembers(l, x);
    HeldMore(l, Insert(l, x), x);
  }

  lemma RecordedGrows(l: seq<Sleeper>, base: int, low: nat, due: map<Co, nat>, co: Co, at: nat)
    requires Recorded(l, base, low, due) && co !in due
    ensures Recorded(l, base, low, due[co := at])
  {
  }

  lemma HeldMore(l: seq<Sleeper>, after: seq<Sleeper>, x: Sleeper)
    requires forall y :: y in after <==> y == x || y in l
    ensures Holds(after, x.co) && forall c :: Holds(l, c) ==> Holds(after, c)
  {
    assert x in after;
  }

  /** The swap of the two lists when the tick count has become zero. */
  function Swapped(tick: nat, l: Lists): Lists {
    if tick == 0 then Lists(l.overflow, l.delayed) else l
  }

  /** When the tick count overflows, the list that becomes the overflow list is empty. */
  lemma EmptyAtSwap(l: Lists, base: int, due: map<Co, nat>)
    requires ListsShow(l, base, TICKS, due)
    ensures l.delayed == []
  {
    if l.delayed != [] { Inhabited(l.delayed); }
  }

  lemma Inhabited(l: seq<Sleeper>)
    requires l != []
    ensures exists x :: x in l
  {
    assert l[0] in l;
  }

  /** The next tick, with the swap if it overflows: the lists still stand for the same due times. */
  lemma SwapShows(tick: nat, l: Lists, base: int, due: map<Co, nat>)
    requires tick < TICKS && ListsShow(l, base, tick + 1, due)
    ensures var t := Plus(tick, 1); ListsShow(Swapped(t, l), base + tick + 1 - t, t, due)
  {
    if tick + 1 == TICKS { EmptyAtSwap(l, base, due); }
  }

  /** A delay of no ticks, which the macros never ask for, is put at the head of the current list.
      The next tick finds it there unless that tick is the overflow; then, exactly, it is carried
      into the overflow list by the swap. */
  lemma ZeroDelay(tick: nat, l: Lists, base: int, due: map<Co, nat>, co: Co)
    requires ListsShow(l, base, tick + 1, due) && tick < TICKS && co !in due
    ensures var after := Swapped(Plus(tick, 1), PutToSleep(tick, l, co, 0));
            && (tick + 1 < TICKS ==> after.delayed == [Sleeper(co, tick)] + l.delayed)
            && (tick + 1 == TICKS ==> after.overflow == [Sleeper(co, tick)] && !Holds(after.delayed, co))
  {
    assert forall i :: 0 <= i < |l.delayed| ==> l.delayed[i] in l.delayed;
    KernelList.PositionUnique(Wakes(l.delayed), tick, 0);
    assert Insert(l.delayed, Sleeper(co, tick)) == [Sleeper(co, tick)] + l.delayed;
    NotHeld(l.overflow, base + TICKS, 0, due, co);
    assert PutToSleep(tick, l, co, 0) == l.(delayed := [Sleeper(co, tick)] + l.delayed);
    if tick + 1 == TICKS { EmptyAtSwap(l, base, due); }
  }

  /** uxListRemove on whichever of the delayed lists holds the co-routine. */
  function Drop(l: seq<Sleeper>, co: Co): (r: seq<Sleeper>)
    ensures forall x :: x in r <==> x in l && x.co != co
  {
    if l == [] then [] else if l[0].co == co then Drop(l[1..], co) else [l[0]] + Drop(l[1..], co)
  }

  lemma {:induction false} DropOrdered(l: seq<Sleeper>, co: Co)
    requires Ordered(l)
    ensures Ordered(Drop(l, co))
  {
    if l != [] {
      DropOrdered(l[1..], co);
      var rest := Drop(l[1..], co);
      forall i | 0 <= i < |rest| ensures l[0].wake <= rest[i].wake && l[0].co != rest[i].co {
        assert rest[i] in l[1..];
      }
    }
  }

  lemma DropHolds(l: seq<Sleeper>, co: Co)
    ensures forall c :: c != co && Holds(l, c) ==> Holds(Drop(l, co), c)
  {
    forall c | c != co && Holds(l, c) ensures Holds(Drop(l, co), c) {
      var x :| x in l && x.co == c;
      assert x in Drop(l, co);
    }
  }

  lemma DropRecorded(l: seq<Sleeper>, base: int, low: nat, due: map<Co, nat>, co: Co)
    requires Recorded(l, base, low, due)
    ensures Recorded(Drop(l, co), base, low, due - {co})
  {
  }

  lemma DropShows(l: Lists, base: int, low: nat, due: map<Co, nat>, co: Co)
    requires ListsShow(l, base, low, due)
    ensures ListsShow(Lists(Drop(l.delayed, co), Drop(l.overflow, co)), base, low, due - {co})
  {
    DropOrdered(l.delayed, co);
    DropOrdered(l.overflow, co);
    DropRecorded(l.delayed, base, low, due, co);
    DropRecorded(l.overflow, base + TICKS, 0, due, co);
    DropHolds(l.delayed, co);
    DropHolds(l.overflow, co);
  }

  // ----- the other lists -----

  /** Event items (on an event list or pending), the ready lists and the top-priority hint. */
  datatype Others = Others(waiting: set<Co>, pending: seq<Co>, ready: set<Co>, top: nat)

  /** prvAddCoRoutineToReadyQueue */
  function AddReady(q: Others, c: Co, priority: Co -> nat): Others {
    q.(ready := q.ready + {c}, top := if priority(c) > q.top then priority(c) else q.top)
  }

  /** No ready co-routine is above the hint. */
  ghost predicate TopBounds(q: Others, priority: Co -> nat) {
    forall c :: c in q.ready ==> priority(c) <= q.top
  }

  ghost predicate OthersShow(q: Others, waiting: set<Co>, pending: set<Co>, ready: set<Co>, priority: Co -> nat) {
    && q.waiting == waiting && q.ready == ready && TopBounds(q, priority)
    && Distinct(q.pending) && forall c :: c in q.pending <==> c in pending
  }

  lemma HoldsNext(l: seq<Sleeper>, k: nat)
    requires k < |l|
    ensures forall c :: Holds(l[..k + 1], c) <==> Holds(l[..k], c) || c == l[k].co
  {
    assert l[..k + 1] == l[..k] + [l[k]];
    assert l[k] in l[..k + 1];
    forall c | Holds(l[..k], c) ensures Holds(l[..k + 1], c) {
      var x :| x in l[..k] && x.co == c;
      assert x in l[..k + 1];
    }
  }

  /** A co-routine leaves its event list or the pending list, if it is on one, and becomes ready. */
  function WakeOne(q: Others, c: Co, priority: Co -> nat): Others {
    AddReady(q.(waiting := q.waiting - {c}, pending := Without(q.pending, c)), c, priority)
  }

  lemma WakeOneShows(q: Others, c: Co, priority: Co -> nat, waiting: set<Co>, pending: set<Co>, ready: set<Co>)
    requires OthersShow(q, waiting, pending, ready, priority)
    ensures OthersShow(WakeOne(q, c, priority), waiting - {c}, pending - {c}, ready + {c}, priority)
  {
    WithoutMembers(q.pending, c);
  }

  /** So far the first k sleepers of the list have been woken. */
  ghost predicate Releasing(l: seq<Sleeper>, k: nat, tick: nat, woken: set<Co>, q: Others, a: Clock,
                            priority: Co -> nat) {
    && k <= |l| && (forall i :: 0 <= i < k ==> l[i].wake <= tick)
    && (forall c :: c in woken <==> Holds(l[..k], c))
    && OthersShow(q, a.waiting - woken, a.pending - woken, a.ready + woken, priority)
  }

  lemma ReleaseNext(l: seq<Sleeper>, k: nat, tick: nat, woken: set<Co>, q: Others, a: Clock, priority: Co -> nat)
    requires Releasing(l, k, tick, woken, q, a, priority) && k < |l| && l[k].wake <= tick
    ensures Releasing(l, k + 1, tick, woken + {l[k].co}, WakeOne(q, l[k].co, priority), a, priority)
  {
    var c := l[k].co;
    HoldsNext(l, k);
    WakeOneShows(q, c, priority, a.waiting - woken, a.pending - woken, a.ready + woken);
    assert a.waiting - woken - {c} == a.waiting - (woken + {c});
    assert a.pending - woken - {c} == a.pending - (woken + {c});
    assert (a.ready + woken) + {c} == a.ready + (woken + {c});
  }

  /** In a sorted list, the due ones are a prefix. */
  ghost predicate Prefix(l: seq<Sleeper>, k: nat, tick: nat, woken: set<Co>) {
    && k <= |l|
    && (forall i :: 0 <= i < |l| ==> (i < k <==> l[i].wake <= tick) && (i < k <==> l[i].co in woken))
    && forall c :: c in woken <==> Holds(l[..k], c)
  }

  lemma DuePrefix(l: seq<Sleeper>, k: nat, tick: nat, woken: set<Co>)
    requires Ordered(l) && k <= |l| && (forall i :: 0 <= i < k ==> l[i].wake <= tick) && (k < |l| ==> l[k].wake > tick)
    requires forall c :: c in woken <==> Holds(l[..k], c)
    ensures Prefix(l, k, tick, woken)
  {
    forall i | 0 <= i < |l| ensures i < k <==> l[i].co in woken {
      if i < k { assert l[i] in l[..k]; }
    }
  }

  lemma RestHeld(l: seq<Sleeper>, k: nat, tick: nat, woken: set<Co>)
    requires Prefix(l, k, tick, woken)
    ensures forall c :: Holds(l, c) && c !in woken ==> Holds(l[k..], c)
    ensures forall x :: x in l[k..] ==> x in l && x.wake > tick && x.co !in woken
  {
    forall c | Holds(l, c) && c !in woken ensures Holds(l[k..], c) {
      var i :| 0 <= i < |l| && l[i].co == c;
      assert l[i] in l[k..];
    }
  }

  lemma WokenAreDue(tick: nat, l: Lists, base: int, due: map<Co, nat>, k: nat, woken: set<Co>)
    requires tick < TICKS && base + tick >= 0 && ListsShow(l, base, tick, due) && Prefix(l.delayed, k, tick, woken)
    ensures woken == DueAt(due, base + tick)
  {
    forall c | c in woken ensures c in due && due[c] == base + tick {
      var i :| 0 <= i < k && l.delayed[i].co == c;
      assert l.delayed[i] in l.delayed;
    }
    forall c | c in due && due[c] == base + tick ensures c in woken {
      assert !Holds(l.overflow, c);
      var i :| 0 <= i < |l.delayed| && l.delayed[i].co == c;
      assert l.delayed[i] in l.delayed;
    }
  }

  /** The heads that leave are exactly those due at this tick, and the rest stay represented. */
  lemma ReleasedAreDue(tick: nat, l: Lists, base: int, due: map<Co, nat>, k: nat, woken: set<Co>)
    requires tick < TICKS && base + tick >= 0 && ListsShow(l, base, tick, due) && k <= |l.delayed|
    requires forall i :: 0 <= i < k ==> l.delayed[i].wake <= tick
    requires k < |l.delayed| ==> l.delayed[k].wake > tick
    requires forall c :: c in woken <==> Holds(l.delayed[..k], c)
    ensures woken == DueAt(due, base + tick)
    ensures ListsShow(l.(delayed := l.delayed[k..]), base, tick + 1, due - woken)
  {
    DuePrefix(l.delayed, k, tick, woken);
    WokenAreDue(tick, l, base, due, k, woken);
    RestHeld(l.delayed, k, tick, woken);
  }

  /** A delay of no ticks ends with the next tick exactly when that tick is not the overflow: only then
      is the co-routine among the k sleepers that the tick releases. */
  lemma ZeroDelayEndsIff(tick: nat, l: Lists, base: int, due: map<Co, nat>, co: Co, k: nat)
    requires ListsShow(l, base, tick + 1, due) && tick < TICKS && co !in due
    requires var after := Swapped(Plus(tick, 1), PutToSleep(tick, l, co, 0)).delayed;
             && k <= |after| && (forall i :: 0 <= i < k ==> after[i].wake <= Plus(tick, 1))
             && (k < |after| ==> after[k].wake > Plus(tick, 1))
    ensures var after := Swapped(Plus(tick, 1), PutToSleep(tick, l, co, 0)).delayed;
            Holds(after[..k], co) <==> tick + 1 < TICKS
  {
    ZeroDelay(tick, l, base, due, co);
    var after := Swapped(Plus(tick, 1), PutToSleep(tick, l, co, 0)).delayed;
    assert forall x :: x in after[..k] ==> x in after;
    if tick + 1 < TICKS {
      assert after[0] == Sleeper(co, tick);
      assert after[0] in after[..k];
    }
  }

  /** The search at the end of vCoRoutineSchedule, from the hint downwards. */
  method HighestReady(q: Others, priority: Co -> nat) returns (top: nat, current: seq<Co>)
    requires TopBounds(q, priority)
    ensures TopBounds(q.(top := top), priority)
    ensures current == [] <==> q.ready == {}
    ensures current != [] ==> |current| == 1 && current[0] in q.ready && priority(current[0]) == top
  {
    top := q.top;
    while !(exists c :: c in q.ready && priority(c) == top)
      invariant TopBounds(q.(top := top), priority)
      decreases top
    {
      if top == 0 { return 0, []; }
      top := top - 1;
    }
    var c :| c in q.ready && priority(c) == top;
    current := [c];
  }

  // ----- the scheduler's variables -----

  datatype State = State(tick: nat, lists: Lists, others: Others)

  ghost predicate Shows(s: State, a: Clock, priority: Co -> nat) {
    && s.tick < TICKS && Inv(a)
    && ListsShow(s.lists, a.time - s.tick, s.tick + 1, a.due)
    && OthersShow(s.others, a.waiting, a.pending, a.ready, priority)
  }

  /** A co-routine has left the ready lists for the delayed ones. */
  ghost function Slept(s: State, co: Co, ticks: nat, onEvent: bool): State
    requires s.tick < TICKS && ticks < TICKS
  {
    var q := s.others.(ready := s.others.ready - {co},
                       waiting := if onEvent then s.others.waiting + {co} else s.others.waiting);
    State(s.tick, PutToSleep(s.tick, s.lists, co, ticks), q)
  }

  lemma DelayShows(s: State, co: Co, ticks: nat, onEvent: bool, priority: Co -> nat, a: Clock)
    requires Shows(s, a, priority) && co in a.ready && 1 <= ticks < TICKS
    ensures Shows(Slept(s, co, ticks, onEvent), Next(a, Delay(co, ticks, onEvent)), priority)
  {
    PutToSleepShows(s.tick, s.lists, a.time - s.tick, a.due, co, ticks);
    StepKeeps(a, Delay(co, ticks, onEvent));
  }

  /** When the first k sleepers have been woken and the next is not due, the tick is done. */
  lemma ReleasedShows(r: State, l: Lists, k: nat, woken: set<Co>, a: Clock, priority: Co -> nat)
    requires r.tick < TICKS && ListsShow(l, a.time + 1 - r.tick, r.tick, a.due)
    requires Inv(a) && Releasing(l.delayed, k, r.tick, woken, r.others, a, priority)
    requires k < |l.delayed| ==> l.delayed[k].wake > r.tick
    requires r.lists == l.(delayed := l.delayed[k..])
    ensures Shows(r, Next(a, Tick), priority)
  {
    StepKeeps(a, Tick);
    ReleasedAreDue(r.tick, l, a.time + 1 - r.tick, a.due, k, woken);
    TickShows(r, priority, a, woken);
  }

  lemma TickShows(r: State, priority: Co -> nat, a: Clock, woken: set<Co>)
    requires Inv(Next(a, Tick)) && r.tick < TICKS && woken == DueAt(a.due, a.time + 1)
    requires ListsShow(r.lists, a.time + 1 - r.tick, r.tick + 1, a.due - woken)
    requires OthersShow(r.others, a.waiting - woken, a.pending - woken, a.ready + woken, priority)
    ensures Shows(r, Next(a, Tick), priority)
  {
  }

  /** The head of the pending list has left both its lists and become ready. */
  ghost function PendingMoved(s: State, co: Co, priority: Co -> nat): State
    requires s.others.pending != []
  {
    State(s.tick, Lists(Drop(s.lists.delayed, co), Drop(s.lists.overflow, co)),
          AddReady(s.others.(pending := s.others.pending[1..]), co, priority))
  }

  lemma TakePendingShows(s: State, co: Co, priority: Co -> nat, a: Clock)
    requires Shows(s, a, priority) && s.others.pending != [] && co == s.others.pending[0]
    ensures co in a.pending && Shows(PendingMoved(s, co, priority), Next(a, TakePending(co)), priority)
  {
    HeadTakenShows(s.others, a.waiting, a.pending, a.ready, priority);
    StepKeeps(a, TakePending(co));
    DropShows(s.lists, a.time - s.tick, s.tick + 1, a.due, co);
  }

  lemma HeadTakenShows(q: Others, waiting: set<Co>, pending: set<Co>, ready: set<Co>, priority: Co -> nat)
    requires OthersShow(q, waiting, pending, ready, priority) && q.pending != []
    ensures var co := q.pending[0];
            co in pending && OthersShow(AddReady(q.(pending := q.pending[1..]), co, priority), waiting,
                                        pending - {co}, ready + {co}, priority)
  {
    HeadTaken(q.pending, pending);
  }

  lemma HeadTaken(l: seq<Co>, pending: set<Co>)
    requires l != [] && Distinct(l) && forall c :: c in l <==> c in pending
    ensures Distinct(l[1..]) && forall c :: c in l[1..] <==> c in pending - {l[0]}
  {
    assert l == [l[0]] + l[1..];
    assert l[0] !in l[1..];
  }

  lemma NonePending(s: State, a: Clock, priority: Co -> nat)
    requires Shows(s, a, priority) && s.others.pending == []
    ensures a.pending == {}
  {
    assert forall c :: c in a.pending ==> c in s.others.pending;
  }

  lemma LoweredTop(s: State, top: nat, priority: Co -> nat, a: Clock)
    requires Shows(s, a, priority) && TopBounds(s.others.(top := top), priority)
    ensures Shows(s.(others := s.others.(top := top)), a, priority)
  {
  }

  class Scheduler {
    const priority: Co -> nat
    var pxDelayed: seq<Sleeper>
    var pxOverflowDelayed: seq<Sleeper>
    var eventItems: set<Co>
    var xPendingReady: seq<Co>
    var ready: set<Co>
    var uxTopReadyPriority: nat
    var xCoRoutineTickCount: nat
    var xLastTickCount: nat
    ghost var a: Clock

    function Queues(): Others
      reads this
    {
      Others(eventItems, xPendingReady, ready, uxTopReadyPriority)
    }

    ghost function Value(): State
      reads this
    {
      State(xCoRoutineTickCount, Lists(pxDelayed, pxOverflowDelayed), Queues())
    }

    ghost predicate Valid()
      reads this
    {
      Shows(Value(), a, priority) && xLastTickCount == xCoRoutineTickCount
    }

    constructor (priority: Co -> nat)
      ensures Valid() && a == Clock(0, map[], {}, {}, {}) && this.priority == priority
    {
      this.priority := priority;
      pxDelayed, pxOverflowDelayed, eventItems, xPendingReady, ready := [], [], {}, [], {};
      uxTopReadyPriority, xCoRoutineTickCount, xLastTickCount := 0, 0, 0;
      a := Clock(0, map[], {}, {}, {});
    }

    /** prvAddCoRoutineToReadyQueue */
    method MakeReady(co: Co)
      modifies this`ready, this`uxTopReadyPriority
      ensures Queues() == AddReady(old(Queues()), co, priority)
    {
      if priority(co) > uxTopReadyPriority {
        uxTopReadyPriority := priority(co);
      }
      ready := ready + {co};
    }

    /** The list part of xCoRoutineCreate. */
    method Create(co: Co)
      requires Valid() && Enabled(a, Step.Create(co))
      modifies this`ready, this`uxTopReadyPriority, this`a
      ensures Valid() && a == Next(old(a), Step.Create(co))
    {
      CreateShows(Value(), co, priority, a);
      MakeReady(co);
      a := Next(a, Step.Create(co));
    }

    /** The code of vCoRoutineAddToDelayedList. */
    method PutInList(co: Co, ticks: nat, onEvent: bool)
      requires xCoRoutineTickCount < TICKS && ticks < TICKS
      modifies this`ready, this`pxDelayed, this`pxOverflowDelayed, this`eventItems
      ensures Value() == Slept(old(Value()), co, ticks, onEvent)
    {
      var wake := Plus(xCoRoutineTickCount, ticks);
      ready := ready - {co};
      if wake < xCoRoutineTickCount {
        pxOverflowDelayed := Insert(pxOverflowDelayed, Sleeper(co, wake));
      } else {
        pxDelayed := Insert(pxDelayed, Sleeper(co, wake));
      }
      if onEvent {
        eventItems := eventItems + {co};
      }
    }

    /** vCoRoutineAddToDelayedList, called by a running (hence ready) co-routine. */
    method AddToDelayedList(co: Co, ticks: nat, onEvent: bool)
      requires Valid() && co in a.ready && ticks < TICKS
      modifies this
      ensures Value() == Slept(old(Value()), co, ticks, onEvent)
      ensures ticks >= 1 ==> Valid() && a == Next(old(a), Delay(co, ticks, onEvent))
    {
      if ticks >= 1 { DelayShows(Value(), co, ticks, onEvent, priority, a); }
      PutInList(co, ticks, onEvent);
      if ticks >= 1 { a := Next(a, Delay(co, ticks, onEvent)); }
    }

    /** One head of the delayed list that is due. */
    method WakeHead()
      requires pxDelayed != []
      modifies this`pxDelayed, this`eventItems, this`xPendingReady, this`ready, this`uxTopReadyPriority
      ensures pxDelayed == old(pxDelayed)[1..] && Queues() == WakeOne(old(Queues()), old(pxDelayed)[0].co, priority)
    {
      var co := pxDelayed[0].co;
      pxDelayed := pxDelayed[1..];
      eventItems := eventItems - {co};
      xPendingReady := Without(xPendingReady, co);
      MakeReady(co);
    }

    /** The inner loop of prvCheckDelayedList: heads that are due leave the list, together with any
        event or pending item of theirs. */
    method ReleaseDue() returns (ghost k: nat, ghost woken: set<Co>)
      requires OthersShow(Queues(), a.waiting, a.pending, a.ready, priority)
      modifies this`pxDelayed, this`eventItems, this`xPendingReady, this`ready, this`uxTopReadyPriority
      ensures Releasing(old(pxDelayed), k, xCoRoutineTickCount, woken, Queues(), a, priority)
      ensures pxDelayed == old(pxDelayed)[k..] && (pxDelayed != [] ==> pxDelayed[0].wake > xCoRoutineTickCount)
    {
      k, woken := 0, {};
      ghost var l := pxDelayed;
      assert l[..0] == [] && a.waiting - {} == a.waiting && a.pending - {} == a.pending && a.ready + {} == a.ready;
      while pxDelayed != []
        invariant Releasing(l, k, xCoRoutineTickCount, woken, Queues(), a, priority) && pxDelayed == l[k..]
        decreases |pxDelayed|
      {
        if xCoRoutineTickCount < pxDelayed[0].wake { break; }
        ReleaseNext(l, k, xCoRoutineTickCount, woken, Queues(), a, priority);
        WakeHead();
        k, woken := k + 1, woken + {l[k].co};
      }
    }

    /** The count goes up, and when it overflows the lists change places. */
    method CountUp()
      requires xCoRoutineTickCount < TICKS
      modifies this`xCoRoutineTickCount, this`pxDelayed, this`pxOverflowDelayed
      ensures xCoRoutineTickCount == Plus(old(xCoRoutineTickCount), 1)
      ensures Lists(pxDelayed, pxOverflowDelayed)
          == Swapped(xCoRoutineTickCount, Lists(old(pxDelayed), old(pxOverflowDelayed)))
    {
      xCoRoutineTickCount := Plus(xCoRoutineTickCount, 1);
      if xCoRoutineTickCount == 0 {
        pxDelayed, pxOverflowDelayed := pxOverflowDelayed, pxDelayed;
      }
    }

    /** One turn of the outer loop of prvCheckDelayedList. */
    method OneTick()
      requires Shows(Value(), a, priority)
      modifies this
      ensures Shows(Value(), a, priority) && a == Next(old(a), Tick)
      ensures xCoRoutineTickCount == Plus(old(xCoRoutineTickCount), 1) && xLastTickCount == old(xLastTickCount)
    {
      SwapShows(xCoRoutineTickCount, Lists(pxDelayed, pxOverflowDelayed), a.time - xCoRoutineTickCount, a.due);
      CountUp();
      ghost var l := Lists(pxDelayed, pxOverflowDelayed);
      ghost var k, woken := ReleaseDue();
      ReleasedShows(Value(), l, k, woken, a, priority);
      a := Next(a, Tick);
    }

    /** prvCheckDelayedList, given the kernel's tick count: every tick since the last call is taken
        one by one. */
    method CheckDelayedList(now: nat)
      requires Valid() && now < TICKS
      modifies this
      ensures Valid() && xCoRoutineTickCount == now
      ensures a == Ticks(old(a), Minus(now, old(xCoRoutineTickCount)))
    {
      var xPassedTicks: nat := Minus(now, xLastTickCount);
      ghost var passed: nat := xPassedTicks;
      while xPassedTicks > 0
        invariant xPassedTicks <= passed && xCoRoutineTickCount == Plus(old(xCoRoutineTickCount), passed - xPassedTicks)
        invariant Ticks(a, xPassedTicks) == Ticks(old(a), passed) && Shows(Value(), a, priority)
        decreases xPassedTicks
      {
        OneTick();
        xPassedTicks := xPassedTicks - 1;
      }
      xLastTickCount := xCoRoutineTickCount;
    }

    /** xCoRoutineRemoveFromEventList, with the head of the event list given; the result says whether
        it has at least the priority of the running co-routine. */
    method RemoveFromEventList(co: Co, current: Co) returns (atLeast: bool)
      requires Valid() && co in a.waiting
      modifies this`eventItems, this`xPendingReady, this`a
      ensures Valid() && a == Next(old(a), IsrReady(co))
      ensures atLeast <==> priority(co) >= priority(current)
    {
      IsrReadyShows(Value(), co, priority, a);
      eventItems := eventItems - {co};
      xPendingReady := xPendingReady + [co];
      a := Next(a, IsrReady(co));
      atLeast := priority(co) >= priority(current);
    }

    /** The code of one turn of the loop of prvCheckPendingReadyList. */
    method MoveHeadPending() returns (co: Co)
      requires xPendingReady != []
      modifies this`pxDelayed, this`pxOverflowDelayed, this`xPendingReady, this`ready, this`uxTopReadyPriority
      ensures co == old(xPendingReady)[0] && Value() == PendingMoved(old(Value()), co, priority)
    {
      co := xPendingReady[0];
      xPendingReady := xPendingReady[1..];
      pxDelayed := Drop(pxDelayed, co);
      pxOverflowDelayed := Drop(pxOverflowDelayed, co);
      MakeReady(co);
    }

    method TakeHeadPending()
      requires Valid() && xPendingReady != []
      modifies this
      ensures Valid() && xCoRoutineTickCount == old(xCoRoutineTickCount) && xPendingReady == old(xPendingReady)[1..]
      ensures old(xPendingReady)[0] in old(a).pending && a == Next(old(a), TakePending(old(xPendingReady)[0]))
    {
      TakePendingShows(Value(), xPendingReady[0], priority, a);
      var co := MoveHeadPending();
      a := Next(a, TakePending(co));
    }

    /** prvCheckPendingReadyList: everything pending becomes ready and leaves its delayed list. */
    method CheckPendingReadyList()
      requires Valid()
      modifies this
      ensures Valid() && xCoRoutineTickCount == old(xCoRoutineTickCount) && xPendingReady == []
      ensures a == AllPendingTaken(old(a))
    {
      ghost var done := {};
      assert PendingTaken(a, done) == a;
      while xPendingReady != []
        invariant Valid() && xCoRoutineTickCount == old(xCoRoutineTickCount)
        invariant done <= old(a).pending && a == PendingTaken(old(a), done)
        decreases |xPendingReady|
      {
        ghost var co := xPendingReady[0];
        TakeHeadPending();
        TakeOneMore(old(a), done, co);
        done := done + {co};
      }
      NonePending(Value(), a, priority);
      assert done == old(a).pending;
    }

    /** vCoRoutineSchedule up to the call: one of the ready co-routines of highest priority is
        picked, unless none is ready. */
    method Schedule(now: nat) returns (current: seq<Co>)
      requires Valid() && now < TICKS
      modifies this
      ensures Valid() && xCoRoutineTickCount == now
      ensures current == [] <==> ready == {}
      ensures current != [] ==> |current| == 1 && current[0] in ready
                                && forall c :: c in ready ==> priority(c) <= priority(current[0])
      ensures a == Ticks(AllPendingTaken(old(a)), Minus(now, old(xCoRoutineTickCount)))
    {
      CheckPendingReadyList();
      CheckDelayedList(now);
      var top;
      top, current := HighestReady(Queues(), priority);
      LoweredTop(Value(), top, priority, a);
      uxTopReadyPriority := top;
    }
  }

  lemma CreateShows(s: State, co: Co, priority: Co -> nat, a: Clock)
    requires Shows(s, a, priority) && Enabled(a, Create(co))
    ensures Shows(s.(others := AddReady(s.others, co, priority)), Next(a, Create(co)), priority)
  {
  }

  lemma IsrReadyShows(s: State, co: Co, priority: Co -> nat, a: Clock)
    requires Shows(s, a, priority) && co in a.waiting
    ensures Shows(s.(others := s.others.(waiting := s.others.waiting - {co}, pending := s.others.pending + [co])),
                  Next(a, IsrReady(co)), priority)
  {
    StepKeeps(a, IsrReady(co));
  }

  ghost function PendingTaken(a: Clock, done: set<Co>): Clock {
    a.(due := a.due - done, pending := a.pending - done, ready := a.ready + done)
  }

  ghost function AllPendingTaken(a: Clock): Clock {
    PendingTaken(a, a.pending)
  }

  lemma TakeOneMore(a: Clock, done: set<Co>, co: Co)
    requires co in PendingTaken(a, done).pending
    ensures Next(PendingTaken(a, done), TakePending(co)) == PendingTaken(a, done + {co})
  {
    assert a.due - done - {co} == a.due - (done + {co});
    assert a.pending - done - {co} == a.pending - (done + {co});
    assert a.ready + done + {co} == a.ready + (done + {co});
  }
}
