/**
 Event loop timers (furi/core/event_loop_timer.c): a list of active timers ordered by remaining time
 under a wrapping 32-bit tick count, and a queue of requests that the loop serves in order.

 The loop's timer part is a state machine whose steps are the public calls, one served request, one
 expired timer, and the passing of ticks.  The one assumption of the design is that no active timer
 is left unserved until its elapsed time wraps; it is the guard of the passing of ticks.
 */
module LoopTimers {
  import opened Common
  import opened Tick32
  import KernelList

  type Id = nat

  const WAIT_FOREVER: Tick := 0xFFFF_FFFF

  datatype Request = NoRequest | Start | Stop | Free

  datatype Timer = Timer(interval: Tick, start: Tick, nextInterval: Tick, request: Request, active: bool,
                         periodic: bool)

  datatype Loop = Loop(now: Tick, timers: map<Id, Timer>, list: seq<Id>, queue: seq<Id>)

  function Elapsed(now: Tick, t: Timer): Tick {
    Minus(now, t.start)
  }

  function Remaining(now: Tick, t: Timer): Tick {
    if Elapsed(now, t) < t.interval then t.interval - Elapsed(now, t) else 0
  }

  predicate Expired(now: Tick, t: Timer) {
    Elapsed(now, t) >= t.interval
  }

  function Rem(now: Tick, timers: map<Id, Timer>, id: Id): Tick {
    if id in timers then Remaining(now, timers[id]) else 0
  }

  // ----- invariants -----

  /** The list holds exactly the active timers, each once. */
  ghost predicate Linked(timers: map<Id, Timer>, list: seq<Id>) {
    && Distinct(list)
    && (forall id :: id in list ==> id in timers)
    && forall id :: id in timers ==> (timers[id].active <==> id in list)
  }

  /** The queue holds exactly the timers with a request, each once. */
  ghost predicate Queued(timers: map<Id, Timer>, queue: seq<Id>) {
    && Distinct(queue)
    && (forall id :: id in queue ==> id in timers)
    && forall id :: id in timers ==> (timers[id].request != NoRequest <==> id in queue)
  }

  /** The list is ordered by remaining time. */
  ghost predicate ByRemaining(now: Tick, timers: map<Id, Timer>, list: seq<Id>) {
    forall i, j :: 0 <= i < j < |list| ==> Rem(now, timers, list[i]) <= Rem(now, timers, list[j])
  }

  ghost predicate Inv(s: Loop) {
    Linked(s.timers, s.list) && Queued(s.timers, s.queue) && ByRemaining(s.now, s.timers, s.list)
  }

  // ----- scheduling -----

  /** Behind the last timer that has no more time left than r, found from the back. */
  function Place(now: Tick, timers: map<Id, Timer>, list: seq<Id>, r: Tick): (k: nat)
    ensures k <= |list| && (k > 0 ==> r >= Rem(now, timers, list[k - 1]))
    ensures forall i :: k <= i < |list| ==> r < Rem(now, timers, list[i])
    decreases |list|
  {
    if list == [] then 0
    else if r >= Rem(now, timers, list[|list| - 1]) then |list|
    else Place(now, timers, list[..|list| - 1], r)
  }

  /** The backward search of furi_event_loop_schedule_timer. */
  method FindPlace(now: Tick, timers: map<Id, Timer>, list: seq<Id>, r: Tick) returns (k: nat)
    ensures k == Place(now, timers, list, r)
  {
    k := |list|;
    while k > 0
      invariant k <= |list| && Place(now, timers, list, r) == Place(now, timers, list[..k], r)
    {
      if r >= Rem(now, timers, list[k - 1]) { return; }
      assert list[..k][..k - 1] == list[..k - 1];
      k := k - 1;
    }
  }

  function Scheduled(now: Tick, timers: map<Id, Timer>, list: seq<Id>, id: Id): seq<Id> {
    KernelList.InsertAt(list, Place(now, timers, list, Rem(now, timers, id)), id)
  }

  lemma ScheduledMembers(now: Tick, timers: map<Id, Timer>, list: seq<Id>, id: Id)
    ensures forall x :: x in Scheduled(now, timers, list, id) <==> x == id || x in list
    ensures Distinct(list) && id !in list ==> Distinct(Scheduled(now, timers, list, id))
  {
    InsertedMembers(list, Place(now, timers, list, Rem(now, timers, id)), id);
  }

  lemma InsertedMembers(list: seq<Id>, k: nat, id: Id)
    requires k <= |list|
    ensures forall x :: x in KernelList.InsertAt(list, k, id) <==> x == id || x in list
    ensures Distinct(list) && id !in list ==> Distinct(KernelList.InsertAt(list, k, id))
  {
    assert list == list[..k] + list[k..];
  }

  lemma ScheduledSorted(now: Tick, timers: map<Id, Timer>, list: seq<Id>, id: Id)
    requires ByRemaining(now, timers, list)
    ensures ByRemaining(now, timers, Scheduled(now, timers, list, id))
  {
  }

  lemma {:induction false} UnlinkSorted(now: Tick, timers: map<Id, Timer>, list: seq<Id>, id: Id)
    requires ByRemaining(now, timers, list)
    ensures ByRemaining(now, timers, Without(list, id))
    decreases |list|
  {
    if list != [] {
      var rest := Without(list[1..], id);
      WithoutMembers(list[1..], id);
      UnlinkSorted(now, timers, list[1..], id);
      forall i | 0 <= i < |rest| ensures Rem(now, timers, list[0]) <= Rem(now, timers, rest[i]) {
        assert rest[i] in list[1..];
      }
    }
  }

  /** Order depends only on the remaining times of the listed timers. */
  lemma SortedFrame(now: Tick, timers: map<Id, Timer>, now': Tick, timers': map<Id, Timer>, list: seq<Id>)
    requires ByRemaining(now, timers, list)
    requires forall id :: id in list ==> Rem(now', timers', id) == Rem(now, timers, id)
    ensures ByRemaining(now', timers', list)
  {
  }

  // ----- steps -----

  datatype Step =
    | Alloc(id: Id, isPeriodic: bool)
    | StartTimer(id: Id, interval: Tick)
    | RestartTimer(id: Id)
    | StopTimer(id: Id)
    | FreeTimer(id: Id)
    | Serve
    | Fire
    | Pass(ticks: Tick)

  /** furi_event_loop_timer_enqueue_request */
  function Enqueue(s: Loop, id: Id, request: Request, next: Tick): Loop
    requires id in s.timers
  {
    var t := s.timers[id];
    s.(timers := s.timers[id := t.(nextInterval := next, request := request)],
       queue := (if t.request != NoRequest then Without(s.queue, id) else s.queue) + [id])
  }

  function Unlinked(s: Loop, id: Id): seq<Id>
    requires id in s.timers
  {
    if s.timers[id].active then Without(s.list, id) else s.list
  }

  /** One turn of the loop of furi_event_loop_process_timer_queue. */
  function ServeOne(s: Loop): Loop
    requires s.queue != [] && s.queue[0] in s.timers
  {
    var id := s.queue[0];
    var t := s.timers[id];
    var s1 := s.(queue := s.queue[1..], list := Unlinked(s, id));
    match t.request
    case Start =>
      var timers := s.timers[id := t.(active := true, interval := t.nextInterval, start := s.now,
                                      request := NoRequest)];
      s1.(timers := timers, list := Scheduled(s.now, timers, s1.list, id))
    case Stop => s1.(timers := s.timers[id := t.(active := false, request := NoRequest)])
    case Free => s1.(timers := s.timers - {id})
    case NoRequest => s1
  }

  /** The start time of a periodic timer after it has expired. */
  function Advanced(now: Tick, t: Timer): Timer
    requires t.interval > 0
  {
    var events := Elapsed(now, t) / t.interval;
    WholeIntervals(Elapsed(now, t), t.interval);
    t.(start := Plus(t.start, t.interval * events))
  }

  lemma WholeIntervals(elapsed: nat, interval: nat)
    requires interval > 0
    ensures 0 <= interval * (elapsed / interval) <= elapsed
    ensures elapsed - interval * (elapsed / interval) == elapsed % interval < interval
  {
  }

  /** The loop has an expired timer to run. */
  predicate CanFire(s: Loop) {
    s.list != [] && s.list[0] in s.timers && Expired(s.now, s.timers[s.list[0]])
  }

  /** A periodic timer of interval zero makes the code divide by zero when it expires. */
  predicate DividesByZero(s: Loop) {
    CanFire(s) && s.timers[s.list[0]].periodic && s.timers[s.list[0]].interval == 0
  }

  /** furi_event_loop_process_expired_timers */
  function FireFirst(s: Loop): Loop
    requires CanFire(s) && !DividesByZero(s)
  {
    var id := s.list[0];
    var t := s.timers[id];
    if t.periodic then
      var timers := s.timers[id := Advanced(s.now, t)];
      s.(timers := timers, list := Scheduled(s.now, timers, s.list[1..], id))
    else
      s.(timers := s.timers[id := t.(active := false)], list := s.list[1..])
  }

  ghost predicate Enabled(s: Loop, step: Step) {
    match step
    case Alloc(id, _) => id !in s.timers
    case StartTimer(id, _) => id in s.timers && s.timers[id].request != Free
    case RestartTimer(id) => id in s.timers && s.timers[id].request != Free
    case StopTimer(id) => id in s.timers && s.timers[id].request != Free
    case FreeTimer(id) => id in s.timers && s.timers[id].request != Free
    case Serve => s.queue != [] && s.queue[0] in s.timers
    case Fire => CanFire(s) && !DividesByZero(s)
    case Pass(ticks) =>
      forall id :: id in s.timers && s.timers[id].active ==> Elapsed(s.now, s.timers[id]) + ticks < TICKS
  }

  ghost function Next(s: Loop, step: Step): Loop
    requires Enabled(s, step)
  {
    match step
    case Alloc(id, isPeriodic) => s.(timers := s.timers[id := Timer(0, 0, 0, NoRequest, false, isPeriodic)])
    case StartTimer(id, interval) => Enqueue(s, id, Start, interval)
    case RestartTimer(id) => Enqueue(s, id, Start, s.timers[id].interval)
    case StopTimer(id) => Enqueue(s, id, Stop, s.timers[id].nextInterval)
    case FreeTimer(id) => Enqueue(s, id, Free, s.timers[id].nextInterval)
    case Serve => ServeOne(s)
    case Fire => FireFirst(s)
    case Pass(ticks) => s.(now := Plus(s.now, ticks))
  }

  // ----- every step keeps the invariant -----

  lemma EnqueueKeeps(s: Loop, id: Id, request: Request, next: Tick)
    requires Inv(s) && id in s.timers && request != NoRequest
    ensures Inv(Enqueue(s, id, request, next))
  {
    var s' := Enqueue(s, id, request, next);
    WithoutMembers(s.queue, id);
    SortedFrame(s.now, s.timers, s.now, s'.timers, s.list);
  }

  lemma UnlinkKeeps(s: Loop, id: Id)
    requires Inv(s) && id in s.timers
    ensures Distinct(Unlinked(s, id)) && ByRemaining(s.now, s.timers, Unlinked(s, id))
    ensures forall x :: x in Unlinked(s, id) <==> x in s.list && x != id
  {
    WithoutMembers(s.list, id);
    UnlinkSorted(s.now, s.timers, s.list, id);
  }

  lemma HeadServed(timers: map<Id, Timer>, queue: seq<Id>)
    requires Queued(timers, queue) && queue != []
    ensures queue[0] in timers && timers[queue[0]].request != NoRequest
    ensures Distinct(queue[1..]) && forall x :: x in queue[1..] <==> x in queue && x != queue[0]
  {
    assert queue == [queue[0]] + queue[1..];
    assert queue[0] in queue && queue[0] !in queue[1..];
  }

  lemma ServeKeeps(s: Loop)
    requires Inv(s) && s.queue != []
    ensures s.queue[0] in s.timers && s.timers[s.queue[0]].request != NoRequest
    ensures Inv(ServeOne(s))
  {
    HeadServed(s.timers, s.queue);
    if s.timers[s.queue[0]].request == Start {
      ServeStartKeeps(s);
    } else {
      ServeEndKeeps(s);
    }
  }

  lemma ServeStartKeeps(s: Loop)
    requires Inv(s) && s.queue != [] && s.queue[0] in s.timers && s.timers[s.queue[0]].request == Start
    ensures Inv(ServeOne(s))
  {
    var id, timers' := s.queue[0], ServeOne(s).timers;
    HeadServed(s.timers, s.queue);
    UnlinkKeeps(s, id);
    SortedFrame(s.now, s.timers, s.now, timers', Unlinked(s, id));
    ScheduledMembers(s.now, timers', Unlinked(s, id), id);
    ScheduledSorted(s.now, timers', Unlinked(s, id), id);
  }

  lemma ServeEndKeeps(s: Loop)
    requires Inv(s) && s.queue != [] && s.queue[0] in s.timers
    requires s.timers[s.queue[0]].request == Stop || s.timers[s.queue[0]].request == Free
    ensures Inv(ServeOne(s))
  {
    HeadServed(s.timers, s.queue);
    UnlinkKeeps(s, s.queue[0]);
    SortedFrame(s.now, s.timers, s.now, ServeOne(s).timers, Unlinked(s, s.queue[0]));
  }

  /** A periodic timer keeps its phase: its start moves by whole intervals, to the last one that has
      begun, and it has time left again. */
  lemma AdvancedKeepsPhase(now: Tick, t: Timer)
    requires t.interval > 0
    ensures var t' := Advanced(now, t);
            && t' == t.(start := t'.start)
            && Elapsed(now, t') == Elapsed(now, t) % t.interval
            && Remaining(now, t') == t.interval - Elapsed(now, t) % t.interval > 0
  {
    WholeIntervals(Elapsed(now, t), t.interval);
  }

  lemma FireKeeps(s: Loop)
    requires Inv(s) && CanFire(s) && !DividesByZero(s)
    ensures Inv(FireFirst(s))
  {
    var id, rest, timers' := s.list[0], s.list[1..], FireFirst(s).timers;
    HeadUnlinked(s.now, s.timers, s.list);
    SortedFrame(s.now, s.timers, s.now, timers', rest);
    if s.timers[id].periodic {
      ScheduledMembers(s.now, timers', rest, id);
      ScheduledSorted(s.now, timers', rest, id);
    }
  }

  lemma HeadUnlinked(now: Tick, timers: map<Id, Timer>, list: seq<Id>)
    requires Distinct(list) && ByRemaining(now, timers, list) && list != []
    ensures Distinct(list[1..]) && ByRemaining(now, timers, list[1..])
    ensures forall x :: x in list[1..] <==> x in list && x != list[0]
  {
    assert list == [list[0]] + list[1..];
    assert list[0] !in list[1..];
  }

  /** As ticks pass, remaining times go down together and stop at zero. */
  lemma RemainingPasses(now: Tick, t: Timer, ticks: Tick)
    requires Elapsed(now, t) + ticks < TICKS
    ensures var now' := Plus(now, ticks);
            && Elapsed(now', t) == Elapsed(now, t) + ticks
            && Remaining(now', t) == Less(Remaining(now, t), ticks)
  {
  }

  /** Truncated subtraction keeps order, so the passing of ticks does. */
  lemma PassSorted(now: Tick, now': Tick, timers: map<Id, Timer>, list: seq<Id>, ticks: nat)
    requires ByRemaining(now, timers, list)
    requires forall id :: id in list ==> Rem(now', timers, id) == Less(Rem(now, timers, id), ticks)
    ensures ByRemaining(now', timers, list)
  {
  }

  lemma PassKeeps(s: Loop, ticks: Tick)
    requires Inv(s) && Enabled(s, Pass(ticks))
    ensures Inv(Next(s, Pass(ticks)))
  {
    var now' := Plus(s.now, ticks);
    forall id | id in s.list ensures Rem(now', s.timers, id) == Less(Rem(s.now, s.timers, id), ticks) {
      RemainingPasses(s.now, s.timers[id], ticks);
    }
    PassSorted(s.now, now', s.timers, s.list, ticks);
  }

  lemma StepKeeps(s: Loop, step: Step)
    requires Inv(s) && Enabled(s, step)
    ensures Inv(Next(s, step))
  {
    match step
    case Alloc(id, _) => SortedFrame(s.now, s.timers, s.now, Next(s, step).timers, s.list);
    case StartTimer(id, interval) => EnqueueKeeps(s, id, Start, interval);
    case RestartTimer(id) => EnqueueKeeps(s, id, Start, s.timers[id].interval);
    case StopTimer(id) => EnqueueKeeps(s, id, Stop, s.timers[id].nextInterval);
    case FreeTimer(id) => EnqueueKeeps(s, id, Free, s.timers[id].nextInterval);
    case Serve => ServeKeeps(s);
    case Fire => FireKeeps(s);
    case Pass(ticks) => PassKeeps(s, ticks);
  }

  // ----- runs -----

  ghost predicate Executes(s: Loop, run: seq<Step>)
    decreases |run|
  {
    run == [] || (Enabled(s, run[0]) && Executes(Next(s, run[0]), run[1..]))
  }

  ghost function RunTo(s: Loop, run: seq<Step>): Loop
    requires Executes(s, run)
    decreases |run|
  {
    if run == [] then s else RunTo(Next(s, run[0]), run[1..])
  }

  lemma {:induction false} RunKeeps(s: Loop, run: seq<Step>)
    requires Inv(s) && Executes(s, run)
    ensures Inv(RunTo(s, run))
    decreases |run|
  {
    if run != [] {
      StepKeeps(s, run[0]);
      RunKeeps(Next(s, run[0]), run[1..]);
    }
  }

  lemma InitKeeps(now: Tick)
    ensures Inv(Loop(now, map[], [], []))
  {
  }

  /** furi_event_loop_get_timer_wait_time */
  function WaitTime(s: Loop): Tick {
    if s.list == [] then WAIT_FOREVER else Rem(s.now, s.timers, s.list[0])
  }

  ghost predicate Active(s: Loop, id: Id) {
    id in s.timers && s.timers[id].active
  }

  /** In every reachable state the loop's sleep is the smallest remaining time over the active timers. */
  lemma SleepIsSmallest(now: Tick, run: seq<Step>)
    requires Executes(Loop(now, map[], [], []), run)
    ensures var s := RunTo(Loop(now, map[], [], []), run);
            && (forall id :: Active(s, id) ==> WaitTime(s) <= Rem(s.now, s.timers, id))
            && ((exists id :: Active(s, id)) ==> exists id :: Active(s, id) && WaitTime(s) == Rem(s.now, s.timers, id))
  {
    InitKeeps(now);
    RunKeeps(Loop(now, map[], [], []), run);
    FrontIsSmallest(RunTo(Loop(now, map[], [], []), run));
  }

  lemma FrontIsSmallest(s: Loop)
    requires Inv(s)
    ensures forall id :: Active(s, id) ==> s.list != [] && WaitTime(s) <= Rem(s.now, s.timers, id)
    ensures s.list != [] ==> Active(s, s.list[0]) && WaitTime(s) == Rem(s.now, s.timers, s.list[0])
  {
    forall id | Active(s, id) ensures s.list != [] && WaitTime(s) <= Rem(s.now, s.timers, id) {
      var k :| 0 <= k < |s.list| && s.list[k] == id;
    }
    if s.list != [] { assert s.list[0] in s.list; }
  }

  /** Sleeping for any shorter time leaves no timer expired; after the full sleep the first one is
      exactly at its end, and the loop can run it. */
  lemma SleepIsExact(s: Loop, ticks: Tick)
    requires Inv(s) && s.list != [] && ticks <= WaitTime(s) && Enabled(s, Pass(ticks))
    ensures var s' := Next(s, Pass(ticks));
            && (ticks < WaitTime(s) ==> forall id :: Active(s', id) ==> !Expired(s'.now, s'.timers[id]))
            && (ticks == WaitTime(s) ==> CanFire(s'))
  {
    FrontIsSmallest(s);
    forall id | Active(s, id)
      ensures Remaining(Plus(s.now, ticks), s.timers[id]) == Less(Rem(s.now, s.timers, id), ticks)
    {
      RemainingPasses(s.now, s.timers[id], ticks);
    }
  }

  function Passed(run: seq<Step>): nat {
    if run == [] then 0 else TicksOf(run[0]) + Passed(run[1..])
  }

  predicate Requests(step: Step, id: Id) {
    match step
    case StartTimer(x, _) => x == id
    case RestartTimer(x) => x == id
    case StopTimer(x) => x == id
    case FreeTimer(x) => x == id
    case Alloc(_, _) => false
    case Serve => false
    case Fire => false
    case Pass(_) => false
  }

  /** id is a running periodic timer that nobody has asked to change. */
  ghost predicate Cycling(s: Loop, id: Id, interval: Tick) {
    && Active(s, id) && s.timers[id].request == NoRequest
    && s.timers[id].periodic && s.timers[id].interval == interval > 0
  }

  function TicksOf(step: Step): nat {
    if step.Pass? then step.ticks else 0
  }

  /** A number of whole intervals. */
  ghost function Whole(interval: nat, n: nat): nat {
    if n == 0 then 0 else interval + Whole(interval, n - 1)
  }

  lemma {:induction false} WholeSum(interval: nat, m: nat, n: nat)
    ensures Whole(interval, m + n) == Whole(interval, m) + Whole(interval, n)
  {
    if m > 0 { WholeSum(interval, m - 1, n); }
  }

  lemma {:induction false} WholeIsProduct(interval: nat, n: nat)
    ensures Whole(interval, n) == interval * n
  {
    if n > 0 {
      WholeIsProduct(interval, n - 1);
      assert interval * n == interval * (n - 1) + interval;
    }
  }

  /** How long ago the running period of a timer began. */
  ghost function Age(s: Loop, id: Id): nat {
    if id in s.timers then Elapsed(s.now, s.timers[id]) else 0
  }

  lemma FireCycles(s: Loop, id: Id, interval: Tick) returns (periods: nat)
    requires Inv(s) && Enabled(s, Fire) && Cycling(s, id, interval)
    ensures var s' := FireFirst(s);
            && Cycling(s', id, interval) && s'.now == s.now
            && Elapsed(s.now, s'.timers[id]) + Whole(interval, periods) == Elapsed(s.now, s.timers[id])
  {
    periods := 0;
    if s.list[0] == id {
      AdvancedKeepsPhase(s.now, s.timers[id]);
      periods := PeriodsIn(Elapsed(s.now, s.timers[id]), interval);
    }
  }

  lemma PeriodsIn(elapsed: nat, interval: nat) returns (n: nat)
    requires interval > 0
    ensures elapsed % interval + Whole(interval, n) == elapsed
  {
    n := elapsed / interval;
    WholeIsProduct(interval, n);
    WholeIntervals(elapsed, interval);
  }

  lemma OtherStepCycles(s: Loop, step: Step, id: Id, interval: Tick)
    requires Inv(s) && Enabled(s, step) && Cycling(s, id, interval) && !Requests(step, id)
    requires !step.Pass? && !step.Fire?
    ensures Cycling(Next(s, step), id, interval)
    ensures Next(s, step).now == s.now && Next(s, step).timers[id] == s.timers[id]
  {
    if step.Serve? { HeadServed(s.timers, s.queue); }
  }

  lemma StepCycles(s: Loop, step: Step, id: Id, interval: Tick) returns (periods: nat)
    requires Inv(s) && Enabled(s, step) && Cycling(s, id, interval) && !Requests(step, id)
    ensures Cycling(Next(s, step), id, interval)
    ensures Age(Next(s, step), id) + Whole(interval, periods) == Age(s, id) + TicksOf(step)
  {
    periods := 0;
    if step.Pass? {
      RemainingPasses(s.now, s.timers[id], step.ticks);
    } else if step.Fire? {
      periods := FireCycles(s, id, interval);
    } else {
      OtherStepCycles(s, step, id, interval);
    }
  }

  lemma AddPeriods(age: nat, ticks: nat, age1: nat, ticks1: nat, age2: nat, interval: nat, first: nat, others: nat)
    returns (periods: nat)
    requires age1 + Whole(interval, first) == age + ticks && age2 + Whole(interval, others) == age1 + ticks1
    ensures age2 + Whole(interval, periods) == age + (ticks + ticks1)
  {
    periods := first + others;
    WholeSum(interval, first, others);
  }

  /** Over every run, however late each expiry is served, a periodic timer that nobody touches keeps
      the phase it was started with: its start has moved by whole intervals only. */
  lemma {:induction false} PhaseKept(s: Loop, run: seq<Step>, id: Id, interval: Tick) returns (periods: nat)
    requires Inv(s) && Executes(s, run) && Cycling(s, id, interval)
    requires forall k :: 0 <= k < |run| ==> !Requests(run[k], id)
    ensures Cycling(RunTo(s, run), id, interval)
    ensures Age(RunTo(s, run), id) + Whole(interval, periods) == Age(s, id) + Passed(run)
    decreases |run|
  {
    if run == [] {
      periods := 0;
    } else {
      var s1, rest := Next(s, run[0]), run[1..];
      StepKeeps(s, run[0]);
      var first := StepCycles(s, run[0], id, interval);
      var others := PhaseKept(s1, rest, id, interval);
      periods := AddPeriods(Age(s, id), TicksOf(run[0]), Age(s1, id), Passed(rest), Age(RunTo(s1, rest), id),
                            interval, first, others);
    }
  }

  // ----- the division by zero -----

  /** The caller gives periodic timers a positive interval; a restart reuses the last one, which is
      zero for a timer that was never started. */
  ghost predicate Positive(s: Loop, step: Step) {
    match step
    case StartTimer(id, interval) => id in s.timers && s.timers[id].periodic ==> interval > 0
    case RestartTimer(id) => id in s.timers && s.timers[id].periodic ==> s.timers[id].interval > 0
    case _ => true
  }

  ghost predicate AllPositive(s: Loop, run: seq<Step>)
    requires Executes(s, run)
    decreases |run|
  {
    run == [] || (Positive(s, run[0]) && AllPositive(Next(s, run[0]), run[1..]))
  }

  ghost predicate PositivePeriods(s: Loop) {
    forall id :: id in s.timers && s.timers[id].periodic ==>
      && (s.timers[id].active ==> s.timers[id].interval > 0)
      && (s.timers[id].request == Start ==> s.timers[id].nextInterval > 0)
  }

  lemma PositiveStep(s: Loop, step: Step)
    requires PositivePeriods(s) && Enabled(s, step) && Positive(s, step)
    ensures PositivePeriods(Next(s, step))
  {
  }

  /** With positive intervals the division is safe in every reachable state. */
  lemma {:induction false} NeverDividesByZero(s: Loop, run: seq<Step>)
    requires Inv(s) && PositivePeriods(s) && Executes(s, run) && AllPositive(s, run)
    ensures !DividesByZero(RunTo(s, run)) && PositivePeriods(RunTo(s, run))
    decreases |run|
  {
    if run == [] {
      if s.list != [] { assert s.list[0] in s.list; }
    } else {
      StepKeeps(s, run[0]);
      PositiveStep(s, run[0]);
      NeverDividesByZero(Next(s, run[0]), run[1..]);
    }
  }

  /** An active periodic timer has interval zero. */
  ghost predicate ZeroPeriod(s: Loop, id: Id) {
    Active(s, id) && s.timers[id].periodic && s.timers[id].interval == 0
  }

  ghost predicate OnlyFires(run: seq<Step>) {
    forall k :: 0 <= k < |run| ==> run[k] == Fire
  }

  /** Running expired timers and nothing else, the loop comes to the division by zero. */
  ghost predicate FiresIntoDivision(s: Loop) {
    exists run :: Executes(s, run) && OnlyFires(run) && DividesByZero(RunTo(s, run))
  }

  lemma {:induction false} DivisionNeedsZeroPeriod(s: Loop, run: seq<Step>) returns (id: Id)
    requires Inv(s) && Executes(s, run) && OnlyFires(run) && DividesByZero(RunTo(s, run))
    ensures ZeroPeriod(s, id)
    decreases |run|
  {
    if run == [] {
      id := s.list[0];
      assert id in s.list;
    } else {
      FireKeeps(s);
      id := DivisionNeedsZeroPeriod(FireFirst(s), run[1..]);
      assert s.list[0] in s.list;
    }
  }

  /** Everything in front of a timer that has expired has expired, so the first one can be run. */
  lemma FrontExpired(s: Loop, j: nat)
    requires Inv(s) && j < |s.list| && ZeroPeriod(s, s.list[j])
    ensures CanFire(s) && (j == 0 ==> DividesByZero(s))
  {
    assert s.list[0] in s.list;
    assert Rem(s.now, s.timers, s.list[0]) <= Rem(s.now, s.timers, s.list[j]);
  }

  /** Running the first timer brings a timer of interval zero one place forward: a periodic timer that
      has been run goes behind it. */
  lemma FireMovesForward(s: Loop, j: nat)
    requires Inv(s) && Enabled(s, Fire) && 0 < j < |s.list| && ZeroPeriod(s, s.list[j])
    ensures var s' := FireFirst(s); j - 1 < |s'.list| && s'.list[j - 1] == s.list[j] && ZeroPeriod(s', s.list[j])
  {
    var id, rest, s' := s.list[0], s.list[1..], FireFirst(s);
    assert rest[j - 1] == s.list[j] && s.list[j] != id;
    if s.timers[id].periodic {
      AdvancedKeepsPhase(s.now, s.timers[id]);
      var r := Rem(s.now, s'.timers, id);
      assert Rem(s.now, s'.timers, rest[j - 1]) == 0;
      assert j - 1 < Place(s.now, s'.timers, rest, r);
    }
  }

  lemma {:induction false} ZeroPeriodFires(s: Loop, j: nat) returns (run: seq<Step>)
    requires Inv(s) && j < |s.list| && ZeroPeriod(s, s.list[j])
    ensures Executes(s, run) && OnlyFires(run) && DividesByZero(RunTo(s, run))
    decreases j
  {
    FrontExpired(s, j);
    run := [];
    if !DividesByZero(s) {
      FireKeeps(s);
      FireMovesForward(s, j);
      var rest := ZeroPeriodFires(FireFirst(s), j - 1);
      run := FireThen(s, rest);
    }
  }

  /** One more expiry in front of a run of expiries. */
  lemma FireThen(s: Loop, rest: seq<Step>) returns (run: seq<Step>)
    requires Enabled(s, Fire) && Executes(FireFirst(s), rest) && OnlyFires(rest)
    ensures Executes(s, run) && OnlyFires(run) && RunTo(s, run) == RunTo(FireFirst(s), rest)
  {
    run := [Fire] + rest;
    assert run[1..] == rest;
  }

  /** The exact condition: running expired timers leads to the division by zero if and only if some
      active periodic timer has interval zero. */
  lemma DividesIff(s: Loop)
    requires Inv(s)
    ensures FiresIntoDivision(s) <==> exists id :: ZeroPeriod(s, id)
  {
    if FiresIntoDivision(s) {
      var run :| Executes(s, run) && OnlyFires(run) && DividesByZero(RunTo(s, run));
      var id := DivisionNeedsZeroPeriod(s, run);
    }
    if id :| ZeroPeriod(s, id) {
      assert id in s.list;
      var j :| 0 <= j < |s.list| && s.list[j] == id;
      var run := ZeroPeriodFires(s, j);
    }
  }

  /** What a caller can check before the request is served: from a loop without such a timer, serving
      a request leads to the division if and only if it starts a periodic timer with interval zero. */
  lemma ServedDividesIff(s: Loop)
    requires Inv(s) && s.queue != [] && !FiresIntoDivision(s)
    ensures s.queue[0] in s.timers
    ensures var t := s.timers[s.queue[0]];
            FiresIntoDivision(ServeOne(s)) <==> t.request == Start && t.periodic && t.nextInterval == 0
  {
    ServeKeeps(s);
    DividesIff(s);
    DividesIff(ServeOne(s));
    var id, s' := s.queue[0], ServeOne(s);
    var t := s.timers[id];
    if t.request == Start && t.periodic && t.nextInterval == 0 {
      assert ZeroPeriod(s', id);
    }
    if x :| ZeroPeriod(s', x) {
      assert !ZeroPeriod(s, x);
    }
  }

  /** Three calls that lead there: a periodic timer is made, started with interval zero and served. */
  lemma ZeroPeriodDivides(now: Tick)
    ensures var s0, run := Loop(now, map[], [], []), [Alloc(0, true), StartTimer(0, 0), Serve];
            Executes(s0, run) && DividesByZero(RunTo(s0, run))
  {
    var s0 := Loop(now, map[], [], []);
    var s1 := Next(s0, Alloc(0, true));
    var s2 := Next(s1, StartTimer(0, 0));
    assert s2.queue == [0] && s2.list == [];
    var s3 := Next(s2, Serve);
    assert s3.list == [0];
    var run := [Alloc(0, true), StartTimer(0, 0), Serve];
    assert run[1..] == [StartTimer(0, 0), Serve] && run[1..][1..] == [Serve] && run[1..][1..][1..] == [];
    assert Executes(s3, []) && Executes(s2, [Serve]) && Executes(s1, run[1..]);
  }

  // ----- serving the queue -----

  /** What a request makes of its timer. */
  function Outcome(now: Tick, t: Timer): Timer {
    match t.request
    case Start => t.(active := true, interval := t.nextInterval, start := now, request := NoRequest)
    case Stop => t.(active := false, request := NoRequest)
    case Free => t
    case NoRequest => t
  }

  ghost predicate Served(s: Loop, s': Loop) {
    && s'.now == s.now && s'.queue == []
    && (forall id :: id in s'.timers <==> id in s.timers && s.timers[id].request != Free)
    && forall id :: id in s'.timers ==> s'.timers[id] == Outcome(s.now, s.timers[id])
  }

  lemma ServedMore(s: Loop, s': Loop)
    requires Inv(s) && s.queue != [] && s.queue[0] in s.timers && Served(ServeOne(s), s')
    ensures Served(s, s')
  {
    HeadServed(s.timers, s.queue);
    OneServed(s);
  }

  lemma OneServed(s: Loop)
    requires s.queue != [] && s.queue[0] in s.timers && s.timers[s.queue[0]].request != NoRequest
    ensures var s1, t := ServeOne(s), s.timers[s.queue[0]];
            && s1.now == s.now
            && s1.timers == if t.request == Free then s.timers - {s.queue[0]}
                else s.timers[s.queue[0] := Outcome(s.now, t)]
  {
  }

  predicate OnlyCalls(calls: seq<Step>) {
    forall k :: 0 <= k < |calls| ==> calls[k].StartTimer? || calls[k].RestartTimer? || calls[k].StopTimer?
                                     || calls[k].FreeTimer?
  }

  /** The last call that is about this timer. */
  function LastCall(calls: seq<Step>, id: Id): Option<Step> {
    if calls == [] then None
    else if LastCall(calls[1..], id).Some? then LastCall(calls[1..], id)
    else if Requests(calls[0], id) then Some(calls[0]) else None
  }

  /** A running timer with this interval, counting from now; or one that does not run, or is gone. */
  predicate AsAsked(now: Tick, before: Timer, call: Step, timers: map<Id, Timer>, id: Id) {
    match call
    case StartTimer(_, interval) => RunsFrom(now, before, interval, timers, id)
    case RestartTimer(_) => RunsFrom(now, before, before.interval, timers, id)
    case StopTimer(_) =>
      id in timers && !timers[id].active && timers[id].request == NoRequest && timers[id].interval == before.interval
    case _ => id !in timers
  }

  predicate RunsFrom(now: Tick, before: Timer, interval: Tick, timers: map<Id, Timer>, id: Id) {
    && id in timers && timers[id].active && timers[id].request == NoRequest
    && timers[id].interval == interval && timers[id].start == now && timers[id].periodic == before.periodic
  }

  /** What calls have left in a timer: only the last one counts. */
  ghost predicate Asked(before: Timer, last: Option<Step>, t: Timer) {
    && t == before.(request := t.request, nextInterval := t.nextInterval)
    && match last
       case None => t == before
       case Some(StartTimer(_, interval)) => t.request == Start && t.nextInterval == interval
       case Some(RestartTimer(_)) => t.request == Start && t.nextInterval == before.interval
       case Some(StopTimer(_)) => t.request == Stop
       case Some(_) => t.request == Free
  }

  lemma {:induction false} CallsAsk(s: Loop, calls: seq<Step>, id: Id)
    requires Executes(s, calls) && OnlyCalls(calls) && id in s.timers
    ensures var s' := RunTo(s, calls);
            id in s'.timers && s'.now == s.now && Asked(s.timers[id], LastCall(calls, id), s'.timers[id])
    decreases |calls|
  {
    if calls != [] {
      assert calls[0].StartTimer? || calls[0].RestartTimer? || calls[0].StopTimer? || calls[0].FreeTimer?;
      CallsAsk(Next(s, calls[0]), calls[1..], id);
    }
  }

  /** However many calls there are about a timer before the loop serves them, the last one decides: after a
      start it runs from now with that interval, after a restart with the one it had, after a stop it
      does not run, and after a free it is gone. */
  lemma LastCallDecides(s: Loop, calls: seq<Step>, id: Id, s': Loop)
    requires Executes(s, calls) && OnlyCalls(calls) && id in s.timers && LastCall(calls, id).Some?
    requires Served(RunTo(s, calls), s')
    ensures AsAsked(s.now, s.timers[id], LastCall(calls, id).value, s'.timers, id)
  {
    CallsAsk(s, calls, id);
    LastIsCall(calls, id);
  }

  lemma {:induction false} LastIsCall(calls: seq<Step>, id: Id)
    requires OnlyCalls(calls) && LastCall(calls, id).Some?
    ensures LastCall(calls, id).value in calls && Requests(LastCall(calls, id).value, id)
  {
    assert calls == [calls[0]] + calls[1..];
    if LastCall(calls[1..], id).Some? { LastIsCall(calls[1..], id); }
  }

  /** A state that serving some requests has led to: whoever serves the rest has served them all. */
  ghost predicate ServingFrom(s: Loop, r: Loop) {
    forall s' :: Served(r, s') ==> Served(s, s')
  }

  lemma ServingNext(s: Loop, r: Loop)
    requires Inv(r) && r.queue != [] && ServingFrom(s, r)
    ensures r.queue[0] in r.timers && ServingFrom(s, ServeOne(r))
  {
    HeadServed(r.timers, r.queue);
    forall s' | Served(ServeOne(r), s') ensures Served(s, s') {
      ServedMore(r, s');
    }
  }

  lemma AllServed(s: Loop, r: Loop)
    requires Inv(r) && r.queue == [] && ServingFrom(s, r)
    ensures Served(s, r)
  {
    assert forall id :: id in r.timers ==> r.timers[id].request == NoRequest;
    assert Served(r, r);
  }

  datatype Expiry = NoneExpired | Ran | DividedByZero

  /** The timer fields of the loop object. */
  class TimerLoop {
    var now: Tick
    var timers: map<Id, Timer>
    var timerList: seq<Id>
    var timerQueue: seq<Id>

    ghost function Value(): Loop
      reads this
    {
      Loop(now, timers, timerList, timerQueue)
    }

    ghost predicate Valid()
      reads this
    {
      Inv(Value())
    }

    constructor (now: Tick)
      ensures Valid() && Value() == Loop(now, map[], [], [])
    {
      this.now := now;
      timers, timerList, timerQueue := map[], [], [];
    }

    /** furi_event_loop_timer_enqueue_request; the call is refused after a request to free. */
    method Request(id: Id, request: Request, next: Tick) returns (ok: bool)
      requires Valid() && id in timers && request != NoRequest
      modifies this`timers, this`timerQueue
      ensures Valid() && (ok <==> old(timers)[id].request != Free)
      ensures Value() == if ok then Enqueue(old(Value()), id, request, next) else old(Value())
      ensures ok ==> && timers[id].request == request && timers[id].nextInterval == next
                     && |timerQueue| > 0 && timerQueue[|timerQueue| - 1] == id
    {
      var t := timers[id];
      if t.request == Free { return false; }
      EnqueueKeeps(Value(), id, request, next);
      if t.request != NoRequest {
        timerQueue := Without(timerQueue, id);
      }
      timers := timers[id := t.(nextInterval := next, request := request)];
      timerQueue := timerQueue + [id];
      ok := true;
    }

    /** furi_event_loop_schedule_timer */
    method ScheduleTimer(id: Id)
      requires id in timers
      modifies this`timerList
      ensures timerList == Scheduled(now, timers, old(timerList), id)
    {
      var k := FindPlace(now, timers, timerList, Remaining(now, timers[id]));
      timerList := KernelList.InsertAt(timerList, k, id);
    }

    /** One turn of the loop of furi_event_loop_process_timer_queue. */
    method ServeHead() returns (crashed: bool)
      requires Valid() && timerQueue != []
      modifies this`timers, this`timerList, this`timerQueue
      ensures old(timerQueue)[0] in old(timers) && Value() == ServeOne(old(Value()))
      ensures !crashed
    {
      HeadServed(timers, timerQueue);
      var id := timerQueue[0];
      timerQueue := timerQueue[1..];
      crashed := false;
      if timers[id].active {
        timerList := Without(timerList, id);
      }
      match timers[id].request {
        case Start =>
          timers := timers[id := timers[id].(active := true, interval := timers[id].nextInterval, start := now,
                                             request := NoRequest)];
          ScheduleTimer(id);
        case Stop =>
          timers := timers[id := timers[id].(active := false, request := NoRequest)];
        case Free =>
          timers := timers - {id};
        case NoRequest =>
          crashed := true;
      }
    }

    /** furi_event_loop_process_timer_queue: every request is carried out, whatever the order, the
        order of the active timers is restored, and the crash is not reached. */
    method ProcessTimerQueue() returns (crashed: bool)
      requires Valid()
      modifies this`timers, this`timerList, this`timerQueue
      ensures Valid() && !crashed && Served(old(Value()), Value())
    {
      crashed := false;
      while timerQueue != [] && !crashed
        invariant Valid() && !crashed && ServingFrom(old(Value()), Value())
        decreases |timerQueue|
      {
        ServeKeeps(Value());
        ServingNext(old(Value()), Value());
        crashed := ServeHead();
      }
      AllServed(old(Value()), Value());
    }

    /** furi_event_loop_process_expired_timers up to the callback.  A timer is run exactly when some
        active one has expired; then it is the first, with the least time left.  A periodic one has
        time left again, a single-shot one is over.  The division by zero stops the program. */
    method ProcessExpiredTimers() returns (outcome: Expiry)
      requires Valid()
      modifies this`timers, this`timerList
      ensures outcome == NoneExpired <==> !(exists id :: Active(old(Value()), id) && Expired(now, old(timers)[id]))
      ensures outcome == DividedByZero <==> DividesByZero(old(Value()))
      ensures outcome == NoneExpired ==> Value() == old(Value())
      ensures outcome == Ran ==> CanFire(old(Value())) && Value() == FireFirst(old(Value())) && Valid()
      ensures outcome == Ran ==> RunOnce(now, old(timers)[old(timerList)[0]], timers[old(timerList)[0]])
    {
      ghost var s := Value();
      FrontIsSmallest(s);
      if timerList == [] { return NoneExpired; }
      var id := timerList[0];
      if !Expired(now, timers[id]) { return NoneExpired; }
      timerList := timerList[1..];
      if timers[id].periodic {
        if timers[id].interval == 0 { return DividedByZero; }
        AdvancedKeepsPhase(now, timers[id]);
        WholeIntervals(Elapsed(now, timers[id]), timers[id].interval);
        var events := Elapsed(now, timers[id]) / timers[id].interval;
        timers := timers[id := timers[id].(start := Plus(timers[id].start, timers[id].interval * events))];
        ScheduleTimer(id);
      } else {
        timers := timers[id := timers[id].(active := false)];
      }
      FireKeeps(s);
      outcome := Ran;
    }
  }

  /** What running a timer makes of it: a periodic one keeps its phase and has time left, a single-shot
      one is over. */
  predicate RunOnce(now: Tick, t: Timer, t': Timer) {
    if t.periodic then
      t.interval > 0 && t' == t.(start := t'.start) && Elapsed(now, t') == Elapsed(now, t) % t.interval
          && Remaining(now, t') > 0
    else t' == t.(active := false)
  }
}
