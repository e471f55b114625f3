/**
 Event groups (lib/FreeRTOS-Kernel/event_groups.c): tasks wait for any or all of a set of bits, and
 one call to set bits releases every task whose condition it meets.

 A 32-bit event word is the set of the positions of its one bits.  A waiting task's list item holds
 the bits it waits for and, in the top byte, control bits.
 */
module EventGroups {
  type Word = set<nat>

  const CLEAR_ON_EXIT: nat := 24
  const UNBLOCKED_BY_SET: nat := 25
  const WAIT_FOR_ALL: nat := 26
  const CONTROL: Word := {24, 25, 26, 27, 28, 29, 30, 31}

  datatype Waiter = Waiter(task: nat, value: Word)

  /** A task taken off the list and the value stored in its item. */
  datatype Release = Release(task: nat, value: Word)

  datatype Result = Returned(bits: Word) | Blocked

  datatype Group = Group(bits: Word, waiting: seq<Waiter>, released: seq<Release>)

  /** prvTestWaitCondition. */
  predicate TestWait(current: Word, bits: Word, all: bool) {
    if all then current * bits == bits else current * bits != {}
  }

  predicate Met(w: Waiter, current: Word) {
    TestWait(current, w.value - CONTROL, WAIT_FOR_ALL in w.value)
  }

  function ClearedBy(w: Waiter): Word {
    if CLEAR_ON_EXIT in w.value then w.value - CONTROL else {}
  }

  // ---- the one-shot meaning of setting bits

  /** The waiters whose condition `current` meets, as they are released. */
  function Leavers(ws: seq<Waiter>, current: Word): seq<Release> {
    if ws == [] then []
    else
      var first := if Met(ws[0], current) then [Release(ws[0].task, current + {UNBLOCKED_BY_SET})] else [];
      first + Leavers(ws[1..], current)
  }

  function Stayers(ws: seq<Waiter>, current: Word): seq<Waiter> {
    if ws == [] then [] else (if Met(ws[0], current) then [] else [ws[0]]) + Stayers(ws[1..], current)
  }

  /** The union of the bits that the released waiters asked to have cleared. */
  function Cleared(ws: seq<Waiter>, current: Word): Word {
    if ws == [] then {} else (if Met(ws[0], current) then ClearedBy(ws[0]) else {}) + Cleared(ws[1..], current)
  }

  function SetSpec(g: Group, bits: Word): Group {
    var current := g.bits + bits;
    Group(current - Cleared(g.waiting, current), Stayers(g.waiting, current), g.released + Leavers(g.waiting, current))
  }

  lemma {:induction false} ClearedConcat(a: seq<Waiter>, b: seq<Waiter>, current: Word)
    ensures Cleared(a + b, current) == Cleared(a, current) + Cleared(b, current)
  {
    if a == [] {
      assert a + b == b;
    } else {
      assert (a + b)[1..] == a[1..] + b;
      ClearedConcat(a[1..], b, current);
    }
  }

  lemma {:induction false} StayersConcat(a: seq<Waiter>, b: seq<Waiter>, current: Word)
    ensures Stayers(a + b, current) == Stayers(a, current) + Stayers(b, current)
  {
    if a == [] {
      assert a + b == b;
    } else {
      assert (a + b)[1..] == a[1..] + b;
      StayersConcat(a[1..], b, current);
      var first := if Met(a[0], current) then [] else [a[0]];
      assert first + (Stayers(a[1..], current) + Stayers(b, current))
          == (first + Stayers(a[1..], current)) + Stayers(b, current);
    }
  }

  lemma {:induction false} LeaversConcat(a: seq<Waiter>, b: seq<Waiter>, current: Word)
    ensures Leavers(a + b, current) == Leavers(a, current) + Leavers(b, current)
  {
    if a == [] {
      assert a + b == b;
    } else {
      assert (a + b)[1..] == a[1..] + b;
      LeaversConcat(a[1..], b, current);
      var first := if Met(a[0], current) then [Release(a[0].task, current + {UNBLOCKED_BY_SET})] else [];
      assert first + (Leavers(a[1..], current) + Leavers(b, current))
          == (first + Leavers(a[1..], current)) + Leavers(b, current);
    }
  }

  lemma SplitConcat(a: seq<Waiter>, b: seq<Waiter>, current: Word)
    ensures Cleared(a + b, current) == Cleared(a, current) + Cleared(b, current)
    ensures Stayers(a + b, current) == Stayers(a, current) + Stayers(b, current)
    ensures Leavers(a + b, current) == Leavers(a, current) + Leavers(b, current)
  {
    ClearedConcat(a, b, current);
    StayersConcat(a, b, current);
    LeaversConcat(a, b, current);
  }

  /** Exactly the waiters whose condition is met leave, each with the value that met it, and
      exactly the bits some of them asked to clear are cleared. */
  lemma {:induction false} SetExact(ws: seq<Waiter>, current: Word)
    ensures forall w :: w in Stayers(ws, current) <==> w in ws && !Met(w, current)
    ensures forall r :: r in Leavers(ws, current) <==>
              r.value == current + {UNBLOCKED_BY_SET} && exists w :: w in ws && Met(w, current) && w.task == r.task
    ensures |Stayers(ws, current)| + |Leavers(ws, current)| == |ws|
    ensures forall b :: b in Cleared(ws, current) <==> exists w :: w in ws && Met(w, current) && b in ClearedBy(w)
  {
    if ws != [] {
      assert ws == [ws[0]] + ws[1..];
      SetExact(ws[1..], current);
    }
  }

  /** Moving a waiter to the front of the list changes nothing that matters. */
  lemma MoveToFront(a: seq<Waiter>, w: Waiter, b: seq<Waiter>, current: Word)
    ensures Cleared(a + ([w] + b), current) == Cleared([w] + (a + b), current)
    ensures multiset(Stayers(a + ([w] + b), current)) == multiset(Stayers([w] + (a + b), current))
    ensures multiset(Leavers(a + ([w] + b), current)) == multiset(Leavers([w] + (a + b), current))
  {
    SplitConcat(a, [w] + b, current);
    SplitConcat([w], b, current);
    SplitConcat(a, b, current);
    SplitConcat([w], a + b, current);
    SwapMultiset(Stayers(a, current), Stayers([w], current), Stayers(b, current));
    SwapMultiset(Leavers(a, current), Leavers([w], current), Leavers(b, current));
  }

  lemma SwapMultiset<T>(a: seq<T>, b: seq<T>, c: seq<T>)
    ensures multiset(a + (b + c)) == multiset(b + (a + c))
  {
    assert multiset(a + (b + c)) == multiset(a) + (multiset(b) + multiset(c));
    assert multiset(b + (a + c)) == multiset(b) + (multiset(a) + multiset(c));
  }

  lemma DropAt(ws: seq<Waiter>, k: nat)
    requires k < |ws|
    ensures var left := ws[..k] + ws[k + 1..]; left[..k] == ws[..k] && left[k..] == ws[k..][1..]
  {
  }

  lemma WithoutFirst(ws: seq<Waiter>, a: seq<Waiter>, w: Waiter, b: seq<Waiter>)
    requires ws != [] && ws[0] == w && multiset(ws) == multiset(a + ([w] + b))
    ensures multiset(ws[1..]) == multiset(a + b)
  {
    assert ws == [w] + ws[1..];
    assert multiset(ws[1..]) == multiset(ws) - multiset{w};
  }

  /** Setting bits means the same whatever the order of the list: the bits left, the tasks that go
      with their values and the tasks that stay depend on the waiters alone. */
  lemma {:induction false} OrderIrrelevant(ws: seq<Waiter>, vs: seq<Waiter>, current: Word)
    requires multiset(ws) == multiset(vs)
    ensures Cleared(ws, current) == Cleared(vs, current)
    ensures multiset(Stayers(ws, current)) == multiset(Stayers(vs, current))
    ensures multiset(Leavers(ws, current)) == multiset(Leavers(vs, current))
    decreases |ws|
  {
    if ws == [] {
      assert |multiset(vs)| == 0;
    } else {
      var w, rest := ws[0], ws[1..];
      assert ws == [w] + rest;
      var k := Find(w, vs);
      var a, b := vs[..k], vs[k + 1..];
      assert vs == a + ([w] + b);
      WithoutFirst(ws, a, w, b);
      OrderIrrelevant(rest, a + b, current);
      SplitConcat([w], rest, current);
      SplitConcat([w], a + b, current);
      MoveToFront(a, w, b, current);
    }
  }

  ghost function Find(w: Waiter, vs: seq<Waiter>): (k: nat)
    requires w in multiset(vs)
    ensures k < |vs| && vs[k] == w
  {
    var k :| 0 <= k < |vs| && vs[k] == w; k
  }

  // ---- the other operations, on values

  function ClearSpec(g: Group, bits: Word): Group {
    g.(bits := g.bits - bits)
  }

  function ControlFor(clear: bool, all: bool): Word {
    (if clear then {CLEAR_ON_EXIT} else {}) + (if all then {WAIT_FOR_ALL} else {})
  }

  /** xEventGroupWaitBits up to the point where it returns or blocks. */
  function WaitSpec(g: Group, task: nat, bits: Word, clear: bool, all: bool, ticks: nat): (Group, Result) {
    if TestWait(g.bits, bits, all) then (if clear then g.(bits := g.bits - bits) else g, Returned(g.bits))
    else if ticks == 0 then (g, Returned(g.bits))
    else (g.(waiting := g.waiting + [Waiter(task, bits + ControlFor(clear, all))]), Blocked)
  }

  /** xEventGroupSync up to the point where it returns or blocks. */
  function SyncSpec(g: Group, task: nat, toSet: Word, bits: Word, ticks: nat): (Group, Result) {
    var g1 := SetSpec(g, toSet);
    if (g.bits + toSet) * bits == bits then (g1.(bits := g1.bits - bits), Returned(g.bits + toSet))
    else if ticks == 0 then (g1, Returned(g1.bits))
    else (g1.(waiting := g1.waiting + [Waiter(task, bits + {CLEAR_ON_EXIT, WAIT_FOR_ALL})]), Blocked)
  }

  /** A blocked task times out: the kernel takes it off the list. */
  function TimeoutSpec(g: Group, k: nat): Group
    requires k < |g.waiting|
  {
    g.(waiting := g.waiting[..k] + g.waiting[k + 1..])
  }

  /** A task that timed out runs again: it returns the bits, clearing its own if they are now set. */
  function ExpiredSpec(g: Group, bits: Word, clear: bool, all: bool): (Group, Result) {
    (if TestWait(g.bits, bits, all) && clear then g.(bits := g.bits - bits) else g, Returned(g.bits - CONTROL))
  }

  datatype Op =
    | SetBits(bits: Word)
    | ClearBits(bits: Word)
    | WaitBits(task: nat, bits: Word, clear: bool, all: bool, ticks: nat)
    | Sync(task: nat, toSet: Word, bits: Word, ticks: nat)
    | Timeout(k: nat)
    | Expired(bits: Word, clear: bool, all: bool)

  /** The asserted preconditions of the calls: no control bits, and some bit to wait for. */
  predicate Allowed(g: Group, op: Op) {
    match op
    case SetBits(bits) => bits !! CONTROL
    case ClearBits(bits) => bits !! CONTROL
    case WaitBits(_, bits, _, _, _) => bits !! CONTROL && bits != {}
    case Sync(_, toSet, bits, _) => toSet !! CONTROL && bits !! CONTROL && bits != {}
    case Timeout(k) => k < |g.waiting|
    case Expired(bits, _, _) => bits !! CONTROL && bits != {}
  }

  function Step(g: Group, op: Op): Group
    requires Allowed(g, op)
  {
    match op
    case SetBits(bits) => SetSpec(g, bits)
    case ClearBits(bits) => ClearSpec(g, bits)
    case WaitBits(task, bits, clear, all, ticks) => WaitSpec(g, task, bits, clear, all, ticks).0
    case Sync(task, toSet, bits, ticks) => SyncSpec(g, task, toSet, bits, ticks).0
    case Timeout(k) => TimeoutSpec(g, k)
    case Expired(bits, clear, all) => ExpiredSpec(g, bits, clear, all).0
  }

  // ---- what every operation keeps

  /** No task waits on a condition that already holds, and control bits never enter the group. */
  ghost predicate Settled(g: Group) {
    && g.bits !! CONTROL
    && forall w :: w in g.waiting ==> !Met(w, g.bits)
  }

  /** Fewer bits meet no condition that more bits did not. */
  lemma FewerBits(w: Waiter, fewer: Word, more: Word)
    requires !Met(w, more) && fewer <= more
    ensures !Met(w, fewer)
  {
    var bits := w.value - CONTROL;
    assert fewer * bits <= more * bits <= bits;
  }

  lemma LowerKeepsSettled(g: Group, bits: Word)
    requires Settled(g) && bits <= g.bits
    ensures Settled(g.(bits := bits))
  {
    forall w | w in g.waiting ensures !Met(w, bits) {
      FewerBits(w, bits, g.bits);
    }
  }

  lemma SetSettles(g: Group, bits: Word)
    requires Settled(g) && bits !! CONTROL
    ensures Settled(SetSpec(g, bits))
    ensures SetSpec(g, bits).bits <= g.bits + bits
  {
    var current := g.bits + bits;
    SetExact(g.waiting, current);
    forall w | w in Stayers(g.waiting, current) ensures !Met(w, current - Cleared(g.waiting, current)) {
      FewerBits(w, current - Cleared(g.waiting, current), current);
    }
  }

  /** A task that goes to sleep waits for the condition it was just tested for. */
  lemma NewWaiterUnmet(current: Word, task: nat, bits: Word, clear: bool, all: bool)
    requires !TestWait(current, bits, all) && bits !! CONTROL
    ensures !Met(Waiter(task, bits + ControlFor(clear, all)), current)
  {
    assert bits + ControlFor(clear, all) - CONTROL == bits;
  }

  lemma SyncSettles(g: Group, task: nat, toSet: Word, bits: Word, ticks: nat)
    requires Settled(g) && toSet !! CONTROL && bits !! CONTROL
    ensures Settled(SyncSpec(g, task, toSet, bits, ticks).0)
  {
    SetSettles(g, toSet);
    var g1 := SetSpec(g, toSet);
    if (g.bits + toSet) * bits == bits {
      LowerKeepsSettled(g1, g1.bits - bits);
    } else if ticks != 0 {
      var w := Waiter(task, bits + {CLEAR_ON_EXIT, WAIT_FOR_ALL});
      assert ControlFor(true, true) == {CLEAR_ON_EXIT, WAIT_FOR_ALL};
      NewWaiterUnmet(g.bits + toSet, task, bits, true, true);
      FewerBits(w, g1.bits, g.bits + toSet);
    }
  }

  /** What every call keeps: afterwards nobody is blocked on a condition that is met. */
  lemma StepSettles(g: Group, op: Op)
    requires Settled(g) && Allowed(g, op)
    ensures Settled(Step(g, op))
  {
    match op
    case SetBits(bits) => SetSettles(g, bits);
    case ClearBits(bits) => LowerKeepsSettled(g, g.bits - bits);
    case WaitBits(task, bits, clear, all, ticks) =>
      if TestWait(g.bits, bits, all) { LowerKeepsSettled(g, g.bits - bits); }
      else { NewWaiterUnmet(g.bits, task, bits, clear, all); }
    case Sync(task, toSet, bits, ticks) => SyncSettles(g, task, toSet, bits, ticks);
    case Timeout(k) =>
    case Expired(bits, _, _) => LowerKeepsSettled(g, g.bits - bits);
  }

  ghost predicate Executes(g: Group, ops: seq<Op>)
    decreases |ops|
  {
    ops != [] ==> Allowed(g, ops[0]) && Executes(Step(g, ops[0]), ops[1..])
  }

  ghost function RunTo(g: Group, ops: seq<Op>): Group
    requires Executes(g, ops)
    decreases |ops|
  {
    if ops == [] then g else RunTo(Step(g, ops[0]), ops[1..])
  }

  /** No reachable state holds a blocked waiter whose condition is met. */
  lemma {:induction false} RunSettles(g: Group, ops: seq<Op>)
    requires Settled(g) && Executes(g, ops)
    ensures Settled(RunTo(g, ops))
    decreases |ops|
  {
    if ops != [] {
      StepSettles(g, ops[0]);
      RunSettles(Step(g, ops[0]), ops[1..]);
    }
  }

  /** The value a released task reads back: it is recognised as released by bits, not by timeout,
      without its control byte it is the value of the group when the bits were set, and that value
      meets the condition the task was waiting for. */
  lemma ReleasedValue(g: Group, bits: Word, r: Release)
    requires Settled(g) && bits !! CONTROL && r in Leavers(g.waiting, g.bits + bits)
    ensures UNBLOCKED_BY_SET in r.value && r.value - CONTROL == g.bits + bits
    ensures exists w :: w in g.waiting && w.task == r.task && Met(w, r.value - CONTROL)
  {
    SetExact(g.waiting, g.bits + bits);
  }

  // ---- what each call leaves behind, bit by bit and waiter by waiter

  /** The condition a caller waits for: all of its bits, or any of them. */
  ghost predicate Holds(bits: Word, all: bool, current: Word) {
    if all then forall b :: b in bits ==> b in current else exists b :: b in bits && b in current
  }

  lemma TestMeans(current: Word, bits: Word, all: bool)
    ensures TestWait(current, bits, all) <==> Holds(bits, all, current)
  {
    if all {
      assert current * bits == bits <==> bits <= current;
    } else if TestWait(current, bits, all) {
      var b :| b in current * bits;
    } else {
      assert forall b :: b in bits && b in current ==> b in current * bits;
    }
  }

  /** A list item that holds the bits waited for, bit 24 to clear them and bit 26 to wait for all. */
  ghost predicate Wants(w: Waiter, bits: Word, clear: bool, all: bool) {
    forall b :: b in w.value <==> b in bits || (b == 24 && clear) || (b == 26 && all)
  }

  /** Such an item is released exactly when its caller's condition holds, and only if its caller
      asked for it the bits waited for are then cleared. */
  lemma WaiterMeans(w: Waiter, bits: Word, clear: bool, all: bool, current: Word)
    requires Wants(w, bits, clear, all) && forall b :: b in bits ==> b < 24
    ensures Met(w, current) <==> Holds(bits, all, current)
    ensures forall b :: b in ClearedBy(w) <==> clear && b in bits
  {
    assert w.value - CONTROL == bits;
    TestMeans(current, bits, all);
  }

  ghost predicate AskedToClear(ws: seq<Waiter>, current: Word, b: nat) {
    exists w :: w in ws && Met(w, current) && b in ClearedBy(w)
  }

  ghost predicate ReleasedWith(ws: seq<Waiter>, current: Word, r: Release) {
    r.value == current + {UNBLOCKED_BY_SET} && exists w :: w in ws && Met(w, current) && w.task == r.task
  }

  /** After setting bits a bit is there exactly if it was there or was set and no released waiter
      asked to have it cleared; the waiters met are gone, all of them and no others. */
  ghost predicate AfterSet(g: Group, bits: Word, g': Group) {
    var now := g.bits + bits;
    && (forall b :: b in g'.bits <==> b in now && !AskedToClear(g.waiting, now, b))
    && (forall w :: w in g'.waiting <==> w in g.waiting && !Met(w, now))
    && g.released <= g'.released && |g'.waiting| + |g'.released| == |g.waiting| + |g.released|
    && forall r :: r in g'.released[|g.released|..] <==> ReleasedWith(g.waiting, now, r)
  }

  lemma SetMeans(g: Group, bits: Word)
    ensures AfterSet(g, bits, SetSpec(g, bits))
  {
    var now := g.bits + bits;
    SetExact(g.waiting, now);
    assert SetSpec(g, bits).released[|g.released|..] == Leavers(g.waiting, now);
    forall b ensures b in Cleared(g.waiting, now) <==> AskedToClear(g.waiting, now, b) {}
  }

  ghost predicate AfterWait(g: Group, task: nat, bits: Word, clear: bool, all: bool, ticks: nat, g': Group, r: Result) {
    var met := Holds(bits, all, g.bits);
    && (forall b :: b in g'.bits <==> b in g.bits && !(met && clear && b in bits))
    && g'.released == g.released
    && (r.Returned? <==> met || ticks == 0)
    && (r.Returned? ==> r.bits == g.bits && g'.waiting == g.waiting)
    && (r.Blocked? ==> exists w :: g'.waiting == g.waiting + [w] && w.task == task && Wants(w, bits, clear, all))
  }

  /** A wait returns at once exactly if its condition holds or it has no time, with the bits as they
      were; bits go only if it is met and asked to clear them; otherwise the caller is on the list
      with what it asked for. */
  lemma WaitMeans(g: Group, task: nat, bits: Word, clear: bool, all: bool, ticks: nat)
    ensures var (g', r) := WaitSpec(g, task, bits, clear, all, ticks);
            AfterWait(g, task, bits, clear, all, ticks, g', r)
  {
    var (g', r) := WaitSpec(g, task, bits, clear, all, ticks);
    TestMeans(g.bits, bits, all);
    if r.Blocked? {
      var w := Waiter(task, bits + ControlFor(clear, all));
      assert g'.waiting == g.waiting + [w] && Wants(w, bits, clear, all);
    }
  }

  ghost predicate AfterSync(g: Group, task: nat, toSet: Word, bits: Word, ticks: nat, g': Group, r: Result) {
    var now, met := g.bits + toSet, Holds(bits, true, g.bits + toSet);
    && (forall b :: b in g'.bits <==> b in now && !AskedToClear(g.waiting, now, b) && !(met && b in bits))
    && (r.Returned? <==> met || ticks == 0)
    && (r.Returned? ==> r.bits == if met then now else g'.bits)
    && exists g1 :: AfterSet(g, toSet, g1) && g'.released == g1.released
         && if r.Returned? then g'.waiting == g1.waiting
            else exists w :: g'.waiting == g1.waiting + [w] && w.task == task && Wants(w, bits, true, true)
  }

  /** A rendezvous sets its bits as any call does; it returns at once exactly if all its bits are now
      set, then clearing them and returning them all, or if it has no time. */
  lemma SyncMeans(g: Group, task: nat, toSet: Word, bits: Word, ticks: nat)
    ensures var (g', r) := SyncSpec(g, task, toSet, bits, ticks); AfterSync(g, task, toSet, bits, ticks, g', r)
  {
    var (g', r) := SyncSpec(g, task, toSet, bits, ticks);
    var g1 := SetSpec(g, toSet);
    SetMeans(g, toSet);
    TestMeans(g.bits + toSet, bits, true);
    if r.Blocked? {
      var w := Waiter(task, bits + {CLEAR_ON_EXIT, WAIT_FOR_ALL});
      assert g'.waiting == g1.waiting + [w] && Wants(w, bits, true, true);
    }
  }

  /** A time-out takes one waiter off the list and leaves the bits; that task then returns the bits of
      the group as they are when it runs, having cleared its own if by then its condition holds. */
  lemma TimeoutMeans(g: Group, k: nat, later: Group, bits: Word, clear: bool, all: bool)
    requires k < |g.waiting| && Settled(later)
    ensures var g' := TimeoutSpec(g, k);
            && multiset(g.waiting) == multiset(g'.waiting) + multiset{g.waiting[k]}
            && g'.bits == g.bits && g'.released == g.released
    ensures var (later', r) := ExpiredSpec(later, bits, clear, all);
            && r == Returned(later.bits) && later'.waiting == later.waiting && later'.released == later.released
            && forall b :: b in later'.bits <==>
                 b in later.bits && !(clear && b in bits && Holds(bits, all, later.bits))
  {
    assert g.waiting == g.waiting[..k] + [g.waiting[k]] + g.waiting[k + 1..];
    TestMeans(later.bits, bits, all);
  }

  // ---- the history of one bit

  predicate Sets(op: Op, b: nat) {
    (op.SetBits? && b in op.bits) || (op.Sync? && b in op.toSet)
  }

  /** The ways to lose a bit: a clear, the immediate return of a wait that asked for it, a rendezvous,
      a time-out that finds its condition met after all, and the release of a waiter that asked for it. */
  ghost predicate Clears(g: Group, op: Op, b: nat) {
    match op
    case SetBits(bits) => AskedToClear(g.waiting, g.bits + bits, b)
    case ClearBits(bits) => b in bits
    case WaitBits(_, bits, clear, all, _) => clear && b in bits && Holds(bits, all, g.bits)
    case Sync(_, toSet, bits, _) =>
      AskedToClear(g.waiting, g.bits + toSet, b) || (b in bits && Holds(bits, true, g.bits + toSet))
    case Timeout(_) => false
    case Expired(bits, clear, all) => clear && b in bits && Holds(bits, all, g.bits)
  }

  lemma StepBits(g: Group, op: Op, b: nat)
    requires Allowed(g, op)
    ensures b in Step(g, op).bits <==> (b in g.bits || Sets(op, b)) && !Clears(g, op, b)
  {
    match op
    case SetBits(bits) => SetMeans(g, bits);
    case WaitBits(task, bits, clear, all, ticks) => WaitMeans(g, task, bits, clear, all, ticks);
    case Sync(task, toSet, bits, ticks) => SyncMeans(g, task, toSet, bits, ticks);
    case Expired(bits, clear, all) => TestMeans(g.bits, bits, all);
    case _ =>
  }

  ghost predicate NeverCleared(g: Group, ops: seq<Op>, b: nat)
    requires Executes(g, ops)
    decreases |ops|
  {
    ops != [] ==> !Clears(g, ops[0], b) && NeverCleared(Step(g, ops[0]), ops[1..], b)
  }

  /** Some call of the run sets the bit, and neither it nor a later one clears it. */
  ghost predicate SetAndKept(g: Group, ops: seq<Op>, b: nat)
    requires Executes(g, ops)
    decreases |ops|
  {
    && ops != []
    && ((Sets(ops[0], b) && NeverCleared(g, ops, b)) || SetAndKept(Step(g, ops[0]), ops[1..], b))
  }

  /** After any run a bit is set exactly if it was set, at the start or by a call, and not cleared since. */
  lemma {:induction false} BitHistory(g: Group, ops: seq<Op>, b: nat)
    requires Executes(g, ops)
    ensures b in RunTo(g, ops).bits <==> (b in g.bits && NeverCleared(g, ops, b)) || SetAndKept(g, ops, b)
    decreases |ops|
  {
    if ops != [] {
      StepBits(g, ops[0], b);
      BitHistory(Step(g, ops[0]), ops[1..], b);
    }
  }

  // ---- the code

  lemma SameTest(w: Waiter, current: Word)
    ensures Met(w, current) ==
            if WAIT_FOR_ALL !in w.value * CONTROL then (w.value - CONTROL) * current != {}
            else (w.value - CONTROL) * current == w.value - CONTROL
  {
    assert (w.value - CONTROL) * current == current * (w.value - CONTROL);
  }

  /** One more waiter walked past. */
  lemma WalkOne(ws: seq<Waiter>, done: nat, current: Word)
    requires done < |ws|
    ensures var w := ws[done];
            && Stayers(ws[..done + 1], current) == Stayers(ws[..done], current) + (if Met(w, current) then [] else [w])
            && Leavers(ws[..done + 1], current) == Leavers(ws[..done], current) +
                 (if Met(w, current) then [Release(w.task, current + {UNBLOCKED_BY_SET})] else [])
            && Cleared(ws[..done + 1], current)
                == Cleared(ws[..done], current) + (if Met(w, current) then ClearedBy(w) else {})
  {
    assert ws[..done + 1] == ws[..done] + [ws[done]];
    SplitConcat(ws[..done], [ws[done]], current);
  }

  /** The loop of xEventGroupSetBits: `next` is read before the item may be taken off the list. */
  method ReleaseMet(waiting: seq<Waiter>, current: Word) returns (left: seq<Waiter>, toClear: Word, gone: seq<Release>)
    ensures left == Stayers(waiting, current)
    ensures toClear == Cleared(waiting, current)
    ensures gone == Leavers(waiting, current)
  {
    left, toClear, gone := waiting, {}, [];
    ghost var done := 0;
    var k := 0;
    while k < |left|
      invariant done <= |waiting| && k <= |left|
      invariant left[..k] == Stayers(waiting[..done], current) && left[k..] == waiting[done..]
      invariant gone == Leavers(waiting[..done], current)
      invariant toClear == Cleared(waiting[..done], current)
      decreases |left| - k
    {
      var item := left[k];
      assert item == waiting[done];
      WalkOne(waiting, done, current);
      SameTest(item, current);
      var control, waitedFor := item.value * CONTROL, item.value - CONTROL;
      var found := if WAIT_FOR_ALL !in control then waitedFor * current != {} else waitedFor * current == waitedFor;
      if found {
        if CLEAR_ON_EXIT in control {
          toClear := toClear + waitedFor;
        }
        gone := gone + [Release(item.task, current + {UNBLOCKED_BY_SET})];
        DropAt(left, k);
        left := left[..k] + left[k + 1..];
      } else {
        k := k + 1;
      }
      done := done + 1;
    }
    assert waiting[..done] == waiting;
  }

  class EventGroup {
    var uxEventBits: Word
    var xTasksWaitingForBits: seq<Waiter>
    var released: seq<Release>   // tasks handed to the scheduler, with the values in their items

    ghost function Value(): Group
      reads this
    {
      Group(uxEventBits, xTasksWaitingForBits, released)
    }

    constructor ()
      ensures Value() == Group({}, [], []) && Settled(Value())
    {
      uxEventBits, xTasksWaitingForBits, released := {}, [], [];
    }

    /** xEventGroupSetBits: walk the list, taking off every task whose condition is met. */
    method SetBits(bits: Word)
      requires bits !! CONTROL
      modifies this
      ensures Value() == SetSpec(old(Value()), bits)
      ensures AfterSet(old(Value()), bits, Value())
    {
      SetMeans(Value(), bits);
      uxEventBits := uxEventBits + bits;
      var toClear, gone;
      xTasksWaitingForBits, toClear, gone := ReleaseMet(xTasksWaitingForBits, uxEventBits);
      released := released + gone;
      uxEventBits := uxEventBits - toClear;
    }

    /** xEventGroupClearBits: the bits before clearing are returned. */
    method ClearBits(bits: Word) returns (before: Word)
      requires bits !! CONTROL
      modifies this
      ensures Value() == ClearSpec(old(Value()), bits) && before == old(uxEventBits)
      ensures forall b :: b in uxEventBits <==> b in before && b !in bits
    {
      before := uxEventBits;
      uxEventBits := uxEventBits - bits;
    }

    /** xEventGroupWaitBits up to the point where it returns or blocks. */
    method WaitBits(task: nat, bits: Word, clear: bool, all: bool, ticks: nat) returns (r: Result)
      requires bits !! CONTROL && bits != {}
      modifies this
      ensures (Value(), r) == WaitSpec(old(Value()), task, bits, clear, all, ticks)
      ensures AfterWait(old(Value()), task, bits, clear, all, ticks, Value(), r)
    {
      WaitMeans(Value(), task, bits, clear, all, ticks);
      var current := uxEventBits;
      var met := TestWait(current, bits, all);
      if met {
        r := Returned(current);
        if clear {
          uxEventBits := uxEventBits - bits;
        }
      } else if ticks == 0 {
        r := Returned(current);
      } else {
        var control: Word := {};
        if clear { control := control + {CLEAR_ON_EXIT}; }
        if all { control := control + {WAIT_FOR_ALL}; }
        assert control == ControlFor(clear, all);
        xTasksWaitingForBits := xTasksWaitingForBits + [Waiter(task, bits + control)];
        r := Blocked;
      }
    }

    /** xEventGroupSync up to the point where it returns or blocks. */
    method Sync(task: nat, toSet: Word, bits: Word, ticks: nat) returns (r: Result)
      requires toSet !! CONTROL && bits !! CONTROL && bits != {}
      modifies this
      ensures (Value(), r) == SyncSpec(old(Value()), task, toSet, bits, ticks)
      ensures AfterSync(old(Value()), task, toSet, bits, ticks, Value(), r)
    {
      SyncMeans(Value(), task, toSet, bits, ticks);
      var original := uxEventBits;
      SetBits(toSet);
      if (original + toSet) * bits == bits {
        r := Returned(original + toSet);
        uxEventBits := uxEventBits - bits;
      } else if ticks != 0 {
        xTasksWaitingForBits := xTasksWaitingForBits + [Waiter(task, bits + {CLEAR_ON_EXIT, WAIT_FOR_ALL})];
        r := Blocked;
      } else {
        r := Returned(uxEventBits);
      }
    }
  }
}
