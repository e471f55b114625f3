/**
 The storage of a FreeRTOS queue (lib/FreeRTOS-Kernel/queue.c): a byte buffer, two byte offsets
 and a count that together represent a bounded sequence of items.
 */
module QueueRing {
  import opened Common

  type Byte = b: int | 0 <= b < 256

  datatype Position = SendToBack | SendToFront | Overwrite

  /** The slot that holds item j when the last slot read was `read`. */
  function Slot(read: nat, j: nat, length: nat): (s: nat)
    requires read < length && j <= length
    ensures s < length
  {
    var x := read + 1 + j;
    if x >= 2 * length then x - 2 * length else if x >= length then x - length else x
  }

  ghost function ItemAt(bytes: seq<Byte>, size: nat, slot: nat): seq<Byte>
    requires (slot + 1) * size <= |bytes|
  {
    assert slot * size <= (slot + 1) * size by { SlotBounds(slot, slot + 1, size); }
    bytes[slot * size..(slot + 1) * size]
  }

  /** The items a buffer represents, oldest first. */
  ghost function Items(bytes: seq<Byte>, size: nat, length: nat, read: nat, count: nat): (items: seq<seq<Byte>>)
    requires read < length && count <= length && |bytes| == length * size
    ensures |items| == count
  {
    seq(count, j requires 0 <= j < count =>
      SlotBounds(Slot(read, j, length), length, size);
      ItemAt(bytes, size, Slot(read, j, length)))
  }

  lemma SlotBounds(slot: nat, length: nat, size: nat)
    requires slot < length
    ensures 0 <= slot * size && slot * size + size == (slot + 1) * size <= length * size
  {
    MulMonotone(slot + 1, length, size);
  }

  lemma MulMonotone(x: nat, y: nat, size: nat)
    requires x <= y
    ensures x * size <= y * size
  {
  }

  lemma ItemUnchanged(bytes: seq<Byte>, bytes': seq<Byte>, size: nat, length: nat, slot: nat, other: nat)
    requires |bytes| == |bytes'| == length * size && slot < length && other < length && other != slot
    requires slot * size <= |bytes| && (slot + 1) * size <= |bytes|
    requires forall i :: 0 <= i < |bytes| && !(slot * size <= i < (slot + 1) * size) ==> bytes'[i] == bytes[i]
    ensures (other + 1) * size <= |bytes|
    ensures ItemAt(bytes', size, other) == ItemAt(bytes, size, other)
  {
    SlotBounds(slot, length, size);
    SlotBounds(other, length, size);
    if other < slot { MulMonotone(other + 1, slot, size); } else { MulMonotone(slot + 1, other, size); }
  }

  /** Writing one slot that holds no item changes no item. */
  lemma ItemsUnchanged(bytes: seq<Byte>, bytes': seq<Byte>, size: nat, length: nat, read: nat, count: nat, slot: nat)
    requires |bytes| == |bytes'| == length * size && read < length && count <= length && slot < length
    requires (slot + 1) * size <= |bytes|
    requires forall i :: 0 <= i < |bytes| && !(slot * size <= i < (slot + 1) * size) ==> bytes'[i] == bytes[i]
    requires forall j :: 0 <= j < count ==> Slot(read, j, length) != slot
    ensures Items(bytes', size, length, read, count) == Items(bytes, size, length, read, count)
  {
    SlotBounds(slot, length, size);
    forall j | 0 <= j < count
      ensures Items(bytes', size, length, read, count)[j] == Items(bytes, size, length, read, count)[j]
    {
      ItemUnchanged(bytes, bytes', size, length, slot, Slot(read, j, length));
    }
  }

  /** The slot after s, wrapping at the end of the storage. */
  function Next(s: nat, length: nat): nat
    requires s < length
  {
    if s + 1 == length then 0 else s + 1
  }

  function Previous(s: nat, length: nat): nat
    requires s < length
  {
    if s == 0 then length - 1 else s - 1
  }

  /** Writing the slot after the last item appends. */
  lemma ItemsAppend(bytes: seq<Byte>, bytes': seq<Byte>, size: nat, length: nat, read: nat, count: nat, item: seq<Byte>)
    requires |bytes| == |bytes'| == length * size && read < length && count < length
    requires var slot := Slot(read, count, length);
             && (slot + 1) * size <= |bytes|
             && ItemAt(bytes', size, slot) == item
             && forall i :: 0 <= i < |bytes| && !(slot * size <= i < (slot + 1) * size) ==> bytes'[i] == bytes[i]
    ensures Items(bytes', size, length, read, count + 1) == Items(bytes, size, length, read, count) + [item]
  {
    ItemsUnchanged(bytes, bytes', size, length, read, count, Slot(read, count, length));
    assert Items(bytes', size, length, read, count + 1) == Items(bytes', size, length, read, count) + [item];
  }

  /** Writing the slot last read, and stepping back from it, prepends. */
  lemma ItemsPrepend(bytes: seq<Byte>, bytes': seq<Byte>, size: nat, length: nat, read: nat, count: nat,
                     item: seq<Byte>)
    requires |bytes| == |bytes'| == length * size && read < length && count < length
    requires (read + 1) * size <= |bytes|
    requires ItemAt(bytes', size, read) == item
    requires forall i :: 0 <= i < |bytes| && !(read * size <= i < (read + 1) * size) ==> bytes'[i] == bytes[i]
    ensures Items(bytes', size, length, Previous(read, length), count + 1)
        == [item] + Items(bytes, size, length, read, count)
  {
    ItemsUnchanged(bytes, bytes', size, length, read, count, read);
    var p := Previous(read, length);
    assert Slot(p, 0, length) == read;
    assert forall j :: 0 <= j < count ==> Slot(p, j + 1, length) == Slot(read, j, length);
    assert Items(bytes', size, length, p, count + 1) == [item] + Items(bytes', size, length, read, count);
  }

  /** Stepping over the oldest item drops it. */
  lemma ItemsDrop(bytes: seq<Byte>, size: nat, length: nat, read: nat, count: nat)
    requires |bytes| == length * size && read < length && 0 < count <= length
    requires (Next(read, length) + 1) * size <= |bytes|
    ensures Items(bytes, size, length, read, count)
         == [ItemAt(bytes, size, Next(read, length))] + Items(bytes, size, length, Next(read, length), count - 1)
  {
    var n := Next(read, length);
    assert Slot(read, 0, length) == n;
    assert forall j :: 0 <= j < count - 1 ==> Slot(n, j, length) == Slot(read, j + 1, length);
  }

  /** Byte offsets compare like the slots they come from. */
  lemma OffsetOrder(s: nat, length: nat, size: nat)
    requires size > 0 && s < length
    ensures s * size + size >= length * size <==> s + 1 == length
    ensures s * size - size < 0 <==> s == 0
    ensures length * size - size == (length - 1) * size
    ensures s > 0 ==> s * size - size == (s - 1) * size
    ensures s * size + size == (s + 1) * size
  {
    if s + 1 < length { MulMonotone(s + 2, length, size); }
    if s > 0 { MulMonotone(1, s, size); }
  }

  /** The sequence after an item was put at a position. */
  function Placed(items: seq<seq<Byte>>, item: seq<Byte>, position: Position): seq<seq<Byte>> {
    match position
    case SendToBack => items + [item]
    case SendToFront => [item] + items
    case Overwrite => [item]
  }

  class Queue {
    const length: nat
    const itemSize: nat
    const storage: array<Byte>
    var pcWriteTo: int
    var pcReadFrom: int
    var uxMessagesWaiting: nat
    ghost var lastRead: nat

    ghost predicate Valid()
      reads this
    {
      && 1 <= length && storage.Length == length * itemSize
      && uxMessagesWaiting <= length && lastRead < length
      && (itemSize > 0 ==>
            && pcReadFrom == lastRead * itemSize
            && pcWriteTo == Slot(lastRead, uxMessagesWaiting, length) * itemSize)
    }

    ghost function Contents(): (items: seq<seq<Byte>>)
      requires Valid()
      reads this, storage
    {
      Items(storage[..], itemSize, length, lastRead, uxMessagesWaiting)
    }

    /** xQueueGenericCreate and xQueueGenericReset of a new queue. */
    constructor (length: nat, itemSize: nat)
      requires length >= 1
      ensures Valid() && Contents() == [] && this.length == length && this.itemSize == itemSize
      ensures fresh(storage)
    {
      this.length, this.itemSize := length, itemSize;
      storage := new Byte[length * itemSize](_ => 0);
      uxMessagesWaiting, pcWriteTo, pcReadFrom := 0, 0, (length - 1) * itemSize;
      lastRead := length - 1;
    }

    /** xQueueGenericReset. */
    method Reset()
      requires Valid()
      modifies this
      ensures Valid() && Contents() == []
    {
      uxMessagesWaiting := 0;
      pcWriteTo := 0;
      pcReadFrom := (length - 1) * itemSize;
      lastRead := length - 1;
    }

    /** memcpy of one item into the storage. */
    method CopyIn(offset: nat, item: seq<Byte>)
      requires offset + |item| <= storage.Length
      modifies storage
      ensures storage[offset..offset + |item|] == item
      ensures forall i :: 0 <= i < storage.Length && !(offset <= i < offset + |item|) ==> storage[i] == old(storage[i])
    {
      for k := 0 to |item|
        invariant forall i :: 0 <= i < k ==> storage[offset + i] == item[i]
        invariant forall i :: 0 <= i < storage.Length && !(offset <= i < offset + k) ==> storage[i] == old(storage[i])
      {
        storage[offset + k] := item[k];
      }
    }

    /** The send-to-back branch of prvCopyDataToQueue. */
    method WriteBack(item: seq<Byte>)
      requires Valid() && itemSize > 0 && |item| == itemSize && uxMessagesWaiting < length
      modifies this`pcWriteTo, storage
      ensures pcWriteTo == Slot(lastRead, uxMessagesWaiting + 1, length) * itemSize
      ensures Items(storage[..], itemSize, length, lastRead, uxMessagesWaiting + 1) == old(Contents()) + [item]
    {
      ghost var bytes, slot := storage[..], Slot(lastRead, uxMessagesWaiting, length);
      SlotBounds(slot, length, itemSize);
      OffsetOrder(slot, length, itemSize);
      CopyIn(pcWriteTo, item);
      pcWriteTo := pcWriteTo + itemSize;
      if pcWriteTo >= length * itemSize {
        pcWriteTo := 0;
      }
      ItemsAppend(bytes, storage[..], itemSize, length, lastRead, uxMessagesWaiting, item);
    }

    /** The other branch: write where the last read was and step back; `count` items stay. */
    method WriteFront(item: seq<Byte>, ghost count: nat)
      requires Valid() && itemSize > 0 && |item| == itemSize && count < length && count <= uxMessagesWaiting
      modifies this`pcReadFrom, this`lastRead, storage
      ensures lastRead == Previous(old(lastRead), length) && pcReadFrom == lastRead * itemSize
      ensures Items(storage[..], itemSize, length, lastRead, count + 1)
           == [item] + old(Items(storage[..], itemSize, length, lastRead, count))
    {
      ghost var bytes, read := storage[..], lastRead;
      SlotBounds(read, length, itemSize);
      OffsetOrder(read, length, itemSize);
      CopyIn(pcReadFrom, item);
      pcReadFrom := pcReadFrom - itemSize;
      if pcReadFrom < 0 {
        pcReadFrom := length * itemSize - itemSize;
      }
      lastRead := Previous(read, length);
      ItemsPrepend(bytes, storage[..], itemSize, length, read, count, item);
    }

    /** prvCopyDataToQueue (a queue that is not a mutex).  Overwriting a full queue of empty items
        is the one call that breaks the queue: its branch never gives the old item's count back. */
    method CopyDataToQueue(item: seq<Byte>, position: Position)
      requires Valid() && |item| == itemSize
      requires if position == Overwrite then length == 1 else uxMessagesWaiting < length
      modifies this, storage
      ensures Valid() <==> !(itemSize == 0 && position == Overwrite && old(uxMessagesWaiting) == 1)
      ensures Valid() ==> Contents() == Placed(old(Contents()), item, position)
      ensures !Valid() ==> uxMessagesWaiting == length + 1
    {
      var messagesWaiting := uxMessagesWaiting;
      if itemSize == 0 {
        // a semaphore moves no data
      } else if position == SendToBack {
        WriteBack(item);
      } else {
        if position == Overwrite {
          if messagesWaiting > 0 {
            messagesWaiting := messagesWaiting - 1;
          }
        }
        WriteFront(item, messagesWaiting);
      }
      uxMessagesWaiting := messagesWaiting + 1;
    }

    /** prvCopyDataFromQueue: step to the oldest item and copy it out. */
    method CopyDataFromQueue() returns (item: seq<Byte>)
      requires Valid() && uxMessagesWaiting > 0
      modifies this
      ensures item == old(Contents())[0]
      ensures uxMessagesWaiting == old(uxMessagesWaiting) && pcWriteTo == old(pcWriteTo)
      ensures lastRead == (if itemSize == 0 then old(lastRead) else Next(old(lastRead), length))
      ensures itemSize > 0 ==> pcReadFrom == lastRead * itemSize
    {
      item := [];
      if itemSize != 0 {
        ghost var next := Next(lastRead, length);
        SlotBounds(next, length, itemSize);
        OffsetOrder(lastRead, length, itemSize);
        ItemsDrop(storage[..], itemSize, length, lastRead, uxMessagesWaiting);
        pcReadFrom := pcReadFrom + itemSize;
        if pcReadFrom >= length * itemSize {
          pcReadFrom := 0;
        }
        lastRead := next;
        item := storage[pcReadFrom..pcReadFrom + itemSize];
      }
    }

    /** One pass of the critical section of xQueueGenericSend, and xQueueGenericSendFromISR. */
    method Send(item: seq<Byte>, position: Position) returns (sent: bool)
      requires Valid() && |item| == itemSize
      requires position == Overwrite ==> length == 1
      modifies this, storage
      ensures sent <==> old(uxMessagesWaiting) < length || position == Overwrite
      ensures Valid() <==> !(itemSize == 0 && position == Overwrite && old(uxMessagesWaiting) == 1)
      ensures Valid() ==> Contents() == if sent then Placed(old(Contents()), item, position) else old(Contents())
    {
      sent := uxMessagesWaiting < length || position == Overwrite;
      if sent {
        CopyDataToQueue(item, position);
      }
    }

    /** One pass of the critical section of xQueueReceive, and xQueueReceiveFromISR. */
    method Receive() returns (r: Option<seq<Byte>>)
      requires Valid()
      modifies this
      ensures Valid()
      ensures if old(Contents()) == [] then r == None && Contents() == []
              else r == Some(old(Contents())[0]) && Contents() == old(Contents())[1..]
    {
      var messagesWaiting := uxMessagesWaiting;
      if messagesWaiting > 0 {
        ghost var bytes, read := storage[..], lastRead;
        var item := CopyDataFromQueue();
        SlotBounds(Next(read, length), length, itemSize);
        ItemsDrop(bytes, itemSize, length, read, messagesWaiting);
        uxMessagesWaiting := messagesWaiting - 1;
        r := Some(item);
      } else {
        r := None;
      }
    }

    /** A history of sends and removals, one after the other.  Whatever the buffer goes through, it
        computes the history on sequences. */
    method Perform(ops: seq<Op>) returns (accepted: seq<seq<Byte>>, received: seq<seq<Byte>>)
      requires Valid() && forall i :: 0 <= i < |ops| ==> Fits(ops[i], length, itemSize)
      modifies this, storage
      ensures Valid()
      ensures Trace(Contents(), accepted, received) == RunOps(Trace(old(Contents()), [], []), length, ops)
    {
      accepted, received := [], [];
      ghost var start := Trace(Contents(), [], []);
      for i := 0 to |ops|
        invariant Valid() && RunOps(Trace(Contents(), accepted, received), length, ops[i..])
            == RunOps(start, length, ops)
      {
        assert ops[i..][0] == ops[i] && ops[i..][1..] == ops[i + 1..];
        accepted, received := Apply(ops[i], accepted, received);
      }
      assert ops[|ops|..] == [];
    }

    method Apply(op: Op, accepted0: seq<seq<Byte>>, received0: seq<seq<Byte>>)
      returns (accepted: seq<seq<Byte>>, received: seq<seq<Byte>>)
      requires Valid() && Fits(op, length, itemSize)
      modifies this, storage
      ensures Valid()
      ensures Trace(Contents(), accepted, received) == StepOp(Trace(old(Contents()), accepted0, received0), length, op)
    {
      accepted, received := accepted0, received0;
      match op {
        case Put(item, position) =>
          var sent := Send(item, position);
          if sent { accepted := accepted + [item]; }
        case Take =>
          var r := Receive();
          if r.Some? { received := received + [r.value]; }
        case Look =>
          var r := Peek();
      }
    }

    /** One pass of the critical section of xQueuePeek, and xQueuePeekFromISR. */
    method Peek() returns (r: Option<seq<Byte>>)
      requires Valid()
      modifies this
      ensures Valid() && Contents() == old(Contents())
      ensures r == if old(Contents()) == [] then None else Some(old(Contents())[0])
    {
      r := None;
      if uxMessagesWaiting > 0 {
        var originalReadPosition := pcReadFrom;
        ghost var read := lastRead;
        var item := CopyDataFromQueue();
        pcReadFrom := originalReadPosition;
        lastRead := read;
        r := Some(item);
      }
    }
  }

  // ---- histories of a queue, on the sequences the buffer was proved to represent

  datatype Op = Put(item: seq<Byte>, position: Position) | Take | Look

  datatype Trace = Trace(items: seq<seq<Byte>>, accepted: seq<seq<Byte>>, received: seq<seq<Byte>>)

  ghost function StepOp(t: Trace, length: nat, op: Op): Trace {
    match op
    case Put(item, position) =>
      if |t.items| < length || position == Overwrite
      then Trace(Placed(t.items, item, position), t.accepted + [item], t.received) else t
    case Take =>
      if t.items == [] then t else Trace(t.items[1..], t.accepted, t.received + [t.items[0]])
    case Look => t
  }

  ghost function RunOps(t: Trace, length: nat, ops: seq<Op>): Trace
    decreases |ops|
  {
    if ops == [] then t else RunOps(StepOp(t, length, ops[0]), length, ops[1..])
  }

  /** First in, first out: whatever is sent to the back comes out in the order it was accepted,
      each item once, and the queue never holds more than its length. */
  lemma {:induction false} FirstInFirstOut(t: Trace, length: nat, ops: seq<Op>)
    requires forall i :: 0 <= i < |ops| ==> !ops[i].Put? || ops[i].position == SendToBack
    requires t.accepted == t.received + t.items && |t.items| <= length
    ensures var end := RunOps(t, length, ops);
            end.accepted == end.received + end.items && |end.items| <= length
    decreases |ops|
  {
    if ops != [] {
      var t1 := StepOp(t, length, ops[0]);
      assert t1.accepted == t1.received + t1.items by {
        if ops[0].Take? && t.items != [] {
          assert t.items == [t.items[0]] + t.items[1..];
        }
      }
      FirstInFirstOut(t1, length, ops[1..]);
    }
  }

  ghost predicate Conserved(t: Trace, length: nat) {
    multiset(t.accepted) == multiset(t.received) + multiset(t.items) && |t.items| <= length
  }

  lemma TakeConserves(t: Trace, length: nat)
    requires Conserved(t, length) && t.items != []
    ensures Conserved(StepOp(t, length, Take), length)
  {
    assert t.items == [t.items[0]] + t.items[1..];
  }

  lemma PutConserves(t: Trace, length: nat, item: seq<Byte>, position: Position)
    requires Conserved(t, length) && position != Overwrite
    ensures Conserved(StepOp(t, length, Put(item, position)), length)
  {
  }

  /** Whichever end they are sent to, accepted items are neither lost nor duplicated. */
  lemma {:induction false} ItemsConserved(t: Trace, length: nat, ops: seq<Op>)
    requires forall i :: 0 <= i < |ops| ==> !ops[i].Put? || ops[i].position != Overwrite
    requires Conserved(t, length)
    ensures Conserved(RunOps(t, length, ops), length)
    decreases |ops|
  {
    if ops != [] {
      match ops[0] {
        case Put(item, position) => PutConserves(t, length, item, position);
        case Take => if t.items != [] { TakeConserves(t, length); }
        case Look =>
      }
      ItemsConserved(StepOp(t, length, ops[0]), length, ops[1..]);
    }
  }

  /** The items sent to one end, in the order they were sent. */
  ghost function SentTo(ops: seq<Op>, position: Position): seq<seq<Byte>> {
    if ops == [] then []
    else (if ops[0].Put? && ops[0].position == position then [ops[0].item] else []) + SentTo(ops[1..], position)
  }

  ghost function Backwards(items: seq<seq<Byte>>): seq<seq<Byte>> {
    seq(|items|, k requires 0 <= k < |items| => items[|items| - 1 - k])
  }

  lemma {:induction false} PutsAround(t: Trace, length: nat, ops: seq<Op>)
    requires forall i :: 0 <= i < |ops| ==> ops[i].Put? && ops[i].position != Overwrite
    requires |t.items| + |ops| <= length
    ensures var end := RunOps(t, length, ops);
            && end.items == Backwards(SentTo(ops, SendToFront)) + t.items + SentTo(ops, SendToBack)
            && end.received == t.received
    decreases |ops|
  {
    if ops != [] {
      var t1 := StepOp(t, length, ops[0]);
      var fronts, backs := SentTo(ops[1..], SendToFront), SentTo(ops[1..], SendToBack);
      PutsAround(t1, length, ops[1..]);
      if ops[0].position == SendToFront {
        FrontFirst(ops[0].item, fronts, t.items, backs);
      } else {
        BackLast(ops[0].item, Backwards(fronts), t.items, backs);
      }
    }
  }

  lemma FrontFirst(item: seq<Byte>, fronts: seq<seq<Byte>>, items: seq<seq<Byte>>, backs: seq<seq<Byte>>)
    ensures Backwards([item] + fronts) + items + backs == Backwards(fronts) + ([item] + items) + backs
  {
    assert Backwards([item] + fronts) == Backwards(fronts) + [item];
  }

  lemma BackLast(item: seq<Byte>, fronts: seq<seq<Byte>>, items: seq<seq<Byte>>, backs: seq<seq<Byte>>)
    ensures fronts + items + ([item] + backs) == fronts + (items + [item]) + backs
  {
  }

  ghost function Takes(n: nat): seq<Op> {
    seq(n, _ => Take)
  }

  lemma {:induction false} TakesInOrder(t: Trace, length: nat, n: nat)
    requires n <= |t.items|
    ensures var end := RunOps(t, length, Takes(n));
            end.received == t.received + t.items[..n] && end.items == t.items[n..]
    decreases n
  {
    if n > 0 {
      assert Takes(n)[1..] == Takes(n - 1);
      TakesInOrder(StepOp(t, length, Take), length, n - 1);
      assert t.items[..n] == [t.items[0]] + t.items[1..][..n - 1];
    }
  }

  lemma {:induction false} RunOpsOn(t: Trace, length: nat, a: seq<Op>, b: seq<Op>)
    ensures RunOps(t, length, a + b) == RunOps(RunOps(t, length, a), length, b)
    decreases |a|
  {
    if a == [] {
      assert a + b == b;
    } else {
      assert (a + b)[1..] == a[1..] + b;
      RunOpsOn(StepOp(t, length, a[0]), length, a[1..], b);
    }
  }

  /** What was sent to the front comes out first, the last such item first of all; then what was in the
      queue before; then what was sent to the back, in the order it was sent. */
  lemma FrontsComeFirst(t: Trace, length: nat, puts: seq<Op>, n: nat)
    requires forall i :: 0 <= i < |puts| ==> puts[i].Put? && puts[i].position != Overwrite
    requires |t.items| + |puts| <= length && n <= |t.items| + |puts|
    ensures var order := Backwards(SentTo(puts, SendToFront)) + t.items + SentTo(puts, SendToBack);
            && n <= |order|
            && RunOps(t, length, puts + Takes(n)).received == t.received + order[..n]
  {
    SentSizes(puts);
    PutsAround(t, length, puts);
    RunOpsOn(t, length, puts, Takes(n));
    TakesInOrder(RunOps(t, length, puts), length, n);
  }

  lemma {:induction false} SentSizes(puts: seq<Op>)
    requires forall i :: 0 <= i < |puts| ==> puts[i].Put? && puts[i].position != Overwrite
    ensures |SentTo(puts, SendToFront)| + |SentTo(puts, SendToBack)| == |puts|
  {
    if puts != [] { SentSizes(puts[1..]); }
  }

  /** The mailbox after a history: the last overwrite, unless it has been taken since. */
  ghost function Mailbox(before: seq<seq<Byte>>, ops: seq<Op>): seq<seq<Byte>>
    decreases |ops|
  {
    if ops == [] then before
    else match ops[|ops| - 1]
      case Put(item, _) => [item]
      case Take => []
      case Look => Mailbox(before, ops[..|ops| - 1])
  }

  lemma {:induction false} MailboxStep(before: seq<seq<Byte>>, ops: seq<Op>)
    requires ops != [] && |before| <= 1
    ensures var first := match ops[0] case Put(item, _) => [item] case Take => [] case Look => before;
            Mailbox(before, ops) == Mailbox(first, ops[1..])
    decreases |ops|
  {
    var n := |ops|;
    if n > 1 {
      assert ops[1..][n - 2] == ops[n - 1];
      if ops[n - 1].Look? {
        MailboxStep(before, ops[..n - 1]);
        assert ops[1..][..n - 2] == ops[..n - 1][1..];
      }
    } else {
      assert ops[..0] == [] && ops[1..] == [];
    }
  }

  /** A queue of length one that is written by overwriting only is a mailbox: it holds the last value
      written, unless that has been taken. */
  lemma {:induction false} OverwriteIsMailbox(t: Trace, ops: seq<Op>)
    requires forall i :: 0 <= i < |ops| ==> ops[i].Put? ==> ops[i].position == Overwrite
    requires |t.items| <= 1
    ensures RunOps(t, 1, ops).items == Mailbox(t.items, ops)
    decreases |ops|
  {
    if ops != [] {
      MailboxStep(t.items, ops);
      OverwriteIsMailbox(StepOp(t, 1, ops[0]), ops[1..]);
    }
  }

  /** The calls whose arguments the queue accepts; a queue of empty items is not overwritten. */
  predicate Fits(op: Op, length: nat, itemSize: nat) {
    op.Put? ==> |op.item| == itemSize && (op.position == Overwrite ==> length == 1 && itemSize > 0)
  }

  /** Two overwrites of a queue of one empty item leave it with two items in one place. */
  method OverwriteTwice() returns (q: Queue)
    ensures !q.Valid() && q.length == 1 && q.itemSize == 0 && q.uxMessagesWaiting == 2
  {
    q := new Queue(1, 0);
    q.CopyDataToQueue([], Overwrite);
    q.CopyDataToQueue([], Overwrite);
  }
}
