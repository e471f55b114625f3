/**
 The kernel's list (lib/FreeRTOS-Kernel/list.c) at pointer level: a circular doubly linked structure
 through an end marker that carries the largest value, with a walking index inside it.

 Pointers are addresses into a map of list items, so every write of the code is a map update.
 */
module KernelList {
  import opened Common

  const MAX_DELAY: nat := 0xFFFF_FFFF

  type Pointer = nat

  const NULL: Pointer := 0

  datatype ListItem = ListItem(value: nat, next: Pointer, previous: Pointer, container: Pointer)

  type Memory = map<Pointer, ListItem>

  /** x is followed by y: the two point at each other. */
  ghost predicate Joined(mem: Memory, x: Pointer, y: Pointer) {
    x in mem && y in mem && mem[x].next == y && mem[y].previous == x
  }

  /** The nodes point at each other in a circle, in both directions. */
  ghost predicate Ring(mem: Memory, nodes: seq<Pointer>) {
    && nodes != []
    && (forall i :: 0 < i < |nodes| ==> Joined(mem, nodes[i - 1], nodes[i]))
    && Joined(mem, nodes[|nodes| - 1], nodes[0])
  }

  ghost predicate Sorted(values: seq<nat>) {
    forall i, j :: 0 <= i < j < |values| ==> values[i] <= values[j]
  }

  /** Where a value belongs: behind everything that is not greater. */
  function Position(values: seq<nat>, v: nat): (k: nat)
    ensures k <= |values|
    ensures forall i :: 0 <= i < k ==> values[i] <= v
    ensures k < |values| ==> values[k] > v
  {
    if values == [] || values[0] > v then 0
    else
      var rest := Position(values[1..], v);
      assert forall i :: 1 <= i < |values| ==> values[i] == values[1..][i - 1];
      1 + rest
  }

  function InsertAt<T>(xs: seq<T>, k: nat, x: T): seq<T>
    requires k <= |xs|
  {
    xs[..k] + [x] + xs[k..]
  }

  ghost function RemoveAt<T>(xs: seq<T>, k: nat): seq<T>
    requires k < |xs|
  {
    xs[..k] + xs[k + 1..]
  }

  /** Sorted insertion at its position is stable: the list stays sorted, the new value comes behind
      its equals and in front of everything greater. */
  lemma StableInsertion(values: seq<nat>, v: nat)
    requires Sorted(values)
    ensures var k := Position(values, v);
            && Sorted(InsertAt(values, k, v))
            && (forall i :: 0 <= i < |values| ==> (values[i] <= v <==> i < k))
  {
  }

  ghost function Successor(nodes: seq<Pointer>, k: nat): Pointer
    requires k < |nodes|
  {
    if k + 1 == |nodes| then nodes[0] else nodes[k + 1]
  }

  ghost function Predecessor(nodes: seq<Pointer>, k: nat): Pointer
    requires k < |nodes|
  {
    if k == 0 then nodes[|nodes| - 1] else nodes[k - 1]
  }

  lemma RingAt(mem: Memory, nodes: seq<Pointer>, k: nat)
    requires Ring(mem, nodes) && k < |nodes|
    ensures Joined(mem, nodes[k], Successor(nodes, k)) && Joined(mem, Predecessor(nodes, k), nodes[k])
  {
    if k > 0 { assert Joined(mem, nodes[k - 1], nodes[k]); }
    if k + 1 < |nodes| { assert Joined(mem, nodes[k + 1 - 1], nodes[k + 1]); }
  }

  /** Everything that is on no node of this list is untouched, so other lists in the same memory
      are as they were. */
  ghost predicate OthersUntouched(mem: Memory, mem': Memory, nodes: seq<Pointer>, item: Pointer) {
    forall p :: p in mem && p !in nodes && p != item ==> p in mem' && mem'[p] == mem[p]
  }

  /** mem' links x in behind node k and changes no other link of the ring. */
  ghost predicate LinkedIn(mem: Memory, mem': Memory, nodes: seq<Pointer>, k: nat, x: Pointer)
    requires k < |nodes|
  {
    && Joined(mem', nodes[k], x) && Joined(mem', x, Successor(nodes, k))
    && (forall p :: p in nodes && p != nodes[k] && p in mem ==> p in mem' && mem'[p].next == mem[p].next)
    && (forall p :: p in nodes && p != Successor(nodes, k) && p in mem ==>
          p in mem' && mem'[p].previous == mem[p].previous)
  }

  lemma InsertKeepsRing(mem: Memory, mem': Memory, nodes: seq<Pointer>, k: nat, x: Pointer)
    requires Ring(mem, nodes) && Distinct(nodes) && k < |nodes| && x !in nodes && LinkedIn(mem, mem', nodes, k, x)
    ensures Ring(mem', InsertAt(nodes, k + 1, x)) && Distinct(InsertAt(nodes, k + 1, x))
  {
    var after := InsertAt(nodes, k + 1, x);
    forall i | 0 < i < |after| ensures Joined(mem', after[i - 1], after[i]) {
      if i <= k {
        assert Joined(mem, nodes[i - 1], nodes[i]);
      } else if i > k + 2 {
        assert Joined(mem, nodes[i - 1 - 1], nodes[i - 1]);
      }
    }
  }

  /** mem' joins the neighbours of node k and changes no other link of the ring. */
  ghost predicate LinkedOut(mem: Memory, mem': Memory, nodes: seq<Pointer>, k: nat)
    requires k < |nodes|
  {
    && Joined(mem', Predecessor(nodes, k), Successor(nodes, k))
    && (forall p :: p in nodes && p != Predecessor(nodes, k) && p in mem ==> p in mem' && mem'[p].next == mem[p].next)
    && (forall p :: p in nodes && p != Successor(nodes, k) && p in mem ==>
          p in mem' && mem'[p].previous == mem[p].previous)
  }

  lemma RemoveKeepsRing(mem: Memory, mem': Memory, nodes: seq<Pointer>, k: nat)
    requires Ring(mem, nodes) && Distinct(nodes) && 0 < k < |nodes| && LinkedOut(mem, mem', nodes, k)
    ensures Ring(mem', RemoveAt(nodes, k)) && Distinct(RemoveAt(nodes, k))
  {
    var after := RemoveAt(nodes, k);
    forall i | 0 < i < |after| ensures Joined(mem', after[i - 1], after[i]) {
      if i < k {
        assert Joined(mem, nodes[i - 1], nodes[i]);
      } else if i > k {
        assert Joined(mem, nodes[i + 1 - 1], nodes[i + 1]);
      }
    }
  }

  ghost predicate InMemory(mem: Memory, items: seq<Pointer>) {
    forall i :: 0 <= i < |items| ==> items[i] in mem
  }

  ghost function Values(mem: Memory, items: seq<Pointer>): seq<nat>
    requires InMemory(mem, items)
  {
    seq(|items|, i requires 0 <= i < |items| => mem[items[i]].value)
  }

  lemma PositionUnique(values: seq<nat>, v: nat, k: nat)
    requires k <= |values| && (forall i :: 0 <= i < k ==> values[i] <= v) && (k < |values| ==> values[k] > v)
    ensures k == Position(values, v)
  {
  }

  /** The search of vListInsert.  It ends for every value: the end marker's value stops the walk,
      and the one value it could not stop is given the last place without walking. */
  method FindPlace(mem: Memory, end: Pointer, ghost items: seq<Pointer>, v: nat) returns (it: Pointer)
    requires Ring(mem, [end] + items) && InMemory(mem, items) && mem[end].value == MAX_DELAY
    requires v <= MAX_DELAY && forall i :: 0 <= i < |items| ==> mem[items[i]].value <= MAX_DELAY
    ensures it == ([end] + items)[Position(Values(mem, items), v)]
  {
    ghost var nodes, k := [end] + items, 0;
    if v == MAX_DELAY {
      RingAt(mem, nodes, 0);
      it, k := mem[end].previous, |items|;
    } else {
      it, k := end, 0;
      RingAt(mem, nodes, 0);
      while mem[mem[it].next].value <= v
        invariant k <= |items| && it == nodes[k] && it in mem && mem[it].next in mem
        invariant mem[it].next == Successor(nodes, k)
        invariant forall i :: 0 <= i < k ==> mem[items[i]].value <= v
        decreases |items| - k
      {
        assert k < |items|;
        it := mem[it].next;
        k := k + 1;
        RingAt(mem, nodes, k);
      }
    }
    PositionUnique(Values(mem, items), v, k);
  }

  /** The pointer writes at the end of vListInsert. */
  method LinkBehind(mem0: Memory, it: Pointer, item: Pointer, list: Pointer, ghost nodes: seq<Pointer>, ghost k: nat)
    returns (mem: Memory)
    requires Ring(mem0, nodes) && Distinct(nodes) && k < |nodes| && it == nodes[k] && item in mem0 && item !in nodes
    ensures LinkedIn(mem0, mem, nodes, k, item) && OthersUntouched(mem0, mem, nodes, item)
    ensures item in mem && mem[item].container == list
    ensures forall p :: p in mem0 ==>
              p in mem && mem[p].value == mem0[p].value && (p != item ==> mem[p].container == mem0[p].container)
  {
    RingAt(mem0, nodes, k);
    mem := mem0[item := mem0[item].(next := mem0[it].next)];
    var next := mem[item].next;
    mem := mem[next := mem[next].(previous := item)];
    mem := mem[item := mem[item].(previous := it)];
    mem := mem[it := mem[it].(next := item)];
    mem := mem[item := mem[item].(container := list)];
  }

  /** The pointer writes of vListInsertEnd. */
  method LinkBefore(mem0: Memory, index: Pointer, item: Pointer, list: Pointer, ghost nodes: seq<Pointer>, ghost k: nat)
    returns (mem: Memory)
    requires Ring(mem0, nodes) && Distinct(nodes) && k < |nodes| && index == Successor(nodes, k) && item in mem0
        && item !in nodes
    ensures LinkedIn(mem0, mem, nodes, k, item) && OthersUntouched(mem0, mem, nodes, item)
    ensures item in mem && mem[item].container == list
    ensures forall p :: p in mem0 ==>
              p in mem && mem[p].value == mem0[p].value && (p != item ==> mem[p].container == mem0[p].container)
  {
    RingAt(mem0, nodes, k);
    mem := mem0[item := mem0[item].(next := index)];
    mem := mem[item := mem[item].(previous := mem[index].previous)];
    var previous := mem[index].previous;
    mem := mem[previous := mem[previous].(next := item)];
    mem := mem[index := mem[index].(previous := item)];
    mem := mem[item := mem[item].(container := list)];
  }

  /** The pointer writes of uxListRemove. */
  method LinkOut(mem0: Memory, item: Pointer, ghost nodes: seq<Pointer>, ghost k: nat) returns (mem: Memory)
    requires Ring(mem0, nodes) && Distinct(nodes) && 0 < k < |nodes| && item == nodes[k]
    ensures LinkedOut(mem0, mem, nodes, k) && OthersUntouched(mem0, mem, nodes, item)
    ensures item in mem && mem[item].container == NULL
    ensures forall p :: p in mem0 ==>
              p in mem && mem[p].value == mem0[p].value && (p != item ==> mem[p].container == mem0[p].container)
  {
    RingAt(mem0, nodes, k);
    var next, previous := mem0[item].next, mem0[item].previous;
    mem := mem0[next := mem0[next].(previous := previous)];
    mem := mem[previous := mem[previous].(next := next)];
    mem := mem[item := mem[item].(container := NULL)];
  }

  ghost function IndexOf(nodes: seq<Pointer>, p: Pointer): (k: nat)
    requires p in nodes
    ensures k < |nodes| && nodes[k] == p
  {
    if nodes[0] == p then 0 else 1 + IndexOf(nodes[1..], p)
  }

  lemma ItemAmongNodes(end: Pointer, items: seq<Pointer>, k: nat)
    requires k < |items|
    ensures ([end] + items)[k + 1] == items[k]
  {
  }

  /** The index, stepped back if it was on the removed item, is on a remaining node. */
  lemma IndexSurvives(end: Pointer, items: seq<Pointer>, k: nat, index: Pointer)
    requires k < |items| && index in [end] + items
    ensures index != items[k] ==> index in RemoveAt([end] + items, k + 1)
    ensures Predecessor([end] + items, k + 1) in RemoveAt([end] + items, k + 1)
  {
    var nodes := [end] + items;
    var after := RemoveAt(nodes, k + 1);
    assert after[k] == nodes[k];
    var j := IndexOf(nodes, index);
    if index != items[k] {
      assert index == after[if j < k + 1 then j else j - 1];
    }
  }

  /** All items but the k-th stay recorded as being on the list. */
  ghost predicate OthersOnList(mem: Memory, items: seq<Pointer>, k: nat, list: Pointer)
    requires InMemory(mem, items)
  {
    forall i :: 0 <= i < |items| && i != k ==> mem[items[i]].container == list && mem[items[i]].value <= MAX_DELAY
  }

  ghost predicate AllOnList(mem: Memory, items: seq<Pointer>, list: Pointer)
    requires InMemory(mem, items)
  {
    forall i :: 0 <= i < |items| ==> mem[items[i]].container == list && mem[items[i]].value <= MAX_DELAY
  }

  lemma RestOnList(mem: Memory, items: seq<Pointer>, k: nat, list: Pointer)
    requires InMemory(mem, items) && k < |items| && OthersOnList(mem, items, k, list)
    ensures InMemory(mem, RemoveAt(items, k)) && AllOnList(mem, RemoveAt(items, k), list)
  {
  }

  lemma MoreOnList(mem: Memory, items: seq<Pointer>, k: nat, item: Pointer, list: Pointer)
    requires InMemory(mem, items) && k <= |items| && AllOnList(mem, items, list)
    requires item in mem && mem[item].container == list && mem[item].value <= MAX_DELAY
    ensures InMemory(mem, InsertAt(items, k, item)) && AllOnList(mem, InsertAt(items, k, item), list)
  {
  }

  lemma IndexStays(nodes: seq<Pointer>, k: nat, item: Pointer, index: Pointer)
    requires k <= |nodes| && index in nodes
    ensures index in InsertAt(nodes, k, item)
  {
    assert nodes == nodes[..k] + nodes[k..];
  }

  method TakeOut(mem0: Memory, end: Pointer, item: Pointer, ghost items: seq<Pointer>, ghost k: nat)
      returns (mem: Memory)
    requires Ring(mem0, [end] + items) && Distinct([end] + items) && k < |items| && item == items[k]
        && InMemory(mem0, items)
    ensures Ring(mem, RemoveAt([end] + items, k + 1)) && Distinct(RemoveAt([end] + items, k + 1))
    ensures item in mem && mem[item].container == NULL
    ensures forall p :: p in mem0 ==> p in mem && mem[p].value == mem0[p].value
    ensures InMemory(mem, items)
    ensures OthersUntouched(mem0, mem, [end] + items, item)
    ensures forall list :: OthersOnList(mem0, items, k, list) ==> OthersOnList(mem, items, k, list)
  {
    ghost var nodes := [end] + items;
    ItemAmongNodes(end, items, k);
    mem := LinkOut(mem0, item, nodes, k + 1);
    RemoveKeepsRing(mem0, mem, nodes, k + 1);
    forall i | 0 <= i < |items| && i != k ensures items[i] != item {
      ItemAmongNodes(end, items, i);
    }
  }

  /** The place vListInsertEnd gives an item: just before the walking index, going round the ring. */
  ghost function EndPlace(end: Pointer, items: seq<Pointer>, index: Pointer): (k: nat)
    requires index in [end] + items
    ensures k <= |items| && index == Successor([end] + items, k)
  {
    var nodes := [end] + items;
    var j := IndexOf(nodes, index);
    if j == 0 then |items| else j - 1
  }

  class List {
    const self: Pointer
    const xListEnd: Pointer
    var mem: Memory
    var uxNumberOfItems: nat
    var pxIndex: Pointer
    ghost var items: seq<Pointer>

    ghost predicate Valid()
      reads this
    {
      && Ring(mem, [xListEnd] + items) && Distinct([xListEnd] + items)
      && uxNumberOfItems == |items|
      && pxIndex in [xListEnd] + items
      && xListEnd in mem && mem[xListEnd].value == MAX_DELAY
      && InMemory(mem, items) && AllOnList(mem, items, self)
    }

    /** vListInitialise, in a memory that holds other items. */
    constructor (self: Pointer, end: Pointer, mem: Memory)
      ensures Valid() && items == [] && this.self == self && xListEnd == end
      ensures this.mem == mem[end := ListItem(MAX_DELAY, end, end, NULL)]
    {
      this.self, xListEnd := self, end;
      this.mem := mem[end := ListItem(MAX_DELAY, end, end, NULL)];
      pxIndex, uxNumberOfItems, items := end, 0, [];
    }

    /** vListInsert: sorted insertion behind equal values. */
    method Insert(item: Pointer)
      requires Valid() && item in mem && item !in [xListEnd] + items && mem[item].value <= MAX_DELAY
      modifies this
      ensures Valid() && pxIndex == old(pxIndex)
      ensures items == InsertAt(old(items), Position(Values(old(mem), old(items)), old(mem)[item].value), item)
      ensures forall p :: p in old(mem) ==> p in mem && mem[p].value == old(mem)[p].value
      ensures OthersUntouched(old(mem), mem, [xListEnd] + old(items), item)
    {
      ghost var nodes := [xListEnd] + items;
      ghost var k := Position(Values(mem, items), mem[item].value);
      var it := FindPlace(mem, xListEnd, items, mem[item].value);
      ghost var mem0 := mem;
      mem := LinkBehind(mem, it, item, self, nodes, k);
      InsertKeepsRing(mem0, mem, nodes, k, item);
      AddItem(item, k);
    }

    method AddItem(item: Pointer, ghost k: nat)
      requires k <= |items| && uxNumberOfItems == |items| && pxIndex in [xListEnd] + items
      requires Ring(mem, InsertAt([xListEnd] + items, k + 1, item))
          && Distinct(InsertAt([xListEnd] + items, k + 1, item))
      requires xListEnd in mem && mem[xListEnd].value == MAX_DELAY && InMemory(mem, items)
      requires item in mem && mem[item].container == self && mem[item].value <= MAX_DELAY
      requires AllOnList(mem, items, self)
      modifies this`uxNumberOfItems, this`items
      ensures Valid() && items == InsertAt(old(items), k, item)
    {
      assert InsertAt([xListEnd] + items, k + 1, item) == [xListEnd] + InsertAt(items, k, item);
      IndexStays([xListEnd] + items, k + 1, item, pxIndex);
      MoreOnList(mem, items, k, item, self);
      uxNumberOfItems := uxNumberOfItems + 1;
      items := InsertAt(items, k, item);
    }

    /** vListInsertEnd: insertion just before the walking index, without looking at values. */
    method InsertEnd(item: Pointer)
      requires Valid() && item in mem && item !in [xListEnd] + items && mem[item].value <= MAX_DELAY
      modifies this
      ensures Valid() && pxIndex == old(pxIndex)
      ensures items == InsertAt(old(items), EndPlace(xListEnd, old(items), pxIndex), item)
      ensures forall p :: p in old(mem) ==> p in mem && mem[p].value == old(mem)[p].value
      ensures OthersUntouched(old(mem), mem, [xListEnd] + old(items), item)
    {
      ghost var nodes, k := [xListEnd] + items, EndPlace(xListEnd, items, pxIndex);
      ghost var mem0 := mem;
      mem := LinkBefore(mem, pxIndex, item, self, nodes, k);
      InsertKeepsRing(mem0, mem, nodes, k, item);
      AddItem(item, k);
    }

    /** uxListRemove: exactly this item goes; an index on it steps back. */
    method Remove(item: Pointer) returns (left: nat)
      requires Valid() && item in items
      modifies this
      ensures Valid() && left == |items| == |old(items)| - 1
      ensures items == RemoveAt(old(items), IndexOf(old(items), item))
      ensures item in mem && mem[item].container == NULL
      ensures pxIndex == if old(pxIndex) == item
                         then Predecessor([xListEnd] + old(items), IndexOf(old(items), item) + 1) else old(pxIndex)
      ensures forall p :: p in old(mem) ==> p in mem && mem[p].value == old(mem)[p].value
      ensures OthersUntouched(old(mem), mem, [xListEnd] + old(items), item)
    {
      ghost var k := IndexOf(items, item);
      ItemAmongNodes(xListEnd, items, k);
      RingAt(mem, [xListEnd] + items, k + 1);
      var before := mem[item].previous;
      IndexSurvives(xListEnd, items, k, pxIndex);
      mem := TakeOut(mem, xListEnd, item, items, k);
      if pxIndex == item {
        pxIndex := before;
      }
      DropItem(k);
      left := uxNumberOfItems;
    }

    method DropItem(ghost k: nat)
      requires k < |items| && uxNumberOfItems == |items|
      requires var nodes := RemoveAt([xListEnd] + items, k + 1); Ring(mem, nodes) && Distinct(nodes) && pxIndex in nodes
      requires xListEnd in mem && mem[xListEnd].value == MAX_DELAY && InMemory(mem, items)
      requires OthersOnList(mem, items, k, self)
      modifies this`uxNumberOfItems, this`items
      ensures Valid() && items == RemoveAt(old(items), k)
    {
      assert RemoveAt([xListEnd] + items, k + 1) == [xListEnd] + RemoveAt(items, k);
      RestOnList(mem, items, k, self);
      uxNumberOfItems := uxNumberOfItems - 1;
      items := RemoveAt(items, k);
    }

    /** listGET_OWNER_OF_NEXT_ENTRY: the index moves one item on, stepping over the end marker. */
    method NextEntry() returns (item: Pointer)
      requires Valid() && items != []
      modifies this`pxIndex
      ensures Valid() && item == pxIndex && item in items
      ensures var k := IndexOf([xListEnd] + items, old(pxIndex));
              item == items[if k == |items| then 0 else k]
    {
      ghost var nodes, k := [xListEnd] + items, IndexOf([xListEnd] + items, pxIndex);
      RingAt(mem, nodes, k);
      pxIndex := mem[pxIndex].next;
      if pxIndex == xListEnd {
        RingAt(mem, nodes, 0);
        pxIndex := mem[pxIndex].next;
      }
      item := pxIndex;
    }
  }
}
