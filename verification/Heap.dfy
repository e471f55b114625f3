/**
 The allocator of furi/core/memmgr_heap.c: block headers rewritten in place.

 Memory is a map from addresses to headers.  `Chain` says that the headers, followed from the
 static list head, represent a sequence of blocks; every method is proved to take a heap that
 represents some blocks to one that represents what module HeapBlocks says the blocks become.
 */
module Heap {
  import opened HeapBlocks

  const NULL: nat := 0

  /** BlockLink_t; the top bit of `size` marks a block owned by the application. */
  datatype Link = Link(next: nat, size: nat)

  type Memory = map<nat, Link>

  ghost function NextFree(bs: seq<Block>, end: nat): nat {
    if bs == [] then end else if bs[0].free then bs[0].addr else NextFree(bs[1..], end)
  }

  ghost function LastFree(bs: seq<Block>, start: nat): nat {
    if bs == [] then start else LastFree(bs[1..], if bs[0].free then bs[0].addr else start)
  }

  ghost function HeaderOf(b: Block, next: nat): Link {
    if b.free then Link(next, b.size) else Link(NULL, b.size + ALLOCATED_BIT)
  }

  /** Every block has its header; a free block links to the next free one, or to `end`. */
  ghost predicate Rep(mem: Memory, bs: seq<Block>, end: nat) {
    bs == [] ||
    (&& bs[0].addr in mem
     && mem[bs[0].addr] == HeaderOf(bs[0], NextFree(bs[1..], end))
     && Rep(mem, bs[1..], end))
  }

  /** The list that starts at header `start` runs through exactly the free blocks, in order. */
  ghost predicate Chain(mem: Memory, start: nat, bs: seq<Block>, end: nat) {
    start in mem && mem[start].next == NextFree(bs, end) && Rep(mem, bs, end)
  }

  ghost predicate Agree(mem: Memory, mem': Memory, lo: nat, hi: nat) {
    forall x :: lo <= x < hi && x in mem ==> x in mem' && mem'[x] == mem[x]
  }

  lemma {:induction false} NextFreeConcat(a: seq<Block>, b: seq<Block>, end: nat)
    ensures NextFree(a + b, end) == NextFree(a, NextFree(b, end))
  {
    if a == [] {
      assert a + b == b;
    } else {
      assert (a + b)[1..] == a[1..] + b;
      NextFreeConcat(a[1..], b, end);
    }
  }

  lemma {:induction false} LastFreeConcat(a: seq<Block>, b: seq<Block>, start: nat)
    ensures LastFree(a + b, start) == LastFree(b, LastFree(a, start))
  {
    if a == [] {
      assert a + b == b;
    } else {
      assert (a + b)[1..] == a[1..] + b;
      LastFreeConcat(a[1..], b, if a[0].free then a[0].addr else start);
    }
  }

  lemma {:induction false} RepConcat(mem: Memory, a: seq<Block>, b: seq<Block>, end: nat)
    ensures Rep(mem, a + b, end) <==> Rep(mem, a, NextFree(b, end)) && Rep(mem, b, end)
  {
    if a == [] {
      assert a + b == b;
    } else {
      assert (a + b)[1..] == a[1..] + b;
      NextFreeConcat(a[1..], b, end);
      RepConcat(mem, a[1..], b, end);
    }
  }

  lemma ChainConcat(mem: Memory, start: nat, a: seq<Block>, b: seq<Block>, end: nat)
    ensures Chain(mem, start, a + b, end) <==> Chain(mem, start, a, NextFree(b, end)) && Rep(mem, b, end)
  {
    NextFreeConcat(a, b, end);
    RepConcat(mem, a, b, end);
  }

  lemma {:induction false} RepFrame(mem: Memory, mem': Memory, bs: seq<Block>, end: nat, lo: nat, hi: nat)
    requires Tiles(bs, lo, hi) && Rep(mem, bs, end) && Agree(mem, mem', lo, hi)
    ensures Rep(mem', bs, end)
  {
    if bs != [] {
      TilesSpan(bs[1..], lo + bs[0].size, hi);
      RepFrame(mem, mem', bs[1..], end, lo + bs[0].size, hi);
    }
  }

  /** The last free block of a chain, or its start when there is none, links past the chain. */
  lemma {:induction false} ChainLast(mem: Memory, start: nat, bs: seq<Block>, end: nat)
    requires Chain(mem, start, bs, end)
    ensures LastFree(bs, start) in mem && mem[LastFree(bs, start)].next == end
    decreases |bs|
  {
    if bs != [] {
      ChainLast(mem, if bs[0].free then bs[0].addr else start, bs[1..], end);
    }
  }

  lemma {:induction false} LastFreeInside(bs: seq<Block>, start: nat, lo: nat, hi: nat)
    requires Tiles(bs, lo, hi)
    ensures LastFree(bs, start) == start || lo <= LastFree(bs, start) < hi
  {
    if bs != [] {
      TilesSpan(bs[1..], lo + bs[0].size, hi);
      LastFreeInside(bs[1..], if bs[0].free then bs[0].addr else start, lo + bs[0].size, hi);
    }
  }

  /** Redirecting the last link of a chain changes where the chain ends and nothing else. */
  lemma {:induction false} Relink(mem: Memory, start: nat, bs: seq<Block>, end: nat, end': nat, lo: nat, hi: nat)
    requires Chain(mem, start, bs, end) && Tiles(bs, lo, hi) && !(lo <= start < hi)
    ensures LastFree(bs, start) in mem
    ensures Chain(mem[LastFree(bs, start) := mem[LastFree(bs, start)].(next := end')], start, bs, end')
    decreases |bs|
  {
    ChainLast(mem, start, bs, end);
    if bs != [] {
      var p := LastFree(bs, start);
      var rest := if bs[0].free then bs[0].addr else start;
      TilesSpan(bs[1..], lo + bs[0].size, hi);
      LastFreeInside(bs[1..], rest, lo + bs[0].size, hi);
      Relink(mem, rest, bs[1..], end, end', lo + bs[0].size, hi);
    }
  }

  /** The last free block ends where the tiling ends exactly when it is the last block. */
  lemma {:induction false} LastFreeTouches(mem: Memory, start: nat, bs: seq<Block>, end: nat, lo: nat, hi: nat)
    requires Chain(mem, start, bs, end) && Tiles(bs, lo, hi)
    ensures LastFree(bs, start) in mem
    ensures bs != [] && bs[|bs| - 1].free ==>
              && LastFree(bs, start) == bs[|bs| - 1].addr
              && mem[LastFree(bs, start)].size == bs[|bs| - 1].size
              && LastFree(bs, start) + mem[LastFree(bs, start)].size == hi
    ensures (bs == [] || !bs[|bs| - 1].free) ==>
              LastFree(bs, start) == start || LastFree(bs, start) + mem[LastFree(bs, start)].size < hi
    decreases |bs|
  {
    ChainLast(mem, start, bs, end);
    if bs != [] {
      TilesSpan(bs[1..], lo + bs[0].size, hi);
      LastFreeTouches(mem, if bs[0].free then bs[0].addr else start, bs[1..], end, lo + bs[0].size, hi);
    }
  }

  lemma {:induction false} NextFreeBounds(bs: seq<Block>, lo: nat, hi: nat)
    requires Tiles(bs, lo, hi)
    ensures lo <= NextFree(bs, hi) <= hi
    ensures NextFree(bs, hi) == lo <==> bs == [] || bs[0].free
    ensures NextFree(bs, hi) == hi <==> forall b :: b in bs ==> !b.free
  {
    if bs != [] {
      TilesSpan(bs[1..], lo + bs[0].size, hi);
      NextFreeBounds(bs[1..], lo + bs[0].size, hi);
      assert bs == [bs[0]] + bs[1..];
    }
  }

  // ---- what the header writes of one allocation and one release do to the chain

  /** mem' is mem after the header writes that take block b: the last free header before b links
      past it, b is marked, and what is cut off b gets a header of its own. */
  ghost predicate Taken(mem: Memory, mem': Memory, start: nat, a: seq<Block>, b: Block, c: seq<Block>,
                        want: nat, lo: nat, hi: nat)
    requires b.size >= want
  {
    var p, mid := LastFree(a, start), AllocatePieces(b, want);
    && p in mem
    && var linked := mem[p := mem[p].(next := NextFree(mid[1..] + c, hi))];
    && Agree(linked, mem', lo, b.addr) && start in linked && start in mem' && mem'[start] == linked[start]
    && Agree(mem, mem', b.addr + b.size, hi)
    && b.addr in mem' && mem'[b.addr] == HeaderOf(mid[0], NULL)
    && (|mid| == 2 ==> mid[1].addr in mem' && mem'[mid[1].addr] == HeaderOf(mid[1], NextFree(c, hi)))
  }

  /** Taking block b out of the list (and, when it is cut, putting the rest in its place). */
  lemma AllocateChain(mem: Memory, mem': Memory, start: nat, a: seq<Block>, b: Block, c: seq<Block>,
                      want: nat, lo: nat, hi: nat)
    requires Chain(mem, start, a, b.addr) && Rep(mem, c, hi)
    requires Tiles(a, lo, b.addr) && Tiles(c, b.addr + b.size, hi)
    requires b.free && b.size >= want >= HEADER && !(lo <= start <= hi)
    requires lo <= b.addr && b.addr + b.size <= hi
    requires Taken(mem, mem', start, a, b, c, want, lo, hi)
    ensures Chain(mem', start, a + (AllocatePieces(b, want) + c), hi)
  {
    var mid := AllocatePieces(b, want);
    var next := NextFree(mid[1..] + c, hi);
    var p := LastFree(a, start);
    var linked := mem[p := mem[p].(next := next)];
    Relink(mem, start, a, b.addr, next, lo, b.addr);
    RepFrame(linked, mem', a, next, lo, b.addr);
    RepFrame(mem, mem', c, hi, b.addr + b.size, hi);
    assert mid + c == [mid[0]] + (mid[1..] + c);
    assert Rep(mem', mid[1..] + c, hi) by {
      if |mid| == 2 {
        assert mid[1..] + c == [mid[1]] + c;
        assert ([mid[1]] + c)[1..] == c;
      } else {
        assert mid[1..] + c == c;
      }
    }
    assert ([mid[0]] + (mid[1..] + c))[1..] == mid[1..] + c;
    ChainConcat(mem', start, a, mid + c, hi);
  }

  /** Giving block b the header of a block merged with its right neighbour. */
  lemma MergeRightRep(mem: Memory, mem': Memory, b: Block, right: seq<Block>, hi: nat)
    requires Tiles(right, b.addr + b.size, hi) && Rep(mem, right, hi)
    requires Agree(mem, mem', b.addr + b.size, hi) && b.addr in mem'
    requires if right != [] && right[0].free
             then mem'[b.addr] == Link(mem[right[0].addr].next, b.size + right[0].size)
             else mem'[b.addr] == Link(NextFree(right, hi), b.size)
    ensures Rep(mem', MergeRight(b, right), hi)
    ensures NextFree(MergeRight(b, right), hi) == b.addr
  {
    RepFrame(mem, mem', right, hi, b.addr + b.size, hi);
    if right != [] && right[0].free {
      assert MergeRight(b, right)[1..] == right[1..];
    } else {
      assert MergeRight(b, right)[1..] == right;
    }
  }

  /** Releasing b behind an allocated block: the last free block before it now links to b. */
  lemma FreeChainAlone(mem: Memory, mem': Memory, start: nat, a: seq<Block>, b: Block, c: seq<Block>, lo: nat, hi: nat)
    requires Chain(mem, start, a, NextFree(c, hi)) && Rep(mem, c, hi)
    requires Tiles(a, lo, b.addr) && Tiles(c, b.addr + b.size, hi) && b.size >= HEADER && !(lo <= start <= hi)
    requires b.addr + b.size <= hi && lo <= b.addr
    requires LastFree(a, start) in mem
    requires var linked := mem[LastFree(a, start) := mem[LastFree(a, start)].(next := b.addr)];
             && Agree(linked, mem', lo, b.addr) && start in mem' && mem'[start] == linked[start]
    requires Agree(mem, mem', b.addr + b.size, hi) && b.addr in mem'
    requires if c != [] && c[0].free
             then mem'[b.addr] == Link(mem[c[0].addr].next, b.size + c[0].size)
             else mem'[b.addr] == Link(NextFree(c, hi), b.size)
    ensures Chain(mem', start, a + MergeRight(b, c), hi)
  {
    var p := LastFree(a, start);
    var linked := mem[p := mem[p].(next := b.addr)];
    Relink(mem, start, a, NextFree(c, hi), b.addr, lo, b.addr);
    RepFrame(linked, mem', a, b.addr, lo, b.addr);
    MergeRightRep(mem, mem', b, c, hi);
    ChainConcat(mem', start, a, MergeRight(b, c), hi);
  }

  /** Releasing b behind a free block l: l grows over b. */
  lemma FreeChainMerged(mem: Memory, mem': Memory, start: nat, front: seq<Block>, l: Block, b: Block, c: seq<Block>,
                        lo: nat, hi: nat)
    requires Chain(mem, start, front, l.addr) && Rep(mem, c, hi)
    requires Tiles(front, lo, l.addr) && l.addr + l.size == b.addr && Tiles(c, b.addr + b.size, hi)
    requires !(lo <= start <= hi) && lo <= l.addr && b.addr + b.size <= hi
    requires Agree(mem, mem', lo, l.addr) && start in mem' && mem'[start] == mem[start]
    requires Agree(mem, mem', b.addr + b.size, hi) && l.addr in mem'
    requires if c != [] && c[0].free
             then mem'[l.addr] == Link(mem[c[0].addr].next, l.size + b.size + c[0].size)
             else mem'[l.addr] == Link(NextFree(c, hi), l.size + b.size)
    ensures Chain(mem', start, front + MergeRight(Block(l.addr, l.size + b.size, true), c), hi)
  {
    var big := Block(l.addr, l.size + b.size, true);
    RepFrame(mem, mem', front, l.addr, lo, l.addr);
    MergeRightRep(mem, mem', big, c, hi);
    ChainConcat(mem', start, front, MergeRight(big, c), hi);
  }

  // ---- walking the list

  ghost function NextFreeIndex(bs: seq<Block>, i: nat): (j: nat)
    requires i <= |bs|
    ensures i <= j <= |bs|
    ensures j < |bs| ==> bs[j].free
    ensures forall x :: i <= x < j ==> !bs[x].free
    decreases |bs| - i
  {
    if i == |bs| || bs[i].free then i else NextFreeIndex(bs, i + 1)
  }

  lemma {:induction false} WalkTo(bs: seq<Block>, i: nat, start: nat, end: nat)
    requires i <= |bs|
    ensures var j := NextFreeIndex(bs, i);
            && NextFree(bs[i..], end) == (if j < |bs| then bs[j].addr else end)
            && LastFree(bs[..j], start) == LastFree(bs[..i], start)
    decreases |bs| - i
  {
    if i < |bs| && !bs[i].free {
      WalkTo(bs, i + 1, start, end);
      assert bs[i..][1..] == bs[i + 1..];
      assert bs[..i + 1] == bs[..i] + [bs[i]];
      LastFreeConcat(bs[..i], [bs[i]], start);
    }
  }

  lemma ChainAt(mem: Memory, start: nat, bs: seq<Block>, end: nat, i: nat)
    requires Chain(mem, start, bs, end) && i < |bs|
    ensures bs[i].addr in mem && mem[bs[i].addr] == HeaderOf(bs[i], NextFree(bs[i + 1..], end))
    ensures Chain(mem, start, bs[..i], NextFree([bs[i]] + bs[i + 1..], end)) && Rep(mem, bs[i + 1..], end)
    ensures LastFree(bs[..i + 1], start) == if bs[i].free then bs[i].addr else LastFree(bs[..i], start)
  {
    SplitAt(bs, i);
    ChainConcat(mem, start, bs[..i], [bs[i]] + bs[i + 1..], end);
    assert ([bs[i]] + bs[i + 1..])[1..] == bs[i + 1..];
    assert bs[..i + 1] == bs[..i] + [bs[i]];
    LastFreeConcat(bs[..i], [bs[i]], start);
  }

  // ---- the code that reads and writes headers

  lemma HeaderPresent(mem: Memory, start: nat, bs: seq<Block>, end: nat, k: nat)
    requires Chain(mem, start, bs, end) && end in mem && k <= |bs|
    ensures (if k < |bs| then bs[k].addr else end) in mem
  {
    if k < |bs| { ChainAt(mem, start, bs, end, k); }
  }

  lemma FreeLinkNotNull(mem: Memory, start: nat, bs: seq<Block>, lo: nat, end: nat, k: nat)
    requires Chain(mem, start, bs, end) && Tiles(bs, lo, end) && 0 < lo
    requires k < |bs| && bs[k].free
    ensures bs[k].addr in mem && mem[bs[k].addr].size == bs[k].size && mem[bs[k].addr].next != NULL
  {
    ChainAt(mem, start, bs, end, k);
    BlockBounds(bs, lo, end, k);
    NextFreeBounds(bs[k + 1..], bs[k].addr + bs[k].size, end);
  }

  lemma WalkOn(mem: Memory, start: nat, bs: seq<Block>, end: nat, k: nat)
    requires Chain(mem, start, bs, end) && end in mem && k < |bs| && bs[k].free
    ensures var j := NextFreeIndex(bs, k + 1);
            && bs[k].addr in mem
            && mem[bs[k].addr].next == (if j < |bs| then bs[j].addr else end)
            && mem[bs[k].addr].next in mem
            && LastFree(bs[..j], start) == bs[k].addr
  {
    ChainAt(mem, start, bs, end, k);
    WalkTo(bs, k + 1, start, end);
    HeaderPresent(mem, start, bs, end, NextFreeIndex(bs, k + 1));
  }

  /** The list walk of pvPortMalloc: the first block of adequate size, or the end marker. */
  method FindFit(mem: Memory, start: nat, ghost bs: seq<Block>, ghost lo: nat, end: nat, want: nat)
    returns (prev: nat, block: nat)
    requires Chain(mem, start, bs, end) && Tiles(bs, lo, end) && 0 < lo && want > 0
    requires end in mem && mem[end] == Link(NULL, 0)
    ensures block == if FirstFit(bs, want) < |bs| then bs[FirstFit(bs, want)].addr else end
    ensures prev == LastFree(bs[..FirstFit(bs, want)], start)
  {
    prev := start;
    block := mem[start].next;
    ghost var k := NextFreeIndex(bs, 0);
    WalkTo(bs, 0, start, end);
    assert bs[0..] == bs;
    HeaderPresent(mem, start, bs, end, k);
    while mem[block].size < want && mem[block].next != NULL
      invariant k <= |bs| && (k < |bs| ==> bs[k].free)
      invariant block == if k < |bs| then bs[k].addr else end
      invariant block in mem && prev == LastFree(bs[..k], start)
      invariant forall i :: 0 <= i < k ==> !(bs[i].free && bs[i].size >= want)
      decreases |bs| - k
    {
      FreeLinkNotNull(mem, start, bs, lo, end, k);
      WalkOn(mem, start, bs, end, k);
      prev := block;
      block := mem[block].next;
      k := NextFreeIndex(bs, k + 1);
    }
    if k < |bs| {
      FreeLinkNotNull(mem, start, bs, lo, end, k);
    }
  }

  /** The header writes of pvPortMalloc on the block it takes and the one before it. */
  method TakeHeaders(mem0: Memory, prev: nat, block: nat, want: nat) returns (mem: Memory, taken: nat)
    requires prev in mem0 && block in mem0 && prev != block && want > 0 && prev != block + want
    ensures var size, next := mem0[block].size, mem0[block].next;
            if size - want > MINIMUM_BLOCK then
              && taken == want
              && mem == mem0[prev := Link(block + want, mem0[prev].size)][block := Link(NULL, want + ALLOCATED_BIT)]
                            [block + want := Link(next, size - want)]
            else
              && taken == size
              && mem == mem0[prev := Link(next, mem0[prev].size)][block := Link(NULL, size + ALLOCATED_BIT)]
  {
    mem := mem0[prev := mem0[prev].(next := mem0[block].next)];
    if mem[block].size - want > MINIMUM_BLOCK {
      var newBlock := block + want;
      mem := mem[newBlock := Link(NULL, mem[block].size - want)];
      mem := mem[block := mem[block].(size := want)];
      mem := mem[newBlock := mem[newBlock].(next := mem[prev].next)];
      mem := mem[prev := mem[prev].(next := newBlock)];
    }
    taken := mem[block].size;
    mem := mem[block := mem[block].(size := mem[block].size + ALLOCATED_BIT)];
    mem := mem[block := mem[block].(next := NULL)];
  }

  lemma HeadersTaken(mem: Memory, mem': Memory, start: nat, a: seq<Block>, b: Block, c: seq<Block>,
                     want: nat, lo: nat, hi: nat)
    requires b.free && b.size >= want > 0 && !(lo <= start <= hi) && lo <= b.addr && b.addr + b.size <= hi
    requires LastFree(a, start) in mem && start in mem
    requires LastFree(a, start) == start || lo <= LastFree(a, start) < b.addr
    requires var p, next := LastFree(a, start), NextFree(c, hi);
             if b.size - want > MINIMUM_BLOCK then
               mem' == mem[p := Link(b.addr + want, mem[p].size)][b.addr := Link(NULL, want + ALLOCATED_BIT)]
                          [b.addr + want := Link(next, b.size - want)]
             else
               mem' == mem[p := Link(next, mem[p].size)][b.addr := Link(NULL, b.size + ALLOCATED_BIT)]
    ensures Taken(mem, mem', start, a, b, c, want, lo, hi)
  {
    if b.size - want > MINIMUM_BLOCK {
      HeadersSplit(mem, mem', start, a, b, c, want, lo, hi);
    } else {
      HeadersWhole(mem, mem', start, a, b, c, want, lo, hi);
    }
  }

  lemma HeadersSplit(mem: Memory, mem': Memory, start: nat, a: seq<Block>, b: Block, c: seq<Block>, want: nat,
                     lo: nat, hi: nat)
    requires b.free && b.size - want > MINIMUM_BLOCK && want > 0 && !(lo <= start <= hi) && lo <= b.addr
        && b.addr + b.size <= hi
    requires LastFree(a, start) in mem && start in mem
    requires LastFree(a, start) == start || lo <= LastFree(a, start) < b.addr
    requires mem' == mem[LastFree(a, start) := Link(b.addr + want, mem[LastFree(a, start)].size)]
                        [b.addr := Link(NULL, want + ALLOCATED_BIT)]
                        [b.addr + want := Link(NextFree(c, hi), b.size - want)]
    ensures Taken(mem, mem', start, a, b, c, want, lo, hi)
  {
    var mid := AllocatePieces(b, want);
    assert mid[1..] + c == [mid[1]] + c;
  }

  lemma HeadersWhole(mem: Memory, mem': Memory, start: nat, a: seq<Block>, b: Block, c: seq<Block>, want: nat,
                     lo: nat, hi: nat)
    requires b.free && b.size >= want > 0 && b.size - want <= MINIMUM_BLOCK
    requires !(lo <= start <= hi) && lo <= b.addr && b.addr + b.size <= hi
    requires LastFree(a, start) in mem && start in mem
    requires LastFree(a, start) == start || lo <= LastFree(a, start) < b.addr
    requires mem' == mem[LastFree(a, start) := Link(NextFree(c, hi), mem[LastFree(a, start)].size)]
                        [b.addr := Link(NULL, b.size + ALLOCATED_BIT)]
    ensures Taken(mem, mem', start, a, b, c, want, lo, hi)
  {
    assert AllocatePieces(b, want)[1..] + c == c;
  }

  /** Taking a block keeps the headers and the list in step with the blocks. */
  method TakeBlock(mem0: Memory, start: nat, ghost a: seq<Block>, ghost b: Block, ghost c: seq<Block>,
                   want: nat, prev: nat, block: nat, ghost lo: nat, ghost hi: nat)
    returns (mem: Memory, taken: nat)
    requires Chain(mem0, start, a, b.addr) && Rep(mem0, c, hi)
    requires b.addr in mem0 && mem0[b.addr] == Link(NextFree(c, hi), b.size)
    requires Tiles(a, lo, b.addr) && Tiles(c, b.addr + b.size, hi) && lo <= b.addr && b.addr + b.size <= hi
    requires b.free && b.size >= want >= HEADER && !(lo <= start <= hi) && mem0[start].size == 0
    requires prev == LastFree(a, start) && block == b.addr
    requires hi in mem0
    ensures Chain(mem, start, a + (AllocatePieces(b, want) + c), hi)
    ensures taken == AllocatePieces(b, want)[0].size
    ensures hi in mem && mem[hi] == mem0[hi] && mem[start].size == 0
  {
    ChainLast(mem0, start, a, b.addr);
    LastFreeInside(a, start, lo, b.addr);
    mem, taken := TakeHeaders(mem0, prev, block, want);
    HeadersTaken(mem0, mem, start, a, b, c, want, lo, hi);
    AllocateChain(mem0, mem, start, a, b, c, want, lo, hi);
  }

  lemma InsertWalk(mem: Memory, start: nat, a: seq<Block>, next: nat, j: nat, lo: nat, hi: nat)
    requires Chain(mem, start, a, next) && Tiles(a, lo, hi) && j <= |a|
    ensures var i := NextFreeIndex(a, j);
            if i < |a| then
              && NextFree(a[j..], next) == a[i].addr < hi
              && a[i].addr in mem && mem[a[i].addr].next == NextFree(a[i + 1..], next)
              && LastFree(a[..i + 1], start) == a[i].addr
            else NextFree(a[j..], next) == next && LastFree(a, start) == LastFree(a[..j], start)
  {
    var i := NextFreeIndex(a, j);
    WalkTo(a, j, start, next);
    if i < |a| {
      ChainAt(mem, start, a, next, i);
      BlockBounds(a, lo, hi, i);
    } else {
      assert a[..i] == a;
    }
  }

  /** The loop of prvInsertBlockIntoFreeList: the last free header below the block. */
  method FindInsertionPoint(mem: Memory, start: nat, ghost a: seq<Block>, ghost next: nat, block: nat, ghost lo: nat)
    returns (it: nat)
    requires Chain(mem, start, a, next) && Tiles(a, lo, block) && block <= next
    ensures it == LastFree(a, start)
  {
    it := start;
    ghost var j := 0;
    assert a[0..] == a;
    InsertWalk(mem, start, a, next, 0, lo, block);
    while mem[it].next < block
      invariant j <= |a| && it in mem && it == LastFree(a[..j], start)
      invariant mem[it].next == NextFree(a[j..], next)
      decreases |a| - j
    {
      InsertWalk(mem, start, a, next, j, lo, block);
      it := mem[it].next;
      j := NextFreeIndex(a, j) + 1;
    }
    InsertWalk(mem, start, a, next, j, lo, block);
  }

  /** The header a block gets when it is linked in front of `right`, merged if they touch. */
  ghost function LinkedHeader(mem: Memory, size: nat, right: seq<Block>, hi: nat): Link
    requires Rep(mem, right, hi)
  {
    if right != [] && right[0].free
    then Link(mem[right[0].addr].next, size + right[0].size)
    else Link(NextFree(right, hi), size)
  }

  /** The second half of prvInsertBlockIntoFreeList: merge with the next free block if adjacent. */
  method LinkForward(mem0: Memory, block: nat, next: nat, ghost b: Block, ghost right: seq<Block>, pxEnd: nat)
    returns (mem: Memory)
    requires Rep(mem0, right, pxEnd) && Tiles(right, b.addr + b.size, pxEnd)
    requires block == b.addr && b.addr in mem0 && mem0[b.addr].size == b.size
    requires next == NextFree(right, pxEnd) && b.size > 0
    ensures mem == mem0[block := LinkedHeader(mem0, b.size, right, pxEnd)]
  {
    mem := mem0;
    NextFreeBounds(right, b.addr + b.size, pxEnd);
    TilesSpan(right, b.addr + b.size, pxEnd);
    if block + mem[block].size == next {
      if next != pxEnd {
        mem := mem[block := mem[block].(size := mem[block].size + mem[next].size)];
        mem := mem[block := mem[block].(next := mem[next].next)];
      } else {
        mem := mem[block := mem[block].(next := pxEnd)];
      }
    } else {
      mem := mem[block := mem[block].(next := next)];
    }
  }

  /** Block b has its header and lies between a and c, whose free blocks are linked past it. */
  ghost predicate Between(mem: Memory, start: nat, a: seq<Block>, b: Block, c: seq<Block>, lo: nat, hi: nat) {
    && Chain(mem, start, a, NextFree(c, hi)) && Rep(mem, c, hi)
    && b.addr in mem && mem[b.addr].size == b.size && b.size >= HEADER
    && Tiles(a, lo, b.addr) && Tiles(c, b.addr + b.size, hi) && lo <= b.addr && b.addr + b.size <= hi
    && !(lo <= start <= hi) && mem[start].size == 0 && hi in mem
  }

  lemma LeftMergeReady(mem: Memory, mem': Memory, start: nat, a: seq<Block>, b: Block, c: seq<Block>, lo: nat, hi: nat)
    requires Chain(mem, start, a, NextFree(c, hi)) && Rep(mem, c, hi) && Tiles(a, lo, b.addr)
    requires Tiles(c, b.addr + b.size, hi) && a != [] && a[|a| - 1].free
    requires a[|a| - 1].addr in mem && mem' == mem[a[|a| - 1].addr := Link(NextFree(c, hi), a[|a| - 1].size + b.size)]
    ensures var l := a[|a| - 1];
            && l.addr + l.size == b.addr && lo <= l.addr && l.size >= HEADER
            && Tiles(a[..|a| - 1], lo, l.addr)
            && Chain(mem, start, a[..|a| - 1], l.addr)
            && Rep(mem', c, hi)
  {
    var front, l := a[..|a| - 1], a[|a| - 1];
    BlockBounds(a, lo, b.addr, |a| - 1);
    assert a[|a| - 1 + 1..] == [];
    assert a == front + [l];
    ChainConcat(mem, start, front, [l], NextFree(c, hi));
    RepFrame(mem, mem', c, hi, b.addr + b.size, hi);
  }

  /** A free block right below b grows over it. */
  method InsertMerged(mem0: Memory, start: nat, ghost a: seq<Block>, ghost b: Block, ghost c: seq<Block>,
                      it: nat, blockToInsert: nat, ghost lo: nat, pxEnd: nat)
    returns (mem: Memory)
    requires Between(mem0, start, a, b, c, lo, pxEnd) && blockToInsert == b.addr
    requires a != [] && a[|a| - 1].free && it == a[|a| - 1].addr && it in mem0
    requires mem0[it] == Link(NextFree(c, pxEnd), a[|a| - 1].size)
    ensures Chain(mem, start, MergeBoth(a, b, c), pxEnd)
    ensures pxEnd in mem && mem[pxEnd] == mem0[pxEnd] && mem[start].size == 0
  {
    ghost var front, l := a[..|a| - 1], a[|a| - 1];
    mem := mem0[it := mem0[it].(size := mem0[it].size + mem0[blockToInsert].size)];
    LeftMergeReady(mem0, mem, start, a, b, c, lo, pxEnd);
    mem := LinkForward(mem, it, mem[it].next, Block(l.addr, l.size + b.size, true), c, pxEnd);
    FreeChainMerged(mem0, mem, start, front, l, b, c, lo, pxEnd);
  }

  /** Below b is nothing free: it is linked in behind the last free header. */
  method InsertAlone(mem0: Memory, start: nat, ghost a: seq<Block>, ghost b: Block, ghost c: seq<Block>,
                     it: nat, blockToInsert: nat, ghost lo: nat, pxEnd: nat)
    returns (mem: Memory)
    requires Between(mem0, start, a, b, c, lo, pxEnd) && blockToInsert == b.addr
    requires it == LastFree(a, start) && it in mem0 && mem0[it].next == NextFree(c, pxEnd)
    requires (it == start || lo <= it < b.addr) && !(a != [] && a[|a| - 1].free)
    ensures Chain(mem, start, MergeBoth(a, b, c), pxEnd)
    ensures pxEnd in mem && mem[pxEnd] == mem0[pxEnd] && mem[start].size == 0
  {
    mem := LinkForward(mem0, blockToInsert, mem0[it].next, b, c, pxEnd);
    mem := mem[it := mem[it].(next := blockToInsert)];
    FreeChainAlone(mem0, mem, start, a, b, c, lo, pxEnd);
  }

  /** prvInsertBlockIntoFreeList: link the block in, merging it with free neighbours. */
  method InsertBlock(mem0: Memory, start: nat, ghost a: seq<Block>, ghost b: Block, ghost c: seq<Block>,
                     blockToInsert: nat, ghost lo: nat, pxEnd: nat)
    returns (mem: Memory)
    requires Between(mem0, start, a, b, c, lo, pxEnd) && blockToInsert == b.addr
    ensures Chain(mem, start, MergeBoth(a, b, c), pxEnd)
    ensures pxEnd in mem && mem[pxEnd] == mem0[pxEnd] && mem[start].size == 0
  {
    NextFreeBounds(c, b.addr + b.size, pxEnd);
    var it := FindInsertionPoint(mem0, start, a, NextFree(c, pxEnd), blockToInsert, lo);
    ChainLast(mem0, start, a, NextFree(c, pxEnd));
    LastFreeInside(a, start, lo, b.addr);
    LastFreeTouches(mem0, start, a, NextFree(c, pxEnd), lo, b.addr);
    if it + mem0[it].size == blockToInsert {
      mem := InsertMerged(mem0, start, a, b, c, it, blockToInsert, lo, pxEnd);
    } else {
      mem := InsertAlone(mem0, start, a, b, c, it, blockToInsert, lo, pxEnd);
    }
  }

  /** Clearing the mark of an allocated block disturbs no link. */
  lemma AllocatedSkipped(mem: Memory, start: nat, a: seq<Block>, b: Block, c: seq<Block>, lo: nat, hi: nat)
    requires Chain(mem, start, a, NextFree([b] + c, hi)) && Rep(mem, c, hi) && !b.free
    requires Tiles(a, lo, b.addr) && Tiles(c, b.addr + b.size, hi) && b.size > 0
    requires b.addr in mem && start != b.addr
    ensures var mem' := mem[b.addr := Link(NULL, b.size)];
            Chain(mem', start, a, NextFree(c, hi)) && Rep(mem', c, hi)
  {
    var mem' := mem[b.addr := Link(NULL, b.size)];
    assert ([b] + c)[1..] == c;
    RepFrame(mem, mem', a, NextFree(c, hi), lo, b.addr);
    RepFrame(mem, mem', c, hi, b.addr + b.size, hi);
  }

  /** The header work of vPortFree on block k. */
  method ReleaseBlock(mem0: Memory, start: nat, ghost bs: seq<Block>, ghost k: nat, link: nat, ghost lo: nat,
                      pxEnd: nat)
    returns (ok: bool, size: nat, mem: Memory)
    requires Chain(mem0, start, bs, pxEnd) && Tiles(bs, lo, pxEnd) && pxEnd < ALLOCATED_BIT
    requires k < |bs| && link == bs[k].addr
    requires !(lo <= start <= pxEnd) && mem0[start].size == 0 && pxEnd in mem0
    ensures ok <==> !bs[k].free
    ensures !ok ==> mem == mem0
    ensures ok ==> size == bs[k].size && Chain(mem, start, FreeAt(bs, k), pxEnd)
    ensures pxEnd in mem && mem[pxEnd] == mem0[pxEnd] && start in mem && mem[start].size == 0
  {
    mem := mem0;
    ghost var a, b, c := bs[..k], bs[k], bs[k + 1..];
    BlockBounds(bs, lo, pxEnd, k);
    ChainAt(mem, start, bs, pxEnd, k);
    size := mem[link].size;
    ok := mem[link].size >= ALLOCATED_BIT && mem[link].next == NULL;
    if ok {
      AllocatedSkipped(mem, start, a, b, c, lo, pxEnd);
      size := size - ALLOCATED_BIT;
      mem := mem[link := mem[link].(size := size)];
      mem := InsertBlock(mem, start, a, b, c, link, lo, pxEnd);
    }
  }

  ghost function CountFree(bs: seq<Block>): nat {
    if bs == [] then 0 else (if bs[0].free then 1 else 0) + CountFree(bs[1..])
  }

  ghost function SmallestFree(bs: seq<Block>): (m: nat)
    ensures m <= SIZE_MAX
  {
    if bs == [] then SIZE_MAX
    else
      var rest := SmallestFree(bs[1..]);
      if bs[0].free && bs[0].size < rest then bs[0].size else rest
  }

  /** The smallest and the largest free block are free blocks and bound all others; where nothing is free
      they are the greatest number there is and zero. */
  lemma {:induction false} StatsMean(bs: seq<Block>)
    requires forall b :: b in bs ==> 0 < b.size <= SIZE_MAX
    ensures forall b :: b in bs && b.free ==> SmallestFree(bs) <= b.size <= LargestFree(bs)
    ensures CountFree(bs) > 0 <==> exists b :: b in bs && b.free
    ensures CountFree(bs) > 0 ==> exists b :: b in bs && b.free && b.size == SmallestFree(bs)
    ensures CountFree(bs) > 0 ==> exists b :: b in bs && b.free && b.size == LargestFree(bs)
    ensures CountFree(bs) == 0 ==> SmallestFree(bs) == 0xFFFF_FFFF && LargestFree(bs) == 0
  {
    if bs != [] {
      StatsMean(bs[1..]);
      assert bs == [bs[0]] + bs[1..];
      assert forall b :: b in bs <==> b == bs[0] || b in bs[1..];
    }
  }

  lemma {:induction false} SkipAllocated(bs: seq<Block>, i: nat)
    requires i <= |bs|
    ensures var j := NextFreeIndex(bs, i);
            && LargestFree(bs[i..]) == LargestFree(bs[j..])
            && SmallestFree(bs[i..]) == SmallestFree(bs[j..])
            && CountFree(bs[i..]) == CountFree(bs[j..])
    decreases |bs| - i
  {
    if i < |bs| && !bs[i].free {
      assert bs[i..][1..] == bs[i + 1..];
      SkipAllocated(bs, i + 1);
    }
  }

  /** The loop of vPortGetHeapStats. */
  method WalkStats(mem: Memory, start: nat, ghost bs: seq<Block>, ghost lo: nat, end: nat)
    returns (largest: nat, smallest: nat, count: nat)
    requires Chain(mem, start, bs, end) && Tiles(bs, lo, end) && 0 < lo && end in mem
    ensures largest == LargestFree(bs) && smallest == SmallestFree(bs) && count == CountFree(bs)
  {
    largest, smallest, count := 0, SIZE_MAX, 0;
    var block := mem[start].next;
    ghost var k := NextFreeIndex(bs, 0);
    WalkTo(bs, 0, start, end);
    assert bs[0..] == bs;
    SkipAllocated(bs, 0);
    while block != end
      invariant k <= |bs| && (k < |bs| ==> bs[k].free)
      invariant block == if k < |bs| then bs[k].addr else end
      invariant LargestFree(bs) == Max(largest, LargestFree(bs[k..]))
      invariant SmallestFree(bs) == Min(smallest, SmallestFree(bs[k..]))
      invariant CountFree(bs) == count + CountFree(bs[k..])
      invariant smallest <= SIZE_MAX
      decreases |bs| - k
    {
      FreeLinkNotNull(mem, start, bs, lo, end, k);
      WalkOn(mem, start, bs, end, k);
      SkipAllocated(bs, k + 1);
      assert bs[k..][1..] == bs[k + 1..];
      count := count + 1;
      if mem[block].size > largest { largest := mem[block].size; }
      if mem[block].size < smallest { smallest := mem[block].size; }
      block := mem[block].next;
      k := NextFreeIndex(bs, k + 1);
    }
    assert k == |bs| by {
      if k < |bs| { BlockBounds(bs, lo, end, k); }
    }
    assert bs[k..] == [];
  }

  function Max(x: nat, y: nat): nat { if x < y then y else x }

  function Min(x: nat, y: nat): nat { if x < y then x else y }

  // ---- the allocator itself

  datatype Outcome = Pointer(p: nat) | CrashOutOfMemory | CrashMallocZero

  datatype Stats = Stats(largest: nat, smallest: nat, freeBlocks: nat, available: nat, minimumEver: nat)

  class Allocator {
    const heapStart: nat   // ucHeap, from the linker
    const heapSize: nat    // configTOTAL_HEAP_SIZE
    const xStart: nat      // address of the static list head, outside the heap

    var mem: Memory
    var pxEnd: nat
    var xFreeBytesRemaining: nat
    var xMinimumEverFreeBytesRemaining: nat
    ghost var blocks: seq<Block>

    /** The first aligned address of the heap space. */
    function Lo(): (lo: nat)
      ensures lo % 8 == 0 && heapStart <= lo < heapStart + 8
    {
      if heapStart % ALIGNMENT != 0 then (heapStart + (ALIGNMENT - 1)) / ALIGNMENT * ALIGNMENT else heapStart
    }

    /** The last aligned address that leaves room for the end marker. */
    function Hi(): (hi: int)
      ensures hi % 8 == 0 && heapStart + heapSize - 16 < hi <= heapStart + heapSize - 8
    {
      (heapStart + heapSize - HEADER) / ALIGNMENT * ALIGNMENT
    }

    /** What the linker script guarantees. */
    predicate Linked() {
      && heapSize >= HEADER
      && (heapStart + heapSize - HEADER) / ALIGNMENT * ALIGNMENT >= 0
      && Geometry(Lo(), Hi())
      && xStart != NULL && !(Lo() <= xStart <= Hi())
    }

    ghost function State(): HeapState
      reads this
    {
      HeapState(blocks, xFreeBytesRemaining, xMinimumEverFreeBytesRemaining)
    }

    ghost predicate Valid()
      reads this
    {
      && Linked()
      && xStart in mem && mem[xStart].size == 0
      && (pxEnd == NULL ==> mem[xStart].next == NULL)
      && (pxEnd != NULL ==>
            && pxEnd == Hi()
            && Hi() in mem && mem[Hi()] == Link(NULL, 0)
            && Chain(mem, xStart, blocks, Hi())
            && Inv(State(), Lo(), Hi()))
    }

    /** The state as it is, or as prvHeapInit makes it on the first allocation. */
    ghost function Started(): HeapState
      requires Valid()
      reads this
    {
      if pxEnd == NULL then InitState(Lo(), Hi()) else State()
    }

    constructor (heapStart: nat, heapSize: nat, xStart: nat)
      requires heapSize >= HEADER
      requires var lo := if heapStart % ALIGNMENT != 0 then (heapStart + (ALIGNMENT - 1)) / ALIGNMENT * ALIGNMENT
          else heapStart;
               var hi := (heapStart + heapSize - HEADER) / ALIGNMENT * ALIGNMENT;
               hi >= 0 && Geometry(lo, hi) && xStart != NULL && !(lo <= xStart <= hi)
      ensures Valid() && pxEnd == NULL
      ensures this.heapStart == heapStart && this.heapSize == heapSize && this.xStart == xStart
    {
      this.heapStart, this.heapSize, this.xStart := heapStart, heapSize, xStart;
      mem := map[xStart := Link(NULL, 0)];
      pxEnd, xFreeBytesRemaining, xMinimumEverFreeBytesRemaining := NULL, 0, 0;
      blocks := [];
    }

    /** prvHeapInit: one free block over the whole heap. */
    method HeapInit()
      requires Valid() && pxEnd == NULL
      modifies this
      ensures Valid() && pxEnd != NULL
      ensures State() == InitState(Lo(), Hi())
    {
      var total := heapSize;
      var startAddress := heapStart;
      if startAddress % ALIGNMENT != 0 {
        startAddress := startAddress + (ALIGNMENT - 1);
        startAddress := startAddress - startAddress % ALIGNMENT;
        total := total - (startAddress - heapStart);
      }
      var endAddress := startAddress + total;
      endAddress := endAddress - HEADER;
      endAddress := endAddress - endAddress % ALIGNMENT;
      assert startAddress == Lo() && endAddress == Hi();
      mem := mem[xStart := Link(startAddress, 0)];
      pxEnd := endAddress;
      mem := mem[pxEnd := Link(NULL, 0)];
      mem := mem[startAddress := Link(pxEnd, endAddress - startAddress)];
      xMinimumEverFreeBytesRemaining := mem[startAddress].size;
      xFreeBytesRemaining := mem[startAddress].size;
      blocks := InitState(Lo(), Hi()).blocks;
      InitKeeps(Lo(), Hi());
      assert blocks[1..] == [];
    }

    method Take(want: nat, prev: nat, block: nat, ghost k: nat)
      requires Valid() && pxEnd != NULL && want >= HEADER && want % ALIGNMENT == 0
      requires k < |blocks| && blocks[k].free && blocks[k].size >= want
      requires block == blocks[k].addr && prev == LastFree(blocks[..k], xStart)
      modifies this
      ensures Valid() && pxEnd == old(pxEnd)
      ensures State() == TakeStep(old(State()), k, want)
    {
      ghost var a, b, c := blocks[..k], blocks[k], blocks[k + 1..];
      BlockBounds(blocks, Lo(), Hi(), k);
      ChainAt(mem, xStart, blocks, Hi(), k);
      TakeKeeps(State(), k, want, Lo(), Hi());
      AllocateKeeps(blocks, k, want, Lo(), Hi());
      var taken;
      mem, taken := TakeBlock(mem, xStart, a, b, c, want, prev, block, Lo(), Hi());
      xFreeBytesRemaining := xFreeBytesRemaining - taken;
      if xFreeBytesRemaining < xMinimumEverFreeBytesRemaining {
        xMinimumEverFreeBytesRemaining := xFreeBytesRemaining;
      }
      blocks := AllocateAt(blocks, k, want);
    }

    /** pvPortMalloc.  The crash outcomes are the two messages of its final furi_check. */
    method Malloc(n: nat) returns (r: Outcome)
      requires Valid() && n <= SIZE_MAX
      modifies this
      ensures Valid() && pxEnd != NULL
      ensures State() == MallocStep(old(Started()), n)
      ensures r == if MallocFits(old(Started()), n) then Pointer(MallocPointer(old(Started()), n))
                   else if WantedSize(n) == 0 then CrashMallocZero else CrashOutOfMemory
    {
      var want := WantedSize(n);
      if pxEnd == NULL {
        HeapInit();
      }
      ghost var s0 := State();
      assert s0 == old(Started());
      r := if want == 0 then CrashMallocZero else CrashOutOfMemory;
      if want < ALLOCATED_BIT && 0 < want <= xFreeBytesRemaining {
        var block := AllocateFirst(want);
        if block != pxEnd {
          r := Pointer(block + HEADER);
        }
      }
      assert s0 == old(Started());
    }

    /** The first block that fits is taken; without one the end marker is returned. */
    method AllocateFirst(want: nat) returns (block: nat)
      requires Valid() && pxEnd != NULL && want >= HEADER && want % ALIGNMENT == 0
      modifies this
      ensures Valid() && pxEnd == old(pxEnd)
      ensures var k := FirstFit(old(blocks), want);
              if k == |old(blocks)| then block == pxEnd && State() == old(State())
              else block == old(blocks)[k].addr && block != pxEnd && State() == TakeStep(old(State()), k, want)
    {
      ghost var k := FirstFit(blocks, want);
      var prev;
      prev, block := FindFit(mem, xStart, blocks, Lo(), pxEnd, want);
      if k < |blocks| { BlockBounds(blocks, Lo(), Hi(), k); }
      if block != pxEnd {
        Take(want, prev, block, k);
      }
    }

    /** vPortFree of NULL or of a pointer just past a block header; false when its assertion that
        the block is allocated stops the program. */
    method Free(p: nat) returns (ok: bool)
      requires Valid()
      requires p != NULL ==> pxEnd != NULL && BlockIndex(blocks, p - HEADER) < |blocks|
      modifies this
      ensures Valid() && pxEnd == old(pxEnd)
      ensures State() == FreeStep(old(State()), p)
      ensures ok <==> p == NULL || !old(blocks)[BlockIndex(old(blocks), p - HEADER)].free
    {
      ok := true;
      if p != NULL {
        ghost var k := BlockIndex(blocks, p - HEADER);
        var size;
        ok, size, mem := ReleaseBlock(mem, xStart, blocks, k, p - HEADER, Lo(), pxEnd);
        if ok {
          FreeKeeps(blocks, k, Lo(), Hi());
          xFreeBytesRemaining := xFreeBytesRemaining + size;
          blocks := FreeAt(blocks, k);
        }
      }
    }

    /** xPortResetHeapMinimumEverFreeHeapSize. */
    method ResetMinimum()
      requires Valid()
      modifies this
      ensures Valid() && pxEnd == old(pxEnd)
      ensures State() == Step(old(State()), HeapBlocks.ResetMinimum)
    {
      xMinimumEverFreeBytesRemaining := xFreeBytesRemaining;
    }

    /** vPortGetHeapStats: what the list walk sees of the blocks. */
    method GetHeapStats() returns (s: Stats)
      requires Valid()
      ensures pxEnd != NULL ==>
              s == Stats(LargestFree(blocks), SmallestFree(blocks), CountFree(blocks),
                         xFreeBytesRemaining, xMinimumEverFreeBytesRemaining)
      ensures pxEnd == NULL ==>
              s == Stats(0, SIZE_MAX, 0, xFreeBytesRemaining, xMinimumEverFreeBytesRemaining)
    {
      var largest, smallest, count := 0, SIZE_MAX, 0;
      if pxEnd != NULL {
        NextFreeBounds(blocks, Lo(), Hi());
      }
      if mem[xStart].next != NULL {
        largest, smallest, count := WalkStats(mem, xStart, blocks, Lo(), pxEnd);
      }
      s := Stats(largest, smallest, count, xFreeBytesRemaining, xMinimumEverFreeBytesRemaining);
    }
  }
}
