/**
 The heap of furi/core/memmgr_heap.c seen as a sequence of blocks in address order.

 The allocator keeps a header in front of every block and links the free ones.  This module
 says what those headers mean: the blocks tile the heap, and allocating and freeing are
 functions on the tiling.  Module Heap proves that the header-rewriting code computes them.
 */
module HeapBlocks {
  const ALIGNMENT: nat := 8
  const HEADER: nat := 8
  const MINIMUM_BLOCK: nat := 16
  const SIZE_MAX: nat := 0xFFFF_FFFF
  const ALLOCATED_BIT: nat := 0x8000_0000

  datatype Block = Block(addr: nat, size: nat, free: bool)

  /** The blocks cover [lo, hi) exactly, in order, each a positive multiple of the alignment. */
  ghost predicate Tiles(bs: seq<Block>, lo: nat, hi: nat) {
    if bs == [] then lo == hi
    else
      && bs[0].addr == lo
      && bs[0].size >= HEADER
      && bs[0].size % ALIGNMENT == 0
      && Tiles(bs[1..], lo + bs[0].size, hi)
  }

  /** No two neighbouring blocks are both free. */
  ghost predicate Coalesced(bs: seq<Block>) {
    |bs| >= 2 ==> !(bs[0].free && bs[1].free) && Coalesced(bs[1..])
  }

  ghost function Span(bs: seq<Block>): nat {
    if bs == [] then 0 else bs[0].size + Span(bs[1..])
  }

  ghost function FreeBytes(bs: seq<Block>): nat {
    if bs == [] then 0 else (if bs[0].free then bs[0].size else 0) + FreeBytes(bs[1..])
  }

  ghost function LargestFree(bs: seq<Block>): nat {
    if bs == [] then 0
    else
      var rest := LargestFree(bs[1..]);
      if bs[0].free && bs[0].size > rest then bs[0].size else rest
  }

  ghost function Live(bs: seq<Block>): set<Block> {
    if bs == [] then {} else (if bs[0].free then {} else {bs[0]}) + Live(bs[1..])
  }

  /** The request grown by the header and rounded up to the alignment; 0 stands for a request
      of nothing or one whose rounding does not fit in 32 bits. */
  function WantedSize(n: nat): (w: nat)
    ensures w > 0 ==> w % ALIGNMENT == 0 && n + HEADER <= w < n + HEADER + ALIGNMENT && w <= SIZE_MAX
    ensures w == 0 <==> n == 0 || n + HEADER > 0xFFFF_FFF8
  {
    if n == 0 then 0
    else if n > SIZE_MAX - HEADER then 0
    else
      var w := n + HEADER;
      if w % ALIGNMENT == 0 then w
      else
        var extra := ALIGNMENT - w % ALIGNMENT;
        if w > SIZE_MAX - extra then 0 else w + extra
  }

  /** Index of the lowest-addressed free block of at least `want` bytes, or |bs|. */
  ghost function FirstFit(bs: seq<Block>, want: nat): (k: nat)
    ensures k <= |bs|
    ensures k < |bs| ==> bs[k].free && bs[k].size >= want
    ensures forall i :: 0 <= i < k ==> !(bs[i].free && bs[i].size >= want)
  {
    if bs == [] || (bs[0].free && bs[0].size >= want) then 0
    else
      var rest := FirstFit(bs[1..], want);
      assert forall i :: 1 <= i < |bs| ==> bs[i] == bs[1..][i - 1];
      1 + rest
  }

  ghost function AllocatePieces(b: Block, want: nat): seq<Block>
    requires b.size >= want
  {
    if b.size - want > MINIMUM_BLOCK
    then [Block(b.addr, want, false), Block(b.addr + want, b.size - want, true)]
    else [b.(free := false)]
  }

  ghost function AllocateAt(bs: seq<Block>, k: nat, want: nat): seq<Block>
    requires k < |bs| && bs[k].size >= want
  {
    bs[..k] + (AllocatePieces(bs[k], want) + bs[k + 1..])
  }

  ghost function MergeRight(b: Block, right: seq<Block>): seq<Block> {
    if right != [] && right[0].free
    then [Block(b.addr, b.size + right[0].size, true)] + right[1..]
    else [b.(free := true)] + right
  }

  ghost function MergeBoth(left: seq<Block>, b: Block, right: seq<Block>): seq<Block> {
    if left != [] && left[|left| - 1].free
    then
      var l := left[|left| - 1];
      left[..|left| - 1] + MergeRight(Block(l.addr, l.size + b.size, true), right)
    else left + MergeRight(b, right)
  }

  ghost function FreeAt(bs: seq<Block>, k: nat): seq<Block>
    requires k < |bs|
  {
    MergeBoth(bs[..k], bs[k], bs[k + 1..])
  }

  // ---- how the definitions distribute over concatenation

  lemma {:induction false} TilesConcat(a: seq<Block>, b: seq<Block>, lo: nat, hi: nat)
    ensures Tiles(a + b, lo, hi) <==> Tiles(a, lo, lo + Span(a)) && Tiles(b, lo + Span(a), hi)
  {
    if a == [] {
      assert a + b == b;
    } else {
      assert (a + b)[1..] == a[1..] + b;
      TilesConcat(a[1..], b, lo + a[0].size, hi);
    }
  }

  lemma {:induction false} TilesSpan(bs: seq<Block>, lo: nat, hi: nat)
    requires Tiles(bs, lo, hi)
    ensures hi == lo + Span(bs)
  {
    if bs != [] {
      TilesSpan(bs[1..], lo + bs[0].size, hi);
    }
  }

  lemma {:induction false} FreeBytesConcat(a: seq<Block>, b: seq<Block>)
    ensures FreeBytes(a + b) == FreeBytes(a) + FreeBytes(b)
  {
    if a == [] {
      assert a + b == b;
    } else {
      assert (a + b)[1..] == a[1..] + b;
      FreeBytesConcat(a[1..], b);
    }
  }

  lemma {:induction false} CoalescedConcat(a: seq<Block>, b: seq<Block>)
    ensures Coalesced(a + b) <==>
            && Coalesced(a) && Coalesced(b)
            && (a != [] && b != [] ==> !(a[|a| - 1].free && b[0].free))
  {
    if a == [] {
      assert a + b == b;
    } else {
      assert (a + b)[1..] == a[1..] + b;
      CoalescedConcat(a[1..], b);
    }
  }

  /** Every block of a tiling lies inside it, and the blocks to the left end before it starts. */
  lemma {:induction false} BlockBounds(bs: seq<Block>, lo: nat, hi: nat, k: nat)
    requires Tiles(bs, lo, hi) && k < |bs|
    ensures Tiles(bs[..k], lo, bs[k].addr) && Tiles(bs[k + 1..], bs[k].addr + bs[k].size, hi)
    ensures bs[k].size >= HEADER && bs[k].size % ALIGNMENT == 0
    ensures lo <= bs[k].addr && bs[k].addr + bs[k].size <= hi
    ensures lo % ALIGNMENT == 0 ==> bs[k].addr % ALIGNMENT == 0
  {
    if k == 0 {
      TilesSpan(bs[1..], lo + bs[0].size, hi);
    } else {
      BlockBounds(bs[1..], lo + bs[0].size, hi, k - 1);
      assert bs[1..][..k - 1] == bs[..k][1..];
      assert bs[1..][k..] == bs[k + 1..];
    }
  }

  /** Two different blocks of a tiling do not overlap. */
  lemma BlocksDisjoint(bs: seq<Block>, lo: nat, hi: nat, i: nat, j: nat)
    requires Tiles(bs, lo, hi) && i < j < |bs|
    ensures bs[i].addr + bs[i].size <= bs[j].addr
  {
    BlockBounds(bs, lo, hi, i);
    assert bs[i + 1..][j - i - 1] == bs[j];
    BlockBounds(bs[i + 1..], bs[i].addr + bs[i].size, hi, j - i - 1);
  }

  lemma {:induction false} LargestFreeBounds(bs: seq<Block>)
    ensures forall b :: b in bs && b.free ==> b.size <= LargestFree(bs)
    ensures LargestFree(bs) > 0 ==> exists b :: b in bs && b.free && b.size == LargestFree(bs)
    ensures LargestFree(bs) <= FreeBytes(bs) <= Span(bs)
  {
    if bs != [] {
      LargestFreeBounds(bs[1..]);
      assert bs == [bs[0]] + bs[1..];
      if LargestFree(bs) > 0 && LargestFree(bs) != bs[0].size {
        var b :| b in bs[1..] && b.free && b.size == LargestFree(bs);
        assert b in bs;
      }
      if LargestFree(bs) > 0 && LargestFree(bs) == bs[0].size && !bs[0].free {
        var b :| b in bs[1..] && b.free && b.size == LargestFree(bs);
        assert b in bs;
      }
    }
  }

  // ---- one allocation and one release, on the blocks

  lemma SplitAt(bs: seq<Block>, k: nat)
    requires k < |bs|
    ensures bs == bs[..k] + [bs[k]] + bs[k + 1..]
    ensures bs == bs[..k] + ([bs[k]] + bs[k + 1..])
  {
  }

  lemma {:induction false} LiveConcat(a: seq<Block>, b: seq<Block>)
    ensures Live(a + b) == Live(a) + Live(b)
  {
    if a == [] {
      assert a + b == b;
    } else {
      assert (a + b)[1..] == a[1..] + b;
      LiveConcat(a[1..], b);
    }
  }

  lemma {:induction false} LiveMembers(bs: seq<Block>)
    ensures forall b :: b in Live(bs) <==> b in bs && !b.free
  {
    if bs != [] {
      LiveMembers(bs[1..]);
      assert bs == [bs[0]] + bs[1..];
    }
  }

  lemma JoinShape(front: seq<Block>, back: seq<Block>, lo: nat, mid: nat, hi: nat)
    requires Tiles(front, lo, mid) && Coalesced(front)
    requires Tiles(back, mid, hi) && Coalesced(back)
    requires front != [] && back != [] ==> !front[|front| - 1].free || !back[0].free
    ensures Tiles(front + back, lo, hi) && Coalesced(front + back)
  {
    TilesSpan(front, lo, mid);
    TilesConcat(front, back, lo, hi);
    CoalescedConcat(front, back);
  }

  lemma JoinContents(front: seq<Block>, back: seq<Block>)
    ensures FreeBytes(front + back) == FreeBytes(front) + FreeBytes(back)
    ensures Live(front + back) == Live(front) + Live(back)
  {
    FreeBytesConcat(front, back);
    LiveConcat(front, back);
  }

  lemma PiecesKeep(b: Block, want: nat)
    requires b.free && b.size >= want >= HEADER && want % ALIGNMENT == 0 && b.size % ALIGNMENT == 0
    ensures var mid := AllocatePieces(b, want);
            && Tiles(mid, b.addr, b.addr + b.size)
            && Coalesced(mid)
            && FreeBytes(mid) == b.size - mid[0].size
            && Live(mid) == {mid[0]}
  {
    var mid := AllocatePieces(b, want);
    if |mid| == 2 {
      assert mid[1..] == [mid[1]] && mid[1..][1..] == [];
      assert Tiles(mid[1..], b.addr + want, b.addr + b.size);
      assert FreeBytes(mid[1..]) == mid[1].size;
      assert Live(mid[1..]) == {};
    } else {
      assert mid[1..] == [];
    }
  }

  /** Cutting a free block keeps the tiling, coalescing and accounting. */
  lemma AllocateKeeps(bs: seq<Block>, k: nat, want: nat, lo: nat, hi: nat)
    requires Tiles(bs, lo, hi) && Coalesced(bs)
    requires k < |bs| && bs[k].free && bs[k].size >= want >= HEADER && want % ALIGNMENT == 0
    ensures Tiles(AllocateAt(bs, k, want), lo, hi)
    ensures Coalesced(AllocateAt(bs, k, want))
    ensures FreeBytes(AllocateAt(bs, k, want)) == FreeBytes(bs) - AllocatePieces(bs[k], want)[0].size
    ensures Live(AllocateAt(bs, k, want)) == Live(bs) + {AllocatePieces(bs[k], want)[0]}
  {
    var a, b, c := bs[..k], bs[k], bs[k + 1..];
    var mid := AllocatePieces(b, want);
    BlockBounds(bs, lo, hi, k);
    PartsOf(bs, k);
    PiecesKeep(b, want);
    PiecesInPlace(a, mid, c, lo, b.addr, b.addr + b.size, hi);
    JoinContents(mid, c);
    JoinContents(a, mid + c);
  }

  lemma PiecesInPlace(a: seq<Block>, mid: seq<Block>, c: seq<Block>, lo: nat, from: nat, to: nat, hi: nat)
    requires Tiles(a, lo, from) && Tiles(mid, from, to) && Tiles(c, to, hi)
    requires Coalesced(a) && Coalesced(mid) && Coalesced(c) && mid != []
    requires (a != [] ==> !a[|a| - 1].free || !mid[0].free) && (c != [] ==> !mid[|mid| - 1].free || !c[0].free)
    ensures Tiles(a + (mid + c), lo, hi) && Coalesced(a + (mid + c))
  {
    JoinShape(mid, c, from, to, hi);
    JoinShape(a, mid + c, lo, from, hi);
  }

  lemma PartsOf(bs: seq<Block>, k: nat)
    requires Coalesced(bs) && k < |bs|
    ensures Coalesced(bs[..k]) && Coalesced(bs[k + 1..])
    ensures k > 0 ==> !(bs[k - 1].free && bs[k].free)
    ensures k + 1 < |bs| ==> !(bs[k].free && bs[k + 1].free)
    ensures FreeBytes(bs) == FreeBytes(bs[..k]) + (if bs[k].free then bs[k].size else 0) + FreeBytes(bs[k + 1..])
    ensures Live(bs) == Live(bs[..k]) + Live([bs[k]]) + Live(bs[k + 1..])
  {
    var a, b, c := bs[..k], bs[k], bs[k + 1..];
    SplitAt(bs, k);
    CoalescedConcat(a, [b] + c);
    CoalescedConcat([b], c);
    FreeBytesConcat(a, [b] + c);
    FreeBytesConcat([b], c);
    LiveConcat(a, [b] + c);
    LiveConcat([b], c);
  }

  lemma MergeRightShape(b: Block, right: seq<Block>, lo: nat, hi: nat)
    requires b.addr == lo && b.size >= HEADER && b.size % ALIGNMENT == 0
    requires Tiles(right, lo + b.size, hi) && Coalesced(right)
    ensures Tiles(MergeRight(b, right), lo, hi) && Coalesced(MergeRight(b, right))
    ensures MergeRight(b, right)[0].free
  {
    var m := MergeRight(b, right);
    if right != [] && right[0].free {
      assert m[1..] == right[1..];
      assert right == [right[0]] + right[1..];
    } else {
      assert m[1..] == right;
    }
  }

  lemma MergeBothKeeps(left: seq<Block>, b: Block, right: seq<Block>, lo: nat, hi: nat)
    requires Tiles(left, lo, b.addr) && Coalesced(left)
    requires b.size >= HEADER && b.size % ALIGNMENT == 0
    requires Tiles(right, b.addr + b.size, hi) && Coalesced(right)
    ensures Tiles(MergeBoth(left, b, right), lo, hi)
    ensures Coalesced(MergeBoth(left, b, right))
    ensures FreeBytes(MergeBoth(left, b, right)) == FreeBytes(left) + b.size + FreeBytes(right)
    ensures Live(MergeBoth(left, b, right)) == Live(left) + Live(right)
  {
    if left != [] && left[|left| - 1].free {
      MergeLeftKeeps(left, b, right, lo, hi);
    } else {
      MergeAloneShape(left, b, right, lo, hi);
      MergeAloneContents(left, b, right);
    }
  }

  lemma MergeLeftKeeps(left: seq<Block>, b: Block, right: seq<Block>, lo: nat, hi: nat)
    requires Tiles(left, lo, b.addr) && Coalesced(left) && left != [] && left[|left| - 1].free
    requires b.size >= HEADER && b.size % ALIGNMENT == 0
    requires Tiles(right, b.addr + b.size, hi) && Coalesced(right)
    ensures var m := MergeBoth(left, b, right);
            && Tiles(m, lo, hi) && Coalesced(m)
            && FreeBytes(m) == FreeBytes(left) + b.size + FreeBytes(right) && Live(m) == Live(left) + Live(right)
  {
    MergeLeftShape(left[..|left| - 1], left[|left| - 1], left, b, right, lo, hi);
    MergeLeftContents(left[..|left| - 1], left[|left| - 1], left, b, right);
  }

  lemma MergeRightContents(b: Block, right: seq<Block>)
    ensures FreeBytes(MergeRight(b, right)) == b.size + FreeBytes(right)
    ensures Live(MergeRight(b, right)) == Live(right)
  {
    var m := MergeRight(b, right);
    if right != [] && right[0].free {
      assert m[1..] == right[1..];
    } else {
      assert m[1..] == right;
    }
  }

  lemma MergeLeftContents(front: seq<Block>, l: Block, left: seq<Block>, b: Block, right: seq<Block>)
    requires left == front + [l] && l.free
    ensures var merged := front + MergeRight(Block(l.addr, l.size + b.size, true), right);
            && FreeBytes(merged) == FreeBytes(left) + b.size + FreeBytes(right)
            && Live(merged) == Live(left) + Live(right)
  {
    var big := Block(l.addr, l.size + b.size, true);
    MergeRightContents(big, right);
    OneFree(l);
    JoinContents(front, [l]);
    JoinContents(front, MergeRight(big, right));
  }

  lemma OneFree(l: Block)
    requires l.free
    ensures FreeBytes([l]) == l.size && Live([l]) == {}
  {
    assert [l][1..] == [];
  }

  lemma MergeAloneContents(left: seq<Block>, b: Block, right: seq<Block>)
    ensures FreeBytes(left + MergeRight(b, right)) == FreeBytes(left) + b.size + FreeBytes(right)
    ensures Live(left + MergeRight(b, right)) == Live(left) + Live(right)
  {
    MergeRightContents(b, right);
    JoinContents(left, MergeRight(b, right));
  }

  lemma MergeAloneShape(left: seq<Block>, b: Block, right: seq<Block>, lo: nat, hi: nat)
    requires Tiles(left, lo, b.addr) && Coalesced(left) && !(left != [] && left[|left| - 1].free)
    requires b.size >= HEADER && b.size % ALIGNMENT == 0
    requires Tiles(right, b.addr + b.size, hi) && Coalesced(right)
    ensures Tiles(left + MergeRight(b, right), lo, hi) && Coalesced(left + MergeRight(b, right))
  {
    MergeRightShape(b, right, b.addr, hi);
    JoinShape(left, MergeRight(b, right), lo, b.addr, hi);
  }

  lemma PeelLast(front: seq<Block>, l: Block, lo: nat, hi: nat)
    requires Tiles(front + [l], lo, hi) && Coalesced(front + [l])
    ensures Tiles(front, lo, l.addr) && l.addr + l.size == hi && l.size >= HEADER && l.size % ALIGNMENT == 0
    ensures Coalesced(front) && (front != [] ==> !(front[|front| - 1].free && l.free))
  {
    TilesConcat(front, [l], lo, hi);
    TilesSpan([l], lo + Span(front), hi);
    CoalescedConcat(front, [l]);
  }

  lemma MergeLeftShape(front: seq<Block>, l: Block, left: seq<Block>, b: Block, right: seq<Block>, lo: nat, hi: nat)
    requires left == front + [l] && l.free
    requires Tiles(left, lo, b.addr) && Coalesced(left)
    requires b.size >= HEADER && b.size % ALIGNMENT == 0
    requires Tiles(right, b.addr + b.size, hi) && Coalesced(right)
    ensures var merged := front + MergeRight(Block(l.addr, l.size + b.size, true), right);
            Tiles(merged, lo, hi) && Coalesced(merged)
  {
    PeelLast(front, l, lo, b.addr);
    var big := Block(l.addr, l.size + b.size, true);
    MergeRightShape(big, right, l.addr, hi);
    JoinShape(front, MergeRight(big, right), lo, l.addr, hi);
  }

  /** Releasing an allocated block merges it both ways and keeps tiling, coalescing and
      accounting; the other live blocks stay as they were. */
  lemma FreeKeeps(bs: seq<Block>, k: nat, lo: nat, hi: nat)
    requires Tiles(bs, lo, hi) && Coalesced(bs)
    requires k < |bs| && !bs[k].free
    ensures Tiles(FreeAt(bs, k), lo, hi)
    ensures Coalesced(FreeAt(bs, k))
    ensures FreeBytes(FreeAt(bs, k)) == FreeBytes(bs) + bs[k].size
    ensures Live(FreeAt(bs, k)) == Live(bs) - {bs[k]}
  {
    var a, b, c := bs[..k], bs[k], bs[k + 1..];
    BlockBounds(bs, lo, hi, k);
    PartsOf(bs, k);
    LiveMembers(a);
    LiveMembers(c);
    assert b !in a && b !in c by {
      BlockOnce(bs, lo, hi, k);
    }
    MergeBothKeeps(a, b, c, lo, hi);
  }

  lemma BlockOnce(bs: seq<Block>, lo: nat, hi: nat, k: nat)
    requires Tiles(bs, lo, hi) && k < |bs|
    ensures forall i :: 0 <= i < |bs| && i != k ==> bs[i].addr != bs[k].addr
  {
    forall i | 0 <= i < |bs| && i != k ensures bs[i].addr != bs[k].addr {
      BlockBounds(bs, lo, hi, i);
      BlockBounds(bs, lo, hi, k);
      if i < k { BlocksDisjoint(bs, lo, hi, i, k); } else { BlocksDisjoint(bs, lo, hi, k, i); }
    }
  }

  /** Freeing the block just allocated restores the exact previous blocks, split or not. */
  lemma FreeUndoesAllocate(bs: seq<Block>, k: nat, want: nat)
    requires Coalesced(bs)
    requires k < |bs| && bs[k].free && bs[k].size >= want
    ensures FreeAt(AllocateAt(bs, k, want), k) == bs
  {
    var a, b, c := bs[..k], bs[k], bs[k + 1..];
    SplitAt(bs, k);
    PartsOf(bs, k);
    MergePiecesBack(b, want, c);
    FreePiecesBack(a, b, want, c);
  }

  lemma FreePiecesBack(a: seq<Block>, b: Block, want: nat, c: seq<Block>)
    requires b.free && b.size >= want
    requires a != [] ==> !a[|a| - 1].free
    requires MergeRight(AllocatePieces(b, want)[0], AllocatePieces(b, want)[1..] + c) == [b] + c
    ensures FreeAt(a + (AllocatePieces(b, want) + c), |a|) == a + ([b] + c)
  {
    var mid := AllocatePieces(b, want);
    assert mid + c == [mid[0]] + (mid[1..] + c);
    SplitParts(a, mid[0], mid[1..] + c);
  }

  lemma SplitParts(a: seq<Block>, b: Block, c: seq<Block>)
    ensures var bs := a + ([b] + c); bs[..|a|] == a && bs[|a|] == b && bs[|a| + 1..] == c
  {
  }

  lemma MergePiecesBack(b: Block, want: nat, right: seq<Block>)
    requires b.free && b.size >= want
    requires right != [] ==> !right[0].free
    ensures MergeRight(AllocatePieces(b, want)[0], AllocatePieces(b, want)[1..] + right) == [b] + right
  {
    var mid := AllocatePieces(b, want);
    if |mid| == 2 {
      assert (mid[1..] + right)[1..] == right;
    } else {
      assert mid[1..] + right == right;
    }
  }

  // ---- runs of the allocator

  /** What the statics of the allocator mean once prvHeapInit has run. */
  datatype HeapState = HeapState(blocks: seq<Block>, freeBytes: int, minEver: int)

  ghost predicate Inv(s: HeapState, lo: nat, hi: nat) {
    && Tiles(s.blocks, lo, hi)
    && Coalesced(s.blocks)
    && s.freeBytes == FreeBytes(s.blocks)
    && s.minEver <= s.freeBytes
  }

  /** A heap the linker may hand over: aligned bounds, nonempty, sizes below the top bit. */
  predicate Geometry(lo: nat, hi: nat) {
    && 0 < lo && lo + HEADER <= hi && hi < ALLOCATED_BIT
    && lo % ALIGNMENT == 0 && hi % ALIGNMENT == 0
  }

  function InitState(lo: nat, hi: nat): HeapState
    requires lo <= hi
  {
    HeapState([Block(lo, hi - lo, true)], hi - lo, hi - lo)
  }

  datatype Op = Malloc(n: nat) | Free(p: nat) | ResetMinimum

  ghost predicate MallocFits(s: HeapState, n: nat) {
    var w := WantedSize(n);
    0 < w < ALLOCATED_BIT && w <= s.freeBytes && FirstFit(s.blocks, w) < |s.blocks|
  }

  /** The pointer a request returns, 0 when there is none. */
  ghost function MallocPointer(s: HeapState, n: nat): nat {
    if MallocFits(s, n) then s.blocks[FirstFit(s.blocks, WantedSize(n))].addr + HEADER else 0
  }

  ghost function MallocStep(s: HeapState, n: nat): HeapState {
    if !MallocFits(s, n) then s
    else
      var w := WantedSize(n);
      TakeStep(s, FirstFit(s.blocks, w), w)
  }

  /** Block k is taken for a request of w bytes. */
  ghost function TakeStep(s: HeapState, k: nat, w: nat): HeapState
    requires k < |s.blocks| && s.blocks[k].size >= w
  {
    var left := s.freeBytes - AllocatePieces(s.blocks[k], w)[0].size;
    HeapState(AllocateAt(s.blocks, k, w), left, if left < s.minEver then left else s.minEver)
  }

  ghost function BlockIndex(bs: seq<Block>, addr: int): (k: nat)
    ensures k <= |bs|
    ensures k < |bs| ==> bs[k].addr == addr
    ensures forall i :: 0 <= i < k ==> bs[i].addr != addr
  {
    if bs == [] || bs[0].addr == addr then 0
    else
      var rest := BlockIndex(bs[1..], addr);
      assert forall i :: 1 <= i < |bs| ==> bs[i] == bs[1..][i - 1];
      1 + rest
  }

  /** Releasing p; NULL and pointers that are not live change nothing. */
  ghost function FreeStep(s: HeapState, p: nat): HeapState {
    var k := BlockIndex(s.blocks, p - HEADER);
    if p != 0 && k < |s.blocks| && !s.blocks[k].free
    then HeapState(FreeAt(s.blocks, k), s.freeBytes + s.blocks[k].size, s.minEver)
    else s
  }

  ghost function Step(s: HeapState, op: Op): HeapState {
    match op
    case Malloc(n) => MallocStep(s, n)
    case Free(p) => FreeStep(s, p)
    case ResetMinimum => s.(minEver := s.freeBytes)
  }

  ghost function RunTo(s: HeapState, ops: seq<Op>): HeapState
    decreases |ops|
  {
    if ops == [] then s else RunTo(Step(s, ops[0]), ops[1..])
  }

  /** A request succeeds exactly when its rounded size is a valid size no larger than the
      largest free block; a failing request changes nothing. */
  lemma MallocSucceedsIff(s: HeapState, n: nat, lo: nat, hi: nat)
    requires Inv(s, lo, hi) && Geometry(lo, hi)
    ensures MallocPointer(s, n) != 0 <==> 0 < WantedSize(n) <= LargestFree(s.blocks)
    ensures MallocPointer(s, n) == 0 ==> MallocStep(s, n) == s
  {
    var w := WantedSize(n);
    var k := FirstFit(s.blocks, w);
    LargestFreeBounds(s.blocks);
    TilesSpan(s.blocks, lo, hi);
    if 0 < w <= LargestFree(s.blocks) {
      var b :| b in s.blocks && b.free && b.size == LargestFree(s.blocks);
      assert k < |s.blocks|;
    }
    if k < |s.blocks| {
      assert s.blocks[k] in s.blocks;
    }
  }

  /** The block a successful request hands out. */
  ghost function MallocBlock(s: HeapState, n: nat): Block
    requires MallocFits(s, n)
  {
    AllocatePieces(s.blocks[FirstFit(s.blocks, WantedSize(n))], WantedSize(n))[0]
  }

  /** A successful request adds exactly one live block, holding the bytes asked for right after
      its header, and leaves every other live block as it was. */
  lemma MallocAddsOneBlock(s: HeapState, n: nat, lo: nat, hi: nat)
    requires Inv(s, lo, hi) && Geometry(lo, hi) && MallocFits(s, n)
    ensures var live := MallocBlock(s, n);
            && !live.free
            && live.addr + HEADER == MallocPointer(s, n)
            && MallocPointer(s, n) + n <= live.addr + live.size
            && live !in Live(s.blocks)
            && Live(MallocStep(s, n).blocks) == Live(s.blocks) + {live}
  {
    var k := FirstFit(s.blocks, WantedSize(n));
    AllocateKeeps(s.blocks, k, WantedSize(n), lo, hi);
    BlockOnce(s.blocks, lo, hi, k);
    LiveMembers(s.blocks);
  }

  /** A request gets its rounded size and no more, unless the free block it comes from has at most
      16 bytes to spare: then it gets all of that block.  The free bytes fall by just what it gets. */
  lemma MallocBlockSize(s: HeapState, n: nat)
    requires MallocFits(s, n)
    ensures n + 8 <= WantedSize(n) < n + 16 && WantedSize(n) % 8 == 0
    ensures var b, w := MallocBlock(s, n), WantedSize(n);
            exists f :: f in s.blocks && f.free && f.addr == b.addr
              && b.size == if f.size > w + 16 then w else f.size
    ensures WantedSize(n) <= MallocBlock(s, n).size <= WantedSize(n) + 16
    ensures MallocStep(s, n).freeBytes == s.freeBytes - MallocBlock(s, n).size
  {
    assert s.blocks[FirstFit(s.blocks, WantedSize(n))] in s.blocks;
  }

  ghost function Pointers(s: HeapState, ns: seq<nat>): seq<nat>
    decreases |ns|
  {
    if ns == [] then [] else [MallocPointer(s, ns[0])] + Pointers(MallocStep(s, ns[0]), ns[1..])
  }

  /** The pointers of requests laid out one behind the other from an address on. */
  ghost function BackToBack(at: nat, ns: seq<nat>): seq<nat>
    decreases |ns|
  {
    if ns == [] then [] else [at + 8] + BackToBack(at + WantedSize(ns[0]), ns[1..])
  }

  ghost function Wanted(ns: seq<nat>): nat {
    if ns == [] then 0 else WantedSize(ns[0]) + Wanted(ns[1..])
  }

  /** Requests to a fresh heap that has room for them all are laid out back to back from its start. */
  lemma FreshHeapPacks(lo: nat, hi: nat, ns: seq<nat>)
    requires Geometry(lo, hi) && lo + Wanted(ns) + 16 < hi
    requires forall n :: n in ns ==> WantedSize(n) > 0
    ensures Pointers(InitState(lo, hi), ns) == BackToBack(lo, ns)
  {
    assert InitState(lo, hi).blocks == [] + [Block(lo, hi - lo, true)];
    PacksBehind([], lo, hi, InitState(lo, hi), ns);
  }

  lemma {:induction false} PacksBehind(taken: seq<Block>, at: nat, hi: nat, s: HeapState, ns: seq<nat>)
    requires at + Wanted(ns) + 16 < hi < ALLOCATED_BIT && forall n :: n in ns ==> WantedSize(n) > 0
    requires forall b :: b in taken ==> !b.free
    requires s.blocks == taken + [Block(at, hi - at, true)] && s.freeBytes == hi - at
    ensures Pointers(s, ns) == BackToBack(at, ns)
    decreases |ns|
  {
    if ns != [] {
      var w := WantedSize(ns[0]);
      assert ns == [ns[0]] + ns[1..];
      PackOne(taken, at, hi, s, ns[0]);
      PacksBehind(taken + [Block(at, w, false)], at + w, hi, MallocStep(s, ns[0]), ns[1..]);
    }
  }

  lemma PackOne(taken: seq<Block>, at: nat, hi: nat, s: HeapState, n: nat)
    requires WantedSize(n) > 0 && at + WantedSize(n) + 16 < hi < ALLOCATED_BIT
    requires forall b :: b in taken ==> !b.free
    requires s.blocks == taken + [Block(at, hi - at, true)] && s.freeBytes == hi - at
    ensures MallocPointer(s, n) == at + 8
    ensures var s', w := MallocStep(s, n), WantedSize(n);
            && s'.blocks == taken + [Block(at, w, false)] + [Block(at + w, hi - (at + w), true)]
            && s'.freeBytes == hi - (at + w)
  {
    OnlyLastFits(taken, Block(at, hi - at, true), WantedSize(n));
    LastCut(taken, Block(at, hi - at, true), WantedSize(n));
  }

  lemma OnlyLastFits(taken: seq<Block>, last: Block, w: nat)
    requires (forall b :: b in taken ==> !b.free) && last.free && last.size >= w + 16 + 1
    ensures FirstFit(taken + [last], w) == |taken|
  {
    var bs := taken + [last];
    assert bs[|taken|] == last;
    forall i | 0 <= i < |taken| ensures !bs[i].free {
      assert bs[i] == taken[i];
    }
  }

  lemma LastCut(taken: seq<Block>, last: Block, w: nat)
    requires last.size >= w + 16 + 1
    ensures AllocateAt(taken + [last], |taken|, w)
            == taken + [Block(last.addr, w, false)] + [Block(last.addr + w, last.size - w, true)]
  {
    var bs := taken + [last];
    assert bs[..|taken|] == taken && bs[|taken|] == last && bs[|taken| + 1..] == [];
    assert AllocatePieces(last, w) == [Block(last.addr, w, false), Block(last.addr + w, last.size - w, true)];
  }

  /** No free block below the one taken is large enough: first fit is lowest fit. */
  lemma MallocTakesLowest(s: HeapState, n: nat, lo: nat, hi: nat, b: Block)
    requires Inv(s, lo, hi) && MallocFits(s, n)
    requires b in s.blocks && b.free && b.size >= WantedSize(n)
    ensures MallocPointer(s, n) <= b.addr + HEADER
  {
    var i :| 0 <= i < |s.blocks| && s.blocks[i] == b;
    var k := FirstFit(s.blocks, WantedSize(n));
    if i > k { BlocksDisjoint(s.blocks, lo, hi, k, i); }
  }

  /** What every operation keeps. */
  lemma StepKeeps(s: HeapState, op: Op, lo: nat, hi: nat)
    requires Inv(s, lo, hi) && Geometry(lo, hi)
    ensures Inv(Step(s, op), lo, hi)
  {
    match op
    case Malloc(n) =>
      if MallocFits(s, n) { TakeKeeps(s, FirstFit(s.blocks, WantedSize(n)), WantedSize(n), lo, hi); }
    case Free(p) => ReleaseKeeps(s, p, lo, hi);
    case ResetMinimum =>
  }

  lemma TakeKeeps(s: HeapState, k: nat, want: nat, lo: nat, hi: nat)
    requires Inv(s, lo, hi) && k < |s.blocks| && s.blocks[k].free
    requires s.blocks[k].size >= want >= HEADER && want % ALIGNMENT == 0
    ensures Inv(TakeStep(s, k, want), lo, hi)
  {
    AllocateKeeps(s.blocks, k, want, lo, hi);
  }

  lemma ReleaseKeeps(s: HeapState, p: nat, lo: nat, hi: nat)
    requires Inv(s, lo, hi) && Geometry(lo, hi)
    ensures Inv(FreeStep(s, p), lo, hi)
  {
    var k := BlockIndex(s.blocks, p - HEADER);
    if p != 0 && k < |s.blocks| && !s.blocks[k].free {
      FreeKeeps(s.blocks, k, lo, hi);
    }
  }

  /** The heap invariant holds after every run of mallocs and frees from a fresh heap. */
  lemma {:induction false} RunKeeps(s: HeapState, ops: seq<Op>, lo: nat, hi: nat)
    requires Inv(s, lo, hi) && Geometry(lo, hi)
    ensures Inv(RunTo(s, ops), lo, hi)
    decreases |ops|
  {
    if ops != [] {
      StepKeeps(s, ops[0], lo, hi);
      RunKeeps(Step(s, ops[0]), ops[1..], lo, hi);
    }
  }

  /** The smallest free byte count in the states of a run. */
  ghost function Lowest(s: HeapState, ops: seq<Op>): int
    decreases |ops|
  {
    if ops == [] then s.freeBytes
    else
      var rest := Lowest(Step(s, ops[0]), ops[1..]);
      if s.freeBytes < rest then s.freeBytes else rest
  }

  /** Without a reset the minimum-ever count falls to the smallest free byte count of the run. */
  lemma {:induction false} MinimumFollows(s: HeapState, ops: seq<Op>, lo: nat, hi: nat)
    requires Inv(s, lo, hi) && Geometry(lo, hi) && ResetMinimum !in ops
    ensures RunTo(s, ops).minEver == if s.minEver < Lowest(s, ops) then s.minEver else Lowest(s, ops)
    decreases |ops|
  {
    if ops != [] {
      StepKeeps(s, ops[0], lo, hi);
      assert ops == [ops[0]] + ops[1..];
      MinimumFollows(Step(s, ops[0]), ops[1..], lo, hi);
      MinimumStep(s, ops[0]);
    }
  }

  lemma MinimumStep(s: HeapState, op: Op)
    requires op != ResetMinimum && s.minEver <= s.freeBytes
    ensures var s' := Step(s, op); s'.minEver == if s'.freeBytes < s.minEver then s'.freeBytes else s.minEver
  {
  }

  /** After a reset the minimum-ever count is the smallest free byte count there has been since. */
  lemma MinimumSinceReset(s: HeapState, before: seq<Op>, since: seq<Op>, lo: nat, hi: nat)
    requires Inv(s, lo, hi) && Geometry(lo, hi) && ResetMinimum !in since
    ensures RunTo(s, before + [ResetMinimum] + since).minEver == Lowest(RunTo(s, before), since)
  {
    var s1 := RunTo(s, before);
    var s2 := Step(s1, ResetMinimum);
    RunKeeps(s, before, lo, hi);
    StepKeeps(s1, ResetMinimum, lo, hi);
    RunInTwo(s, before, [ResetMinimum] + since);
    assert before + [ResetMinimum] + since == before + ([ResetMinimum] + since);
    assert ([ResetMinimum] + since)[1..] == since;
    MinimumFollows(s2, since, lo, hi);
    LowestOfBytes(s1, s2, since);
  }

  lemma {:induction false} RunInTwo(s: HeapState, a: seq<Op>, b: seq<Op>)
    ensures RunTo(s, a + b) == RunTo(RunTo(s, a), b)
    decreases |a|
  {
    if a == [] {
      assert a + b == b;
    } else {
      assert (a + b)[1..] == a[1..] + b;
      RunInTwo(Step(s, a[0]), a[1..], b);
    }
  }

  /** The minimum-ever count has no say in what happens to the bytes. */
  lemma {:induction false} LowestOfBytes(s: HeapState, t: HeapState, ops: seq<Op>)
    requires s.blocks == t.blocks && s.freeBytes == t.freeBytes
    ensures Lowest(s, ops) == Lowest(t, ops) <= s.freeBytes
    decreases |ops|
  {
    if ops != [] {
      LowestOfBytes(Step(s, ops[0]), Step(t, ops[0]), ops[1..]);
    }
  }

  lemma InitKeeps(lo: nat, hi: nat)
    requires Geometry(lo, hi)
    ensures Inv(InitState(lo, hi), lo, hi)
  {
    assert InitState(lo, hi).blocks[1..] == [];
  }

  /** In every reachable state the live blocks are aligned, inside the heap and disjoint. */
  lemma ReachableLiveBlocks(ops: seq<Op>, lo: nat, hi: nat, x: Block, y: Block)
    requires Geometry(lo, hi)
    requires var live := Live(RunTo(InitState(lo, hi), ops).blocks); x in live && y in live
    ensures x.addr % ALIGNMENT == 0 && lo <= x.addr && x.addr + x.size <= hi
    ensures x == y || x.addr + x.size <= y.addr || y.addr + y.size <= x.addr
  {
    InitKeeps(lo, hi);
    RunKeeps(InitState(lo, hi), ops, lo, hi);
    var bs := RunTo(InitState(lo, hi), ops).blocks;
    LiveMembers(bs);
    var i :| 0 <= i < |bs| && bs[i] == x;
    var j :| 0 <= j < |bs| && bs[j] == y;
    BlockBounds(bs, lo, hi, i);
    if i < j { BlocksDisjoint(bs, lo, hi, i, j); }
    if j < i { BlocksDisjoint(bs, lo, hi, j, i); }
  }

  /** With nothing live, only the one block that prvHeapInit made can be left. */
  lemma NothingLive(s: HeapState, lo: nat, hi: nat)
    requires Inv(s, lo, hi) && Geometry(lo, hi)
    requires Live(s.blocks) == {}
    ensures s.blocks == InitState(lo, hi).blocks && s.freeBytes == hi - lo
  {
    var bs := s.blocks;
    LiveMembers(bs);
    assert bs != [] && |bs| < 2;
    assert bs[1..] == [];
    assert Tiles(bs[1..], lo + bs[0].size, hi);
    assert FreeBytes(bs[1..]) == 0;
    assert bs == [bs[0]];
  }

  ghost function Frees(order: seq<Block>): seq<Op> {
    seq(|order|, i requires 0 <= i < |order| => Free(order[i].addr + HEADER))
  }

  /** Full coalescing: from any state of the heap, freeing every live block, in any order,
      leaves the single free block of a fresh heap. */
  lemma {:induction false} FreeingAllRestoresHeap(s: HeapState, order: seq<Block>, lo: nat, hi: nat)
    requires Inv(s, lo, hi) && Geometry(lo, hi)
    requires forall i, j :: 0 <= i < j < |order| ==> order[i] != order[j]
    requires (set b | b in order) == Live(s.blocks)
    ensures RunTo(s, Frees(order)).blocks == InitState(lo, hi).blocks
    ensures RunTo(s, Frees(order)).freeBytes == hi - lo
    decreases |order|
  {
    if order == [] {
      NothingLive(s, lo, hi);
    } else {
      FreeingOne(s, order, lo, hi);
      FreesRest(order);
      FreeingAllRestoresHeap(Step(s, Frees(order)[0]), order[1..], lo, hi);
    }
  }

  lemma FreeingOne(s: HeapState, order: seq<Block>, lo: nat, hi: nat)
    requires Inv(s, lo, hi) && Geometry(lo, hi) && order != []
    requires forall i, j :: 0 <= i < j < |order| ==> order[i] != order[j]
    requires (set b | b in order) == Live(s.blocks)
    ensures Inv(Step(s, Frees(order)[0]), lo, hi)
    ensures (set b | b in order[1..]) == Live(Step(s, Frees(order)[0]).blocks)
  {
    var b := order[0];
    LiveMembers(s.blocks);
    assert b in Live(s.blocks);
    FreeFindsBlock(s, b, lo, hi);
    FreeKeeps(s.blocks, BlockIndex(s.blocks, b.addr), lo, hi);
    StepKeeps(s, Free(b.addr + HEADER), lo, hi);
    RestOfOrder(order);
  }

  lemma FreesRest(order: seq<Block>)
    requires order != []
    ensures Frees(order)[1..] == Frees(order[1..])
  {
  }

  lemma RestOfOrder(order: seq<Block>)
    requires order != []
    requires forall i, j :: 0 <= i < j < |order| ==> order[i] != order[j]
    ensures (set x | x in order[1..]) == (set x | x in order) - {order[0]}
  {
    assert order == [order[0]] + order[1..];
  }

  lemma FreeFindsBlock(s: HeapState, b: Block, lo: nat, hi: nat)
    requires Inv(s, lo, hi) && b in s.blocks
    ensures BlockIndex(s.blocks, b.addr) < |s.blocks| && s.blocks[BlockIndex(s.blocks, b.addr)] == b
  {
    var i :| 0 <= i < |s.blocks| && s.blocks[i] == b;
    BlockOnce(s.blocks, lo, hi, i);
  }

  /** malloc followed by free of the pointer it returned is the identity on the blocks and on
      the free byte count. */
  lemma FreeUndoesMalloc(s: HeapState, n: nat, lo: nat, hi: nat)
    requires Inv(s, lo, hi) && Geometry(lo, hi)
    requires MallocPointer(s, n) != 0
    ensures var back := FreeStep(MallocStep(s, n), MallocPointer(s, n));
            back.blocks == s.blocks && back.freeBytes == s.freeBytes
  {
    TakenBack(s, FirstFit(s.blocks, WantedSize(n)), WantedSize(n), lo, hi);
  }

  /** Releasing the block just taken finds it and gives everything back. */
  lemma TakenBack(s: HeapState, k: nat, w: nat, lo: nat, hi: nat)
    requires Inv(s, lo, hi) && Geometry(lo, hi) && k < |s.blocks| && s.blocks[k].free
    requires s.blocks[k].size >= w >= HEADER && w % ALIGNMENT == 0
    ensures var back := FreeStep(TakeStep(s, k, w), s.blocks[k].addr + HEADER);
            back.blocks == s.blocks && back.freeBytes == s.freeBytes
  {
    TakenFound(s.blocks, k, w, lo, hi);
    FreeUndoesAllocate(s.blocks, k, w);
  }

  lemma TakenFound(bs: seq<Block>, k: nat, w: nat, lo: nat, hi: nat)
    requires Tiles(bs, lo, hi) && Coalesced(bs) && k < |bs| && bs[k].free
    requires bs[k].size >= w >= HEADER && w % ALIGNMENT == 0
    ensures var after := AllocateAt(bs, k, w);
            && BlockIndex(after, bs[k].addr) == k < |after| && !after[k].free
            && after[k] == AllocatePieces(bs[k], w)[0]
  {
    var after := AllocateAt(bs, k, w);
    AllocateKeeps(bs, k, w, lo, hi);
    assert after[k] == AllocatePieces(bs[k], w)[0];
    BlockOnce(after, lo, hi, k);
  }
}
