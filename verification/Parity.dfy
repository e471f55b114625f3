/**
 Parity bits in lib/bit_lib/bit_lib.c: inserting one behind every group of bits, and taking every n-th
 bit out again in place, where reads and writes share one buffer.

 A byte is its eight bits, most significant first, so setting a bit by its mask is replacing one of
 them.  Byte arrays are specified by the bit sequence they hold (View), and what a call writes is a
 splice of that sequence.

 Each loop has a named predicate for what it keeps, a lemma for its start and its end, and a method for
 one turn: Emitting for the insertion, Removing for the removal, Reversing for the reversal of a range.
 The lemmas about Emitted and Kept then give the round trip.
 */
module Parity {
  import opened Crc

  // ----- bits in byte arrays -----

  function View(s: seq<Byte>): (v: Bits)
    ensures |v| == 8 * |s|
  {
    if s == [] then [] else s[0] + View(s[1..])
  }

  lemma {:induction false} ViewAt(s: seq<Byte>, q: nat)
    requires q < 8 * |s|
    ensures View(s)[q] == s[q / 8][q % 8]
  {
    if q >= 8 {
      ViewAt(s[1..], q - 8);
    }
  }

  lemma SetInView(s: seq<Byte>, p: nat, b: bool)
    requires p < 8 * |s|
    ensures View(s[p / 8 := s[p / 8][p % 8 := b]]) == View(s)[p := b]
  {
    var s' := s[p / 8 := s[p / 8][p % 8 := b]];
    forall q | 0 <= q < 8 * |s| ensures View(s')[q] == View(s)[p := b][q] {
      ViewAt(s, q);
      ViewAt(s', q);
    }
  }

  /** bit_lib_get_bit */
  method GetBit(data: array<Byte>, position: nat) returns (bit: bool)
    requires position < 8 * data.Length
    ensures bit == View(data[..])[position]
  {
    ViewAt(data[..], position);
    bit := data[position / 8][position % 8];
  }

  /** bit_lib_set_bit */
  method SetBit(data: array<Byte>, position: nat, bit: bool)
    requires position < 8 * data.Length
    modifies data
    ensures View(data[..]) == old(View(data[..]))[position := bit]
  {
    SetInView(data[..], position, bit);
    data[position / 8] := data[position / 8][position % 8 := bit];
    assert data[..] == old(data[..])[position / 8 := old(data[position / 8])[position % 8 := bit]];
  }

  /** x written over v from p on. */
  function Splice(v: Bits, p: nat, x: Bits): (r: Bits)
    requires p + |x| <= |v|
    ensures |r| == |v|
  {
    seq(|v|, i requires 0 <= i < |v| => if p <= i < p + |x| then x[i - p] else v[i])
  }

  lemma SpliceNothing(v: Bits, p: nat)
    requires p <= |v|
    ensures Splice(v, p, []) == v
  {
  }

  lemma SpliceNext(v: Bits, p: nat, x: Bits, b: bool)
    requires p + |x| < |v|
    ensures Splice(v, p, x)[p + |x| := b] == Splice(v, p, x + [b])
  {
  }

  lemma SpliceTwice(v: Bits, p: nat, x: Bits, y: Bits)
    requires p + |x| + |y| <= |v|
    ensures Splice(Splice(v, p, x), p + |x|, y) == Splice(v, p, x + y)
  {
  }

  lemma SpliceRead(v: Bits, p: nat, x: Bits)
    requires p + |x| <= |v|
    ensures Splice(v, p, x)[p..p + |x|] == x
  {
  }

  lemma SpliceBehind(v: Bits, p: nat, x: Bits, k: nat)
    requires p + |x| <= k < |v|
    ensures Splice(v, p, x)[k] == v[k]
  {
  }

  /** bit_lib_set_bits: the low bits of a byte, and nothing but those positions. */
  method SetBits(data: array<Byte>, position: nat, byte: Byte, length: nat) returns (ok: bool)
    requires position + length <= 8 * data.Length
    modifies data
    ensures ok <==> 0 < length <= 8
    ensures View(data[..]) == if ok then Splice(old(View(data[..])), position, Low(byte, length))
        else old(View(data[..]))
  {
    if length > 8 || length == 0 { return false; }
    ghost var v, low := View(data[..]), Low(byte, length);
    SpliceNothing(v, position);
    for i := 0 to length
      invariant View(data[..]) == Splice(v, position, low[..i])
    {
      var b := byte[8 - length + i];
      assert low[..i + 1] == low[..i] + [b];
      SpliceNext(v, position, low[..i], b);
      SetBit(data, position + i, b);
    }
    assert low[..length] == low;
    ok := true;
  }

  /** The low bits of a byte. */
  function Low(byte: Byte, bits: nat): (r: Bits)
    requires bits <= 8
    ensures |r| == bits
  {
    byte[8 - bits..]
  }

  // ----- adding parity -----

  datatype Parity = Even | Odd | Always0 | Always1

  function Ones(b: Bits): nat {
    if b == [] then 0 else (if b[0] then 1 else 0) + Ones(b[1..])
  }

  lemma {:induction false} OnesAppend(a: Bits, b: Bits)
    ensures Ones(a + b) == Ones(a) + Ones(b)
  {
    if a == [] {
      assert a + b == b;
    } else {
      assert (a + b)[1..] == a[1..] + b;
      OnesAppend(a[1..], b);
    }
  }

  lemma {:induction false} OnesOfZeros(n: nat)
    ensures Ones(Zeros(n)) == 0
  {
    if n > 0 {
      assert Zeros(n)[1..] == Zeros(n - 1);
      OnesOfZeros(n - 1);
    }
  }

  /** A register of the given width after a group has been shifted into it from zero. */
  function ShiftedIn(width: nat, group: Bits): (w: Bits)
    ensures |w| == width
  {
    (Zeros(width) + group)[|group|..]
  }

  lemma ShiftNext(width: nat, group: Bits, b: bool)
    requires width > 0
    ensures ShiftedIn(width, group)[1..] + [b] == ShiftedIn(width, group + [b])
  {
    assert Zeros(width) + (group + [b]) == (Zeros(width) + group) + [b];
  }

  lemma WholeGroupCounts(width: nat, group: Bits)
    requires |group| <= width
    ensures Ones(ShiftedIn(width, group)) == Ones(group)
  {
    var z := Zeros(width - |group|);
    assert ShiftedIn(width, group) == z + group;
    OnesAppend(z, group);
    OnesOfZeros(width - |group|);
  }

  lemma LastOfGroup(width: nat, group: Bits)
    requires |group| >= width
    ensures ShiftedIn(width, group) == group[|group| - width..]
  {
  }

  const WORD: nat := 32

  /** What the code computes from the 32-bit parity word, into which the group was shifted. */
  function ParityBit(word: Bits, parity: Parity): bool {
    match parity
    case Always0 => false
    case Always1 => true
    case Even => Ones(word) % 2 == 1
    case Odd => Ones(word) % 2 == 0
  }

  function Block(group: Bits, parity: Parity): (b: Bits)
    ensures |b| == |group| + 1
  {
    group + [ParityBit(ShiftedIn(WORD, group), parity)]
  }

  /** Every emitted block of up to 33 bits has an even, or odd, number of ones. */
  lemma BlockParity(group: Bits, parity: Parity)
    requires |group| <= 32
    ensures parity == Even ==> Ones(Block(group, parity)) % 2 == 0
    ensures parity == Odd ==> Ones(Block(group, parity)) % 2 == 1
  {
    WholeGroupCounts(WORD, group);
    OnesAppend(group, [ParityBit(ShiftedIn(WORD, group), parity)]);
  }

  /** The block is the group and one bit behind it; a marker bit is zero or one as its name says. */
  lemma MarkerBit(group: Bits)
    ensures forall parity :: Block(group, parity)[..|group|] == group
    ensures !Block(group, Always0)[|group|] && Block(group, Always1)[|group|]
  {
  }

  /** A longer block has the right parity exactly when the bits in front of the last 32 of its group,
      which have left the parity word, hold an even number of ones. */
  lemma LongBlockParity(group: Bits, parity: Parity)
    requires |group| > 32 && parity in {Even, Odd}
    ensures Ones(Block(group, parity)) % 2 == (if parity == Even then 0 else 1)
            <==> Ones(group[..|group| - 32]) % 2 == 0
  {
    var head, tail := group[..|group| - 32], group[|group| - 32..];
    assert group == head + tail;
    LastOfGroup(WORD, group);
    OnesAppend(head, tail);
    OnesAppend(group, [ParityBit(ShiftedIn(WORD, group), parity)]);
  }

  /** One such group: a one followed by 32 zeros gets the parity bit of 32 zeros. */
  lemma LongBlockFails()
    ensures Ones(Block([true] + Zeros(32), Even)) % 2 == 1 && Ones(Block([true] + Zeros(32), Odd)) % 2 == 0
  {
    var group := [true] + Zeros(32);
    assert group[..|group| - 32] == [true] && Ones([true]) == 1;
    LongBlockParity(group, Even);
    LongBlockParity(group, Odd);
  }

  /** Groups of d bits, each followed by its parity bit. */
  ghost function Emitted(source: Bits, d: nat, parity: Parity): Bits
    requires d > 0
  {
    if |source| < d then [] else Block(source[..d], parity) + Emitted(source[d..], d, parity)
  }

  /** The bits the code reads for a source length: whole groups, the last possibly reaching past it. */
  ghost function Padded(length: nat, d: nat): (r: nat)
    requires d > 0
    ensures r >= length && (length > 0 ==> r >= d)
  {
    if length == 0 then 0 else if length <= d then d else d + Padded(length - d, d)
  }

  lemma {:induction false} PaddedMultiple(length: nat, d: nat)
    requires d > 0 && WholeGroups(length, d)
    ensures Padded(length, d) == length
    decreases length
  {
    if length > 0 {
      PaddedMultiple(length - d, d);
    }
  }

  /** A length of whole groups. */
  predicate WholeGroups(length: nat, d: nat)
    requires d > 0
    decreases length
  {
    length == 0 || (length >= d && WholeGroups(length - d, d))
  }

  lemma {:induction false} MultipleIsWhole(k: nat, d: nat)
    requires d > 0
    ensures WholeGroups(k * d, d)
  {
    if k > 0 {
      assert k * d == (k - 1) * d + d;
      MultipleIsWhole(k - 1, d);
    }
  }

  /** The inner loop of bit_lib_add_parity: a group is copied and shifted into the parity word. */
  method CopyGroup(data: array<Byte>, from: nat, dest: array<Byte>, to: nat, d: nat, width: nat) returns (word: Bits)
    requires data != dest && from + d <= 8 * data.Length && to + d <= 8 * dest.Length && width > 0
    modifies dest
    ensures View(dest[..]) == Splice(old(View(dest[..])), to, View(data[..])[from..from + d])
    ensures word == ShiftedIn(width, View(data[..])[from..from + d])
  {
    ghost var v, group := View(dest[..]), View(data[..])[from..from + d];
    word := Zeros(width);
    SpliceNothing(v, to);
    assert ShiftedIn(width, group[..0]) == word;
    for bit := 0 to d
      invariant View(dest[..]) == Splice(v, to, group[..bit])
      invariant word == ShiftedIn(width, group[..bit])
    {
      var b := GetBit(data, from + bit);
      CopyNext(v, to, group, bit, width);
      word := word[1..] + [b];
      SetBit(dest, to + bit, b);
    }
    assert group[..d] == group;
  }

  lemma CopyNext(v: Bits, to: nat, group: Bits, bit: nat, width: nat)
    requires bit < |group| && to + |group| <= |v| && width > 0
    ensures Splice(v, to, group[..bit])[to + bit := group[bit]] == Splice(v, to, group[..bit + 1])
    ensures ShiftedIn(width, group[..bit])[1..] + [group[bit]] == ShiftedIn(width, group[..bit + 1])
  {
    assert group[..bit + 1] == group[..bit] + [group[bit]];
    ShiftNext(width, group[..bit], group[bit]);
    SpliceNext(v, to, group[..bit], group[bit]);
  }

  /** One group and its parity bit: the body of the outer loop of bit_lib_add_parity. */
  method EmitBlock(data: array<Byte>, from: nat, dest: array<Byte>, to: nat, d: nat, parity: Parity, ghost group: Bits)
    requires data != dest && from + d <= 8 * data.Length && to + d < 8 * dest.Length
    requires group == View(data[..])[from..from + d]
    modifies dest
    ensures View(dest[..]) == Splice(old(View(dest[..])), to, Block(group, parity))
  {
    ghost var v := View(dest[..]);
    var word := CopyGroup(data, from, dest, to, d, WORD);
    var b := ParityBit(word, parity);
    SpliceNext(v, to, group, b);
    SetBit(dest, to + d, b);
  }

  /** out has been emitted, for everything in front of rest. */
  ghost predicate EmittedSoFar(all: Bits, d: nat, parity: Parity, out: Bits, rest: Bits)
    requires d > 0
  {
    Emitted(all, d, parity) == out + Emitted(rest, d, parity)
  }

  lemma EmitNext(all: Bits, d: nat, parity: Parity, out: Bits, rest: Bits)
    requires d > 0 && EmittedSoFar(all, d, parity, out, rest) && |rest| >= d
    ensures EmittedSoFar(all, d, parity, out + Block(rest[..d], parity), rest[d..])
    ensures |out| + d < |Emitted(all, d, parity)|
  {
    assert out + (Block(rest[..d], parity) + Emitted(rest[d..], d, parity))
        == (out + Block(rest[..d], parity)) + Emitted(rest[d..], d, parity);
  }

  /** The source offset after some turns of the outer loop. */
  function WordAfter(parityLength: nat, turns: nat): int {
    turns * (parityLength - 1)
  }

  /** The outer loop ends if and only if there is nothing to read or a block is at least two bits long. */
  lemma LoopEndsIff(sourceLength: nat, parityLength: nat)
    ensures (exists turns: nat :: WordAfter(parityLength, turns) >= sourceLength)
        <==> sourceLength == 0 || parityLength >= 2
  {
    if parityLength >= 2 {
      assert sourceLength * (parityLength - 1) >= sourceLength;
      assert WordAfter(parityLength, sourceLength) >= sourceLength;
    } else {
      assert WordAfter(parityLength, 0) == 0;
      forall turns: nat ensures WordAfter(parityLength, turns) <= 0 {
        assert turns * (1 - parityLength) >= 0;
      }
    }
  }

  /** The bits a call reads. */
  ghost function Source(bits: Bits, position: nat, length: nat, d: nat): Bits
    requires d > 0 && position + Padded(length, d) <= |bits|
  {
    bits[position..position + Padded(length, d)]
  }

  lemma SourceAhead(bits: Bits, position: nat, length: nat, d: nat)
    requires d > 0 && position + Padded(length, d) <= |bits|
    ensures Ahead(bits, position, Source(bits, position, length, d), length, d)
  {
  }

  /** bit_lib_add_parity for two different buffers: the groups read are emitted with their parity bits,
      and nothing else of the destination changes. */
  method AddParity(data: array<Byte>, position: nat, dest: array<Byte>, destPosition: nat,
                   sourceLength: nat, parityLength: nat, parity: Parity) returns (bitCount: nat)
    requires data != dest && sourceLength <= 255 && parityLength <= 255 && (sourceLength > 0 ==> parityLength >= 2)
    requires sourceLength > 0 ==> position + Padded(sourceLength, parityLength - 1) <= 8 * data.Length
    requires sourceLength > 0 ==>
               var source := Source(View(data[..]), position, sourceLength, parityLength - 1);
               destPosition + |Emitted(source, parityLength - 1, parity)| <= 8 * dest.Length
    modifies dest
    ensures sourceLength == 0 ==> bitCount == 0 && View(dest[..]) == old(View(dest[..]))
    ensures sourceLength > 0 ==>
              var out := Emitted(Source(View(data[..]), position, sourceLength, parityLength - 1), parityLength - 1,
                                 parity);
              bitCount == |out| && View(dest[..]) == Splice(old(View(dest[..])), destPosition, out)
  {
    bitCount := 0;
    if sourceLength > 0 {
      ghost var all := Source(View(data[..]), position, sourceLength, parityLength - 1);
      SourceAhead(View(data[..]), position, sourceLength, parityLength - 1);
      bitCount := EmitGroups(data, position, dest, destPosition, sourceLength, parityLength - 1, parity, all);
    }
  }

  /** What the outer loop keeps: out is what was emitted for everything in front of rest, and stands
      in the destination. */
  ghost predicate Emitting(bits: Bits, from: nat, left: nat, view: Bits, v: Bits, to: nat,
                           all: Bits, d: nat, parity: Parity, out: Bits, rest: Bits)
    requires d > 0
  {
    && Ahead(bits, from, rest, left, d) && EmittedSoFar(all, d, parity, out, rest)
    && to + |Emitted(all, d, parity)| <= |v| && to + |out| <= |v| && view == Splice(v, to, out)
  }

  lemma EmitStart(bits: Bits, from: nat, left: nat, v: Bits, to: nat, all: Bits, d: nat, parity: Parity)
    requires d > 0 && Ahead(bits, from, all, left, d) && to + |Emitted(all, d, parity)| <= |v|
    ensures Emitting(bits, from, left, v, v, to, all, d, parity, [], all)
  {
    SpliceNothing(v, to);
    assert [] + Emitted(all, d, parity) == Emitted(all, d, parity);
  }

  lemma EmitEnd(bits: Bits, from: nat, view: Bits, v: Bits, to: nat, all: Bits, d: nat, parity: Parity, out: Bits,
                rest: Bits)
    requires d > 0 && Emitting(bits, from, 0, view, v, to, all, d, parity, out, rest)
    ensures out == Emitted(all, d, parity) && view == Splice(v, to, out)
  {
    assert rest == [] && out + [] == out;
  }

  function StillLeft(length: nat, word: nat): nat {
    if word < length then length - word else 0
  }

  /** The outer loop of bit_lib_add_parity. */
  method EmitGroups(data: array<Byte>, position: nat, dest: array<Byte>, destPosition: nat,
                    sourceLength: nat, d: nat, parity: Parity, ghost all: Bits) returns (bitCount: nat)
    requires data != dest && d > 0 && Ahead(View(data[..]), position, all, sourceLength, d)
    requires destPosition + |Emitted(all, d, parity)| <= 8 * dest.Length
    modifies dest
    ensures bitCount == |Emitted(all, d, parity)|
    ensures View(dest[..]) == Splice(old(View(dest[..])), destPosition, Emitted(all, d, parity))
  {
    ghost var bits, v := View(data[..]), View(dest[..]);
    EmitStart(bits, position, sourceLength, v, destPosition, all, d, parity);
    ghost var from, out, rest;
    bitCount, from, out, rest := EmitLoop(data, position, dest, destPosition, sourceLength, d, parity, bits, v, all);
    EmitEnd(bits, from, View(dest[..]), v, destPosition, all, d, parity, out, rest);
  }

  method EmitLoop(data: array<Byte>, position: nat, dest: array<Byte>, destPosition: nat, sourceLength: nat, d: nat,
                  parity: Parity,
                  ghost bits: Bits, ghost v: Bits, ghost all: Bits)
    returns (bitCount: nat, ghost from: nat, ghost out: Bits, ghost rest: Bits)
    requires data != dest && d > 0 && bits == View(data[..]) && |v| == 8 * dest.Length
    requires Emitting(bits, position, sourceLength, View(dest[..]), v, destPosition, all, d, parity, [], all)
    modifies dest
    ensures bitCount == |out|
    ensures Emitting(bits, from, 0, View(dest[..]), v, destPosition, all, d, parity, out, rest)
  {
    var word := 0;
    bitCount, from, out, rest := 0, position, [], all;
    ghost var left := sourceLength;
    while word < sourceLength
      invariant bitCount == |out| && from == position + word && left == StillLeft(sourceLength, word)
      invariant Emitting(bits, from, left, View(dest[..]), v, destPosition, all, d, parity, out, rest)
      decreases sourceLength - word
    {
      out, rest := EmitGroup(data, position + word, dest, destPosition, bitCount, d, parity, bits, from, left, v, all,
                             out, rest);
      bitCount := bitCount + (d + 1);
      word, from, left := word + d, from + d, StillLeft(left, d);
    }
  }

  /** rest is what is still to be read, from the given position on. */
  ghost predicate Ahead(bits: Bits, from: nat, rest: Bits, left: nat, d: nat)
    requires d > 0
  {
    |rest| == Padded(left, d) && (left > 0 ==> from + |rest| <= |bits| && rest == bits[from..from + |rest|])
  }

  lemma AheadNext(bits: Bits, from: nat, rest: Bits, left: nat, d: nat)
    requires d > 0 && left > 0 && Ahead(bits, from, rest, left, d)
    ensures from + d <= |bits| && rest[..d] == bits[from..from + d]
    ensures Ahead(bits, from + d, rest[d..], if left > d then left - d else 0, d)
  {
  }

  /** The step of the outer loop on the sequences. */
  lemma EmittingNext(bits: Bits, from: nat, left: nat, view: Bits, v: Bits, to: nat, at: nat,
                     all: Bits, d: nat, parity: Parity, out: Bits, rest: Bits, group: Bits, block: Bits)
    requires d > 0 && left > 0 && Emitting(bits, from, left, view, v, to, all, d, parity, out, rest)
    requires at == to + |out| && |rest| >= d && group == rest[..d] && block == Block(group, parity)
    ensures from + d <= |bits| && group == bits[from..from + d] && at + d < |v| == |view|
    ensures Emitting(bits, from + d, StillLeft(left, d), Splice(view, at, block), v, to, all, d, parity,
                     out + block, rest[d..])
  {
    EmitNext(all, d, parity, out, rest);
    AheadNext(bits, from, rest, left, d);
    SpliceTwice(v, to, out, Block(rest[..d], parity));
  }

  method EmitGroup(data: array<Byte>, position: nat, dest: array<Byte>, to: nat, bitCount: nat, d: nat, parity: Parity,
                   ghost bits: Bits, ghost from: nat, ghost left: nat, ghost v: Bits, ghost all: Bits,
                   ghost out: Bits, ghost rest: Bits)
    returns (ghost out': Bits, ghost rest': Bits)
    requires data != dest && d > 0 && left > 0 && position == from && bits == View(data[..])
        && |v| == 8 * dest.Length && bitCount == |out|
    requires Emitting(bits, from, left, View(dest[..]), v, to, all, d, parity, out, rest)
    modifies dest
    ensures |out'| == |out| + d + 1
    ensures Emitting(bits, from + d, StillLeft(left, d), View(dest[..]), v, to, all, d, parity, out', rest')
  {
    ghost var view, group := View(dest[..]), rest[..d];
    ghost var block := Block(group, parity);
    var at := to + bitCount;
    EmittingNext(bits, from, left, view, v, to, at, all, d, parity, out, rest, group, block);
    EmitBlock(data, position, dest, at, d, parity, group);
    out', rest' := out + block, rest[d..];
  }

  // ----- taking every n-th bit out -----

  /** The phase behind the next bit, when c bits of the current n have been seen. */
  ghost function NextPhase(c: nat, n: nat): nat {
    if c + 1 == n then 0 else c + 1
  }

  /** All but every n-th bit, when c bits of the current n have been seen. */
  ghost function Kept(v: Bits, n: nat, c: nat): (r: Bits)
    ensures |r| <= |v|
    decreases |v|
  {
    if v == [] then [] else (if c + 1 == n then [] else [v[0]]) + Kept(v[1..], n, NextPhase(c, n))
  }

  lemma Multiples(m: nat, k: nat, n: nat)
    ensures m < k ==> m * n + n <= k * n
  {
    if m < k {
      assert (m + 1) * n <= k * n;
    }
  }

  lemma DivisionUnique(n: nat, q: nat, r: nat, k: nat, s: nat)
    requires q * n + r == k * n + s && r < n && s < n
    ensures q == k && r == s
  {
    Multiples(q, k, n);
    Multiples(k, q, n);
  }

  lemma PhaseIsModulo(k: nat, n: nat)
    requires n > 0
    ensures (k + 1) % n == NextPhase(k % n, n)
    ensures (k + 1) % n == 0 <==> k % n + 1 == n
  {
    var q, c := k / n, k % n;
    if c + 1 == n {
      assert (q + 1) * n == q * n + n;
      DivisionUnique(n, q + 1, 0, (k + 1) / n, (k + 1) % n);
    } else {
      DivisionUnique(n, q, c + 1, (k + 1) / n, (k + 1) % n);
    }
  }

  /** What is kept of all is what has been written, what is buffered, and what will be kept of the
      bits still to be read. */
  ghost predicate Progress(all: Bits, n: nat, counter: nat, done: Bits, buffer: Byte, bits: nat)
    requires n > 0 && counter <= |all| && bits <= 8
  {
    Kept(all, n, 0) == done + (Low(buffer, bits) + Kept(all[counter..], n, counter % n))
  }

  lemma TakeNext(all: Bits, n: nat, counter: nat, done: Bits, buffer: Byte, bits: nat)
    requires n > 0 && counter < |all| && bits < 8 && Progress(all, n, counter, done, buffer, bits)
    ensures if (counter + 1) % n != 0 then Progress(all, n, counter + 1, done, buffer[1..] + [all[counter]], bits + 1)
            else Progress(all, n, counter + 1, done, buffer, bits)
  {
    PhaseIsModulo(counter, n);
    var b := all[counter];
    assert all[counter..][1..] == all[counter + 1..];
    if (counter + 1) % n != 0 {
      var rest := Kept(all[counter + 1..], n, (counter + 1) % n);
      assert Low(buffer, bits) + ([b] + rest) == (Low(buffer, bits) + [b]) + rest;
      assert Low(buffer[1..] + [b], bits + 1) == Low(buffer, bits) + [b];
    }
  }

  lemma Flushed(all: Bits, n: nat, counter: nat, done: Bits, buffer: Byte, bits: nat)
    requires n > 0 && counter <= |all| && bits <= 8 && Progress(all, n, counter, done, buffer, bits)
    ensures Progress(all, n, counter, done + Low(buffer, bits), Zeros(8), 0)
  {
    var rest := Kept(all[counter..], n, counter % n);
    assert done + (Low(buffer, bits) + rest) == (done + Low(buffer, bits)) + rest;
    assert Low(Zeros(8), 0) + rest == rest;
  }

  /** What the loop of bit_lib_remove_bit_every_nth keeps: done stands in the buffer, and never reaches
      the bits still to be read. */
  ghost predicate Removing(view: Bits, v: Bits, position: nat, all: Bits, n: nat, counter: nat,
                           done: Bits, buffer: Byte, bits: nat) {
    && n > 0 && counter <= |all| && bits <= 8 && |done| + bits <= counter
    && position + |all| <= |v| && all == v[position..position + |all|]
    && Progress(all, n, counter, done, buffer, bits)
    && view == Splice(v, position, done)
  }

  lemma RemoveStart(v: Bits, position: nat, all: Bits, n: nat)
    requires n > 0 && position + |all| <= |v| && all == v[position..position + |all|]
    ensures Removing(v, v, position, all, n, 0, [], Zeros(8), 0)
  {
    SpliceNothing(v, position);
    assert all[0..] == all;
    assert Low(Zeros(8), 0) + Kept(all, n, 0) == Kept(all, n, 0);
  }

  /** One bit is read, and buffered unless it is an n-th one. */
  method TakeBit(data: array<Byte>, position: nat, counter: nat, n: nat, buffer0: Byte, bits0: nat,
                 ghost v: Bits, ghost all: Bits, ghost done: Bits) returns (buffer: Byte, bits: nat)
    requires |v| == 8 * data.Length && counter < |all| && bits0 < 8
    requires Removing(View(data[..]), v, position, all, n, counter, done, buffer0, bits0)
    ensures Removing(View(data[..]), v, position, all, n, counter + 1, done, buffer, bits)
  {
    buffer, bits := buffer0, bits0;
    TakeNext(all, n, counter, done, buffer, bits);
    if (counter + 1) % n != 0 {
      var b := GetBit(data, position + counter);
      SpliceBehind(v, position, done, position + counter);
      buffer, bits := buffer[1..] + [b], bits + 1;
    }
  }

  /** The step that empties the buffer, on the sequences. */
  lemma FlushMeans(view: Bits, v: Bits, position: nat, all: Bits, n: nat, counter: nat, done: Bits, buffer: Byte,
                   bits: nat)
    requires Removing(view, v, position, all, n, counter, done, buffer, bits)
    ensures position + |done| + bits <= |v|
    ensures Removing(Splice(view, position + |done|, Low(buffer, bits)), v, position, all, n, counter,
                     done + Low(buffer, bits), Zeros(8), 0)
  {
    SpliceTwice(v, position, done, Low(buffer, bits));
    Flushed(all, n, counter, done, buffer, bits);
  }

  /** The buffered bits, if there are enough of them, are written behind those already written. */
  method Flush(data: array<Byte>, position: nat, count0: nat, buffer0: Byte, bits0: nat, atLeast: nat,
               ghost v: Bits, ghost all: Bits, ghost n: nat, ghost counter: nat, ghost done0: Bits)
    returns (buffer: Byte, bits: nat, count: nat, ghost done: Bits)
    requires |v| == 8 * data.Length && count0 == |done0| && atLeast > 0
    requires Removing(View(data[..]), v, position, all, n, counter, done0, buffer0, bits0)
    modifies data
    ensures bits < atLeast && count == |done|
    ensures Removing(View(data[..]), v, position, all, n, counter, done, buffer, bits)
  {
    buffer, bits, count, done := buffer0, bits0, count0, done0;
    if bits >= atLeast {
      FlushMeans(View(data[..]), v, position, all, n, counter, done, buffer, bits);
      var ok := SetBits(data, position + count, buffer, bits);
      done, count := done + Low(buffer, bits), count + bits;
      buffer, bits := Zeros(8), 0;
    }
  }

  /** bit_lib_remove_bit_every_nth: although reads and writes overlap, what ends up at the front is
      what the original bits were; every other bit keeps its value.  With n of zero and bits to read the
      program stops at the remainder by zero, before anything is written. */
  method RemoveBitEveryNth(data: array<Byte>, position: nat, length: nat, n: nat) returns (ok: bool, count: nat)
    requires length <= 255 && n <= 255 && position + length <= 8 * data.Length
    modifies data
    ensures ok <==> n > 0 || length == 0
    ensures !ok ==> data[..] == old(data[..])
    ensures ok ==> var kept := Kept(old(View(data[..]))[position..position + length], n, 0);
                   count == |kept| && View(data[..]) == Splice(old(View(data[..])), position, kept)
  {
    ghost var v := View(data[..]);
    ok, count := n > 0 || length == 0, 0;
    if n > 0 {
      count := RemoveLoop(data, position, length, n, v, v[position..position + length]);
    } else {
      SpliceNothing(v, position);
    }
  }

  method RemoveLoop(data: array<Byte>, position: nat, length: nat, n: nat, ghost v: Bits, ghost all: Bits)
      returns (count: nat)
    requires |v| == 8 * data.Length && View(data[..]) == v && n > 0
    requires |all| == length && position + length <= |v| && all == v[position..position + length]
    modifies data
    ensures count == |Kept(all, n, 0)| && View(data[..]) == Splice(v, position, Kept(all, n, 0))
  {
    ghost var done := [];
    var counter, buffer: Byte, bits := 0, Zeros(8), 0;
    count := 0;
    RemoveStart(v, position, all, n);
    while counter < length
      invariant counter <= length && bits < 8 && count == |done|
      invariant Removing(View(data[..]), v, position, all, n, counter, done, buffer, bits)
    {
      buffer, bits := TakeBit(data, position, counter, n, buffer, bits, v, all, done);
      buffer, bits, count, done := Flush(data, position, count, buffer, bits, 8, v, all, n, counter + 1, done);
      counter := counter + 1;
    }
    buffer, bits, count, done := Flush(data, position, count, buffer, bits, 1, v, all, n, counter, done);
    Finished(all, n, done, buffer, bits);
    assert done + [] == done && Low(buffer, 0) == [];
  }

  lemma Finished(all: Bits, n: nat, done: Bits, buffer: Byte, bits: nat)
    requires n > 0 && bits <= 8 && Progress(all, n, |all|, done, buffer, bits)
    ensures Kept(all, n, 0) == done + Low(buffer, bits)
  {
    assert Low(buffer, bits) + [] == Low(buffer, bits);
  }

  // ----- the round trip -----

  /** The rest of a block: its bits are kept, its parity bit is not. */
  lemma {:induction false} KeptOfBlock(group: Bits, b: bool, rest: Bits, n: nat, c: nat)
    requires |group| + c + 1 == n
    ensures Kept(group + ([b] + rest), n, c) == group + Kept(rest, n, 0)
    decreases |group|
  {
    var all := group + ([b] + rest);
    if group == [] {
      assert all == [b] + rest;
    } else {
      assert all[1..] == group[1..] + ([b] + rest);
      KeptOfBlock(group[1..], b, rest, n, c + 1);
      assert group == [group[0]] + group[1..];
    }
  }

  /** Taking every n-th bit out of what was emitted gives back the source bits. */
  lemma {:induction false} RoundTrip(source: Bits, d: nat, parity: Parity)
    requires d > 0 && WholeGroups(|source|, d)
    ensures Kept(Emitted(source, d, parity), d + 1, 0) == source
    decreases |source|
  {
    if source != [] {
      var group, rest := source[..d], source[d..];
      RoundTrip(rest, d, parity);
      BlockUndone(group, parity, Emitted(rest, d, parity), d);
      assert group + rest == source;
    }
  }

  lemma BlockUndone(group: Bits, parity: Parity, rest: Bits, d: nat)
    requires |group| == d
    ensures Kept(Block(group, parity) + rest, d + 1, 0) == group + Kept(rest, d + 1, 0)
  {
    var b := Block(group, parity)[d];
    assert Block(group, parity) + rest == group + ([b] + rest);
    KeptOfBlock(group, b, rest, d + 1, 0);
  }

  /** The two calls one after the other, the second in place on the first one's output: the source
      bits stand where the blocks began. */
  lemma RecoveredInPlace(v: Bits, to: nat, source: Bits, d: nat, parity: Parity)
    requires d > 0 && WholeGroups(|source|, d) && to + |Emitted(source, d, parity)| <= |v|
    ensures var out := Emitted(source, d, parity);
            var added := Splice(v, to, out);
            var kept := Kept(added[to..to + |out|], d + 1, 0);
            kept == source && Splice(added, to, kept)[to..to + |source|] == source
  {
    var out := Emitted(source, d, parity);
    SpliceRead(v, to, out);
    RoundTrip(source, d, parity);
    SpliceRead(Splice(v, to, out), to, source);
  }

  lemma {:induction false} EmittedLength(source: Bits, d: nat, parity: Parity, k: nat)
    requires d > 0 && |source| == k * d
    ensures |Emitted(source, d, parity)| == k * (d + 1)
    decreases k
  {
    if k > 0 {
      assert k * d == (k - 1) * d + d && k * (d + 1) == (k - 1) * (d + 1) + (d + 1);
      EmittedLength(source[d..], d, parity, k - 1);
    }
  }

  /** The sizes of k groups of d bits and of their blocks. */
  lemma Sizes(source: Bits, d: nat, parity: Parity, k: nat)
    requires d > 0 && |source| == k * d
    ensures WholeGroups(|source|, d) && Padded(|source|, d) == |source|
        && |Emitted(source, d, parity)| == k * (d + 1) >= |source|
  {
    MultipleIsWhole(k, d);
    PaddedMultiple(|source|, d);
    EmittedLength(source, d, parity, k);
    assert k * (d + 1) == k * d + k;
  }

  /** k groups are given parity bits, which are then taken out in place: the source bits stand at the
      front.  The second call's length is a byte, so the blocks together have at most 255 bits. */
  method AddThenRemove(data: array<Byte>, position: nat, dest: array<Byte>, destPosition: nat,
                       sourceLength: nat, parityLength: nat, parity: Parity, ghost k: nat) returns (count: nat)
    requires data != dest && 2 <= parityLength <= 255 && sourceLength <= 255
    requires sourceLength == k * (parityLength - 1) && k * parityLength <= 255
    requires position + sourceLength <= 8 * data.Length && destPosition + k * parityLength <= 8 * dest.Length
    modifies dest
    ensures count == sourceLength && destPosition + count <= 8 * dest.Length
    ensures View(dest[..])[destPosition..destPosition + count] == View(data[..])[position..position + sourceLength]
  {
    ghost var v, source := View(dest[..]), View(data[..])[position..position + sourceLength];
    Sizes(source, parityLength - 1, parity, k);
    SpliceNothing(v, destPosition);
    var bitCount := AddParity(data, position, dest, destPosition, sourceLength, parityLength, parity);
    RoundTrip(source, parityLength - 1, parity);
    ghost var out := Emitted(source, parityLength - 1, parity);
    count := RemoveAdded(dest, destPosition, bitCount, parityLength, v, out, source);
  }

  /** The second of the two calls. */
  method RemoveAdded(dest: array<Byte>, to: nat, bitCount: nat, n: nat, ghost v: Bits, ghost out: Bits,
                     ghost source: Bits)
    returns (count: nat)
    requires 1 <= n <= 255 && bitCount == |out| <= 255 && |v| == 8 * dest.Length && to + |out| <= |v|
    requires Kept(out, n, 0) == source && View(dest[..]) == Splice(v, to, out)
    modifies dest
    ensures count == |source| && to + count <= |v| && View(dest[..])[to..to + count] == source
  {
    ghost var added := View(dest[..]);
    SpliceRead(v, to, out);
    count := RemoveLoop(dest, to, bitCount, n, added, out);
    SpliceRead(added, to, source);
  }

  // ----- reversing a range of bits in place -----

  /** The range with its outer i bits on either side exchanged. */
  ghost function Exchanged(range: Bits, i: nat): (r: Bits)
    ensures |r| == |range|
  {
    seq(|range|, k requires 0 <= k < |range| => if k < i || k >= |range| - i then range[|range| - 1 - k] else range[k])
  }

  lemma ExchangeNext(view: Bits, v: Bits, p: nat, range: Bits, i: nat, j: nat)
    requires Reversing(view, v, p, range, i) && i < j && i + j == |range| - 1
    ensures p + j < |view| && Reversing(view[p + i := view[p + j]][p + j := view[p + i]], v, p, range, i + 1)
  {
  }

  lemma ExchangeEnds(range: Bits, i: nat)
    requires |range| / 2 <= i <= |range|
    ensures Exchanged(range, i) == Reversed(range)
  {
  }

  method SwapBits(data: array<Byte>, p: nat, q: nat)
    requires p < 8 * data.Length && q < 8 * data.Length
    modifies data
    ensures View(data[..]) == old(View(data[..]))[p := old(View(data[..]))[q]][q := old(View(data[..]))[p]]
  {
    var tmp := GetBit(data, p);
    var other := GetBit(data, q);
    SetBit(data, p, other);
    SetBit(data, q, tmp);
  }

  /** bit_lib_reverse_bits: exactly the range is reversed.  For length zero the upper index wraps, and the
      loop runs out of the buffer (EmptyReversalLeaves). */
  method ReverseBits(data: array<Byte>, position: nat, length: nat) returns (ok: bool)
    requires length <= 255 && position + length <= 8 * data.Length
    modifies data
    ensures ok <==> length > 0
    ensures ok ==> View(data[..]) == Splice(old(View(data[..])), position,
                                            Reversed(old(View(data[..]))[position..position + length]))
  {
    ghost var v := View(data[..]);
    ok := length > 0;
    if ok {
      ReverseLoop(data, position, length, v, v[position..position + length]);
    }
  }

  /** The upper index the loop starts with, in 32 bits. */
  function UpperIndex(length: nat): nat
    requires length <= 255
  {
    if length == 0 then 0xFFFF_FFFF else length - 1
  }

  /** For length zero the loop goes on until it has left every buffer of up to 2^31 bits: some turn i of it
      is taken (the lower index is still below the upper one) and exchanges a bit behind the end. */
  lemma EmptyReversalLeaves(position: nat, bits: nat) returns (i: nat)
    requires position <= bits < 0x8000_0000
    ensures i < UpperIndex(0) - i && position + i >= bits
  {
    i := bits - position;
  }

  /** The range stands in the buffer with its outer i bits exchanged. */
  ghost predicate Reversing(view: Bits, v: Bits, p: nat, range: Bits, i: nat) {
    p + |range| <= |v| && view == Splice(v, p, Exchanged(range, i))
  }

  lemma ReverseStart(v: Bits, p: nat, range: Bits)
    requires p + |range| <= |v| && range == v[p..p + |range|]
    ensures Reversing(v, v, p, range, 0)
  {
  }

  /** One turn of the loop of bit_lib_reverse_bits. */
  method SwapEnds(data: array<Byte>, position: nat, i: nat, j: nat, ghost v: Bits, ghost range: Bits)
    requires |v| == 8 * data.Length && i < j && i + j == |range| - 1
    requires Reversing(View(data[..]), v, position, range, i)
    modifies data
    ensures Reversing(View(data[..]), v, position, range, i + 1)
  {
    ExchangeNext(View(data[..]), v, position, range, i, j);
    SwapBits(data, position + i, position + j);
  }

  method ReverseLoop(data: array<Byte>, position: nat, length: nat, ghost v: Bits, ghost range: Bits)
    requires 0 < length == |range| && |v| == 8 * data.Length && v == View(data[..])
    requires position + length <= |v| && range == v[position..position + length]
    modifies data
    ensures View(data[..]) == Splice(v, position, Reversed(range))
  {
    var i, j := 0, length - 1;
    ReverseStart(v, position, range);
    while i < j
      invariant i + j == length - 1 && i <= j + 1
      invariant Reversing(View(data[..]), v, position, range, i)
    {
      SwapEnds(data, position, i, j, v, range);
      i := i + 1;
      j := j - 1;
    }
    ExchangeEnds(range, i);
  }
}
