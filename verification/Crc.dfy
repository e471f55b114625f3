/**
 CRC-8 and CRC-16 of lib/bit_lib/bit_lib.c, and what they are for: an error burst no longer than the
 register changes the CRC, and a message followed by its CRC has CRC zero.

 Words are sequences of bits, most significant bit first, and the theory holds for a register of any
 width.  The 8-bit code feeds the register whole bytes, the 16-bit code single bits; both are shown
 to compute the same function of the bit stream.
 */
module Crc {
  type Bits = seq<bool>

  function Zeros(n: nat): (r: Bits)
    ensures |r| == n && forall i :: 0 <= i < n ==> !r[i]
  {
    seq(n, i => false)
  }

  function Xor(a: Bits, b: Bits): (r: Bits)
    requires |a| == |b|
    ensures |r| == |a| && forall i :: 0 <= i < |r| ==> r[i] == (a[i] != b[i])
  {
    seq(|a|, i requires 0 <= i < |a| => a[i] != b[i])
  }

  function Reversed(a: Bits): (r: Bits)
    ensures |r| == |a| && forall i :: 0 <= i < |r| ==> r[i] == a[|a| - 1 - i]
  {
    seq(|a|, i requires 0 <= i < |a| => a[|a| - 1 - i])
  }

  lemma ReversedTwice(a: Bits)
    ensures Reversed(Reversed(a)) == a
  {
  }

  /** One place to the left, the top bit lost. */
  function Left(r: Bits): (s: Bits)
    requires r != []
    ensures |s| == |r|
  {
    r[1..] + [false]
  }

  ghost predicate Odd(p: Bits) {
    p != [] && p[|p| - 1]
  }

  // ----- the shift register -----

  function Shift(r: Bits, p: Bits): (s: Bits)
    requires |r| == |p| > 0
    ensures |s| == |p|
  {
    if r[0] then Xor(Left(r), p) else Left(r)
  }

  ghost function Shifts(r: Bits, p: Bits, n: nat): (s: Bits)
    requires |r| == |p| > 0
    ensures |s| == |p|
    decreases n
  {
    if n == 0 then r else Shifts(Shift(r, p), p, n - 1)
  }

  /** One message bit joins the top bit of the register. */
  function Feed(r: Bits, bit: bool, p: Bits): (s: Bits)
    requires |r| == |p| > 0
    ensures |s| == |p|
  {
    if r[0] != bit then Xor(Left(r), p) else Left(r)
  }

  ghost function FeedAll(r: Bits, stream: Bits, p: Bits): (s: Bits)
    requires |r| == |p| > 0
    ensures |s| == |p|
    decreases |stream|
  {
    if stream == [] then r else FeedAll(Feed(r, stream[0], p), stream[1..], p)
  }

  /** With an odd polynomial the lowest bit tells whether the polynomial was added, so no two states
      are merged. */
  lemma FeedInjective(a: Bits, b: Bits, bit: bool, p: Bits)
    requires |a| == |b| == |p| && Odd(p) && a != b
    ensures Feed(a, bit, p) != Feed(b, bit, p)
  {
    var n, x, y := |p|, Feed(a, bit, p), Feed(b, bit, p);
    if a[0] != b[0] {
      assert x[n - 1] == (a[0] != bit) && y[n - 1] == (b[0] != bit);
    } else {
      var i := Differ(a, b);
      assert Left(a)[i - 1] == a[i] && Left(b)[i - 1] == b[i];
      assert x[i - 1] != y[i - 1];
    }
  }

  /** A place where two different words of the same width differ. */
  lemma Differ(a: Bits, b: Bits) returns (i: nat)
    requires |a| == |b| && a != b
    ensures i < |a| && a[i] != b[i]
  {
    i :| i < |a| && a[i] != b[i];
  }

  lemma {:induction false} FeedAllInjective(a: Bits, b: Bits, stream: Bits, p: Bits)
    requires |a| == |b| == |p| && Odd(p) && a != b
    ensures FeedAll(a, stream, p) != FeedAll(b, stream, p)
    decreases |stream|
  {
    if stream != [] {
      FeedInjective(a, b, stream[0], p);
      FeedAllInjective(Feed(a, stream[0], p), Feed(b, stream[0], p), stream[1..], p);
    }
  }

  lemma ShiftIsFeed(r: Bits, p: Bits)
    requires |r| == |p| > 0
    ensures Shift(r, p) == Feed(r, false, p)
  {
  }

  lemma {:induction false} ShiftsInjective(a: Bits, b: Bits, p: Bits, n: nat)
    requires |a| == |b| == |p| && Odd(p) && a != b
    ensures Shifts(a, p, n) != Shifts(b, p, n)
    decreases n
  {
    if n > 0 {
      ShiftIsFeed(a, p);
      ShiftIsFeed(b, p);
      FeedInjective(a, b, false, p);
      var a1, b1 := Shift(a, p), Shift(b, p);
      ShiftsInjective(a1, b1, p, n - 1);
    }
  }

  lemma {:induction false} ShiftsOfZero(p: Bits, n: nat)
    requires p != []
    ensures Shifts(Zeros(|p|), p, n) == Zeros(|p|)
    decreases n
  {
    if n > 0 {
      assert Shift(Zeros(|p|), p) == Zeros(|p|);
      ShiftsOfZero(p, n - 1);
    }
  }

  /** A stream at the top of the register, the rest filled with zeros. */
  ghost function AtTop(stream: Bits, n: nat): (s: Bits)
    requires |stream| <= n
    ensures |s| == n
  {
    stream + Zeros(n - |stream|)
  }

  lemma FeedFirst(r: Bits, stream: Bits, p: Bits)
    requires |r| == |p| && 0 < |stream| <= |p|
    ensures Shift(Xor(r, AtTop(stream, |p|)), p) == Xor(Feed(r, stream[0], p), AtTop(stream[1..], |p|))
  {
    var n := |p|;
    var x, y := Xor(r, AtTop(stream, n)), Feed(r, stream[0], p);
    assert x[0] == (r[0] != stream[0]);
    assert Left(x) == Xor(Left(r), AtTop(stream[1..], n));
  }

  /** Feeding a stream bit by bit is adding it to the register at once and then shifting, as long as
      it fits into the register. */
  lemma {:induction false} FeedIsAddAndShift(r: Bits, stream: Bits, p: Bits)
    requires |r| == |p| > 0 && |stream| <= |p|
    ensures FeedAll(r, stream, p) == Shifts(Xor(r, AtTop(stream, |p|)), p, |stream|)
    decreases |stream|
  {
    if stream == [] {
      assert Xor(r, AtTop([], |p|)) == r;
    } else {
      FeedFirst(r, stream, p);
      FeedIsAddAndShift(Feed(r, stream[0], p), stream[1..], p);
    }
  }

  lemma {:induction false} FeedAppend(r: Bits, s: Bits, t: Bits, p: Bits)
    requires |r| == |p| > 0
    ensures FeedAll(r, s + t, p) == FeedAll(FeedAll(r, s, p), t, p)
    decreases |s|
  {
    if s == [] {
      assert s + t == t;
    } else {
      assert (s + t)[1..] == s[1..] + t;
      FeedAppend(Feed(r, s[0], p), s[1..], t, p);
    }
  }

  // ----- polynomials: a bit is a coefficient, addition is exclusive-or -----

  function Times(c: bool, a: Bits): (r: Bits)
    ensures |r| == |a| && forall i :: 0 <= i < |a| ==> r[i] == (c && a[i])
  {
    if c then a else Zeros(|a|)
  }

  /** q times the polynomial with leading one and the coefficients p, by long multiplication. */
  function Product(q: Bits, p: Bits): (r: Bits)
    ensures |r| == |q| + |p|
  {
    if q == [] then Zeros(|p|)
    else Xor(Times(q[0], [true] + p) + Zeros(|q| - 1), [false] + Product(q[1..], p))
  }

  /** The message moved up by the width of the register, with the initial value added at its top. */
  function Dividend(init: Bits, stream: Bits): (r: Bits)
    ensures |r| == |stream| + |init|
  {
    Xor(stream + Zeros(|init|), init + Zeros(|stream|))
  }

  /** The register is the remainder of a polynomial division: the message, moved up and with the initial
      value added, is a multiple of the polynomial plus what the register holds at the end. */
  lemma {:induction false} RegisterIsRemainder(init: Bits, stream: Bits, p: Bits) returns (q: Bits)
    requires |init| == |p| > 0
    ensures |q| == |stream| && Dividend(init, stream) == Xor(Product(q, p), Zeros(|stream|) + FeedAll(init, stream, p))
    decreases |stream|
  {
    if stream == [] {
      q := [];
    } else {
      var r := Feed(init, stream[0], p);
      var rest := RegisterIsRemainder(r, stream[1..], p);
      q := [init[0] != stream[0]] + rest;
      assert q[1..] == rest;
      DivideOnce(init, stream, p, r);
      AddBehind(Times(q[0], [true] + p) + Zeros(|rest|), Product(rest, p), FeedAll(r, stream[1..], p));
    }
  }

  lemma DivideOnce(init: Bits, stream: Bits, p: Bits, r: Bits)
    requires |init| == |p| > 0 && stream != [] && r == Feed(init, stream[0], p)
    ensures Dividend(init, stream)
         == Xor(Times(init[0] != stream[0], [true] + p) + Zeros(|stream| - 1), [false] + Dividend(r, stream[1..]))
  {
    var c, n := init[0] != stream[0], |stream| - 1;
    var d, t, e := Dividend(init, stream), Times(c, [true] + p) + Zeros(n), [false] + Dividend(r, stream[1..]);
    forall k | 0 <= k < |d| ensures d[k] == (t[k] != e[k]) {
      if 0 < k < |p| + 1 {
        assert r[k - 1] == (Left(init)[k - 1] != (c && p[k - 1]));
        assert t[k] == (c && p[k - 1]);
      }
    }
  }

  lemma AddBehind(head: Bits, product: Bits, r: Bits)
    requires |head| == |product| + 1 && |r| <= |product|
    ensures Xor(head, [false] + Xor(product, Zeros(|product| - |r|) + r))
         == Xor(Xor(head, [false] + product), Zeros(|head| - |r|) + r)
  {
  }

  /** Streams of the same length that fit into the register lead to different states. */
  lemma WindowDetected(r: Bits, x: Bits, y: Bits, p: Bits)
    requires |r| == |p| && Odd(p) && |x| == |y| <= |p| && x != y
    ensures FeedAll(r, x, p) != FeedAll(r, y, p)
  {
    FeedIsAddAndShift(r, x, p);
    FeedIsAddAndShift(r, y, p);
    var a, b := Xor(r, AtTop(x, |p|)), Xor(r, AtTop(y, |p|));
    var i := Differ(x, y);
    assert a[i] == (r[i] != x[i]) && b[i] == (r[i] != y[i]);
    ShiftsInjective(a, b, p, |x|);
  }

  /** Two streams that differ only inside a window no wider than the register are told apart. */
  lemma BurstDetected(init: Bits, before: Bits, x: Bits, y: Bits, behind: Bits, p: Bits)
    requires |init| == |p| && Odd(p) && |x| == |y| <= |p| && x != y
    ensures FeedAll(init, before + (x + behind), p) != FeedAll(init, before + (y + behind), p)
  {
    var r := FeedAll(init, before, p);
    FeedAppend(init, before, x + behind, p);
    FeedAppend(init, before, y + behind, p);
    FeedAppend(r, x, behind, p);
    FeedAppend(r, y, behind, p);
    WindowDetected(r, x, y, p);
    FeedAllInjective(FeedAll(r, x, p), FeedAll(r, y, p), behind, p);
  }

  /** A stream followed by its own CRC leaves zero in the register, and for an odd polynomial nothing
      else of that length does. */
  lemma ResidueIsZero(init: Bits, stream: Bits, tail: Bits, p: Bits)
    requires |init| == |p| > 0 && |tail| == |p|
    ensures tail == FeedAll(init, stream, p) ==> FeedAll(init, stream + tail, p) == Zeros(|p|)
    ensures Odd(p) && FeedAll(init, stream + tail, p) == Zeros(|p|) ==> tail == FeedAll(init, stream, p)
  {
    var r := FeedAll(init, stream, p);
    FeedAppend(init, stream, tail, p);
    FeedIsAddAndShift(r, r, p);
    assert Xor(r, AtTop(r, |p|)) == Zeros(|p|);
    ShiftsOfZero(p, |p|);
    if Odd(p) && tail != r {
      WindowDetected(r, tail, r, p);
    }
  }

  // ----- bytes -----

  type Byte = b: Bits | |b| == 8 witness Zeros(8)

  function In(b: Byte, reflect: bool): Byte {
    if reflect then Reversed(b) else b
  }

  function Out(r: Bits, reflect: bool, xorOut: Bits): Bits
    requires |r| == |xorOut|
  {
    Xor(if reflect then Reversed(r) else r, xorOut)
  }

  ghost function Stream(data: seq<Byte>, reflect: bool): Bits {
    if data == [] then [] else In(data[0], reflect) + Stream(data[1..], reflect)
  }

  lemma {:induction false} StreamAppend(a: seq<Byte>, b: seq<Byte>, reflect: bool)
    ensures Stream(a + b, reflect) == Stream(a, reflect) + Stream(b, reflect)
  {
    if a == [] {
      assert a + b == b;
    } else {
      assert (a + b)[1..] == a[1..] + b;
      StreamAppend(a[1..], b, reflect);
    }
  }

  /** The CRC as a function of the message and all parameters. */
  ghost function CrcOf(data: seq<Byte>, p: Bits, init: Bits, refIn: bool, refOut: bool, xorOut: Bits): Bits
    requires |p| == |init| == |xorOut| > 0
  {
    Out(FeedAll(init, Stream(data, refIn), p), refOut, xorOut)
  }

  ghost function EachReversed(data: seq<Byte>): seq<Byte> {
    seq(|data|, i requires 0 <= i < |data| => Reversed(data[i]))
  }

  lemma {:induction false} StreamReversed(data: seq<Byte>)
    ensures Stream(EachReversed(data), false) == Stream(data, true)
  {
    if data != [] {
      assert EachReversed(data)[1..] == EachReversed(data[1..]);
      StreamReversed(data[1..]);
    }
  }

  /** What each parameter does: the CRC of nothing is the initial value, going on from the CRC of one part
      as initial value gives the CRC of both; reflected input is the message with every byte turned
      round; reflected output is the result turned round; and the last word is added to the result. */
  lemma ParametersMean(data: seq<Byte>, more: seq<Byte>, p: Bits, init: Bits, refIn: bool, refOut: bool, xorOut: Bits)
    requires |p| == |init| == |xorOut| > 0
    ensures var zero := Zeros(|p|);
            && CrcOf([], p, init, refIn, false, zero) == init
            && CrcOf(data + more, p, init, refIn, false, zero)
               == CrcOf(more, p, CrcOf(data, p, init, refIn, false, zero), refIn, false, zero)
            && CrcOf(data, p, init, true, false, zero) == CrcOf(EachReversed(data), p, init, false, false, zero)
            && CrcOf(data, p, init, refIn, true, zero) == Reversed(CrcOf(data, p, init, refIn, false, zero))
            && CrcOf(data, p, init, refIn, refOut, xorOut) == Xor(CrcOf(data, p, init, refIn, refOut, zero), xorOut)
  {
    var r := FeedAll(init, Stream(data, refIn), p);
    StreamAppend(data, more, refIn);
    FeedAppend(init, Stream(data, refIn), Stream(more, refIn), p);
    StreamReversed(data);
    XorZero(init);
    XorZero(r);
    XorZero(Reversed(r));
    XorZero(FeedAll(init, Stream(data, true), p));
    XorZero(FeedAll(init, Stream(data + more, refIn), p));
  }

  /** The CRC of a message is the remainder, reflected and added to as asked for. */
  lemma CrcIsRemainder(data: seq<Byte>, p: Bits, init: Bits, refIn: bool, refOut: bool, xorOut: Bits)
    returns (q: Bits, remainder: Bits)
    requires |p| == |init| == |xorOut| > 0
    ensures var stream := Stream(data, refIn);
            && |remainder| == |p| && |q| == |stream| == 8 * |data|
            && Dividend(init, stream) == Xor(Product(q, p), Zeros(|stream|) + remainder)
    ensures CrcOf(data, p, init, refIn, refOut, xorOut)
         == Xor(if refOut then Reversed(remainder) else remainder, xorOut)
  {
    remainder := FeedAll(init, Stream(data, refIn), p);
    q := RegisterIsRemainder(init, Stream(data, refIn), p);
    StreamSize(data, refIn);
  }

  lemma {:induction false} StreamSize(data: seq<Byte>, reflect: bool)
    ensures |Stream(data, reflect)| == 8 * |data|
  {
    if data != [] { StreamSize(data[1..], reflect); }
  }

  lemma OutInjective(a: Bits, b: Bits, reflect: bool, xorOut: Bits)
    requires |a| == |b| == |xorOut| && a != b
    ensures Out(a, reflect, xorOut) != Out(b, reflect, xorOut)
  {
    var i := Differ(a, b);
    var j := if reflect then |a| - 1 - i else i;
    assert Out(a, reflect, xorOut)[j] == (a[i] != xorOut[j]) && Out(b, reflect, xorOut)[j] == (b[i] != xorOut[j]);
  }

  lemma StreamAt(data: seq<Byte>, k: nat, reflect: bool)
    requires k < |data|
    ensures Stream(data, reflect) == Stream(data[..k], reflect)
        + (In(data[k], reflect) + Stream(data[k + 1..], reflect))
  {
    assert data == data[..k] + data[k..];
    StreamAppend(data[..k], data[k..], reflect);
  }

  /** For every odd polynomial and any other parameters: messages of equal length that differ in
      exactly one byte have different CRCs. */
  lemma OneByteDetected(d: seq<Byte>, e: seq<Byte>, k: nat, p: Bits, init: Bits, refIn: bool, refOut: bool,
                        xorOut: Bits)
    requires |p| == |init| == |xorOut| >= 8 && Odd(p)
    requires |d| == |e| && k < |d| && d[k] != e[k] && forall i :: 0 <= i < |d| && i != k ==> d[i] == e[i]
    ensures CrcOf(d, p, init, refIn, refOut, xorOut) != CrcOf(e, p, init, refIn, refOut, xorOut)
  {
    StreamAt(d, k, refIn);
    StreamAt(e, k, refIn);
    assert d[..k] == e[..k] && d[k + 1..] == e[k + 1..];
    ReversedTwice(d[k]);
    ReversedTwice(e[k]);
    BurstDetected(init, Stream(d[..k], refIn), In(d[k], refIn), In(e[k], refIn), Stream(d[k + 1..], refIn), p);
    OutInjective(FeedAll(init, Stream(d, refIn), p), FeedAll(init, Stream(e, refIn), p), refOut, xorOut);
  }

  /** Without reflection and with zero xor-out, a message has CRC zero when its last bytes are the CRC
      of the bytes before them, most significant byte first; for an odd polynomial only then. */
  lemma AppendedCrcIsZero(data: seq<Byte>, tail: seq<Byte>, p: Bits, init: Bits)
    requires |p| == |init| > 0 && |Stream(tail, false)| == |p|
    ensures var zero := Zeros(|p|);
            && (Stream(tail, false) == CrcOf(data, p, init, false, false, zero)
                ==> CrcOf(data + tail, p, init, false, false, zero) == zero)
            && (Odd(p) && CrcOf(data + tail, p, init, false, false, zero) == zero
                ==> Stream(tail, false) == CrcOf(data, p, init, false, false, zero))
  {
    StreamAppend(data, tail, false);
    ResidueIsZero(init, Stream(data, false), Stream(tail, false), p);
    XorZero(FeedAll(init, Stream(data, false), p));
    XorZero(FeedAll(init, Stream(data + tail, false), p));
  }

  lemma XorZero(r: Bits)
    ensures Xor(r, Zeros(|r|)) == r
  {
  }

  // ----- the code -----

  lemma FeedByte(data: seq<Byte>, i: nat, reflect: bool, p: Bits, init: Bits)
    requires |init| == |p| > 0 && i < |data|
    ensures FeedAll(FeedAll(init, Stream(data[..i], reflect), p), In(data[i], reflect), p)
        == FeedAll(init, Stream(data[..i + 1], reflect), p)
  {
    assert data[..i + 1] == data[..i] + [data[i]];
    StreamAppend(data[..i], [data[i]], reflect);
    assert Stream([data[i]], reflect) == In(data[i], reflect);
    FeedAppend(init, Stream(data[..i], reflect), In(data[i], reflect), p);
  }

  /** The byte is added to the register, which is then shifted eight times. */
  method AddAndShift(crc0: Byte, byte: Byte, p: Byte) returns (crc: Bits)
    ensures |crc| == 8 && crc == FeedAll(crc0, byte, p)
  {
    ShiftsAreFeeds(crc0, byte, p);
    crc := ShiftTimes(Xor(crc0, byte), p, |byte|);
  }

  /** The inner loop of bit_lib_crc8. */
  method ShiftTimes(crc0: Bits, p: Byte, n: nat) returns (crc: Bits)
    requires |crc0| == 8
    ensures |crc| == 8 && crc == Shifts(crc0, p, n)
  {
    crc := crc0;
    var j := n;
    while j > 0
      invariant 0 <= j <= n && |crc| == 8 && Shifts(crc, p, j) == Shifts(crc0, p, n)
    {
      ShiftsNext(crc, p, j);
      crc := ShiftOnce(crc, p);
      j := j - 1;
    }
  }

  method ShiftOnce(crc: Bits, p: Byte) returns (r: Bits)
    requires |crc| == 8
    ensures |r| == 8 && r == Shift(crc, p)
  {
    if crc[0] {
      r := Xor(Left(crc), p);
    } else {
      r := Left(crc);
    }
  }

  lemma ShiftsAreFeeds(crc: Byte, byte: Byte, p: Byte)
    ensures Shifts(Xor(crc, byte), p, |byte|) == FeedAll(crc, byte, p)
  {
    FeedIsAddAndShift(crc, byte, p);
    assert AtTop(byte, |p|) == byte;
  }

  lemma ShiftsNext(r: Bits, p: Bits, n: nat)
    requires |r| == |p| > 0 && n > 0
    ensures Shifts(r, p, n) == Shifts(Shift(r, p), p, n - 1)
  {
  }

  /** bit_lib_crc8: the byte is added to the register, which is then shifted eight times. */
  method Crc8(data: seq<Byte>, p: Byte, init: Byte, refIn: bool, refOut: bool, xorOut: Byte) returns (crc: Bits)
    ensures crc == CrcOf(data, p, init, refIn, refOut, xorOut)
  {
    crc := init;
    for i := 0 to |data|
      invariant |crc| == 8 && crc == FeedAll(init, Stream(data[..i], refIn), p)
    {
      var byte := data[i];
      if refIn { byte := Reversed(byte); }
      FeedByte(data, i, refIn, p, init);
      crc := AddAndShift(crc, byte, p);
    }
    assert data[..|data|] == data;
    if refOut { crc := Reversed(crc); }
    crc := Xor(crc, xorOut);
  }

  type Word = w: Bits | |w| == 16 witness Zeros(16)

  /** bit_lib_crc16: the message is fed bit by bit. */
  method Crc16(data: seq<Byte>, p: Word, init: Word, refIn: bool, refOut: bool, xorOut: Word) returns (crc: Bits)
    ensures crc == CrcOf(data, p, init, refIn, refOut, xorOut)
  {
    crc := init;
    for i := 0 to |data|
      invariant |crc| == 16 && crc == FeedAll(init, Stream(data[..i], refIn), p)
    {
      var byte := data[i];
      if refIn { byte := Reversed(byte); }
      FeedByte(data, i, refIn, p, init);
      ghost var result := FeedAll(crc, byte, p);
      for j := 0 to 8
        invariant |crc| == 16 && FeedAll(crc, byte[j..], p) == result
      {
        var c15 := crc[0];
        var bit := byte[j];
        assert byte[j..][0] == bit && byte[j..][1..] == byte[j + 1..];
        crc := Left(crc);
        if c15 != bit { crc := Xor(crc, p); }
      }
    }
    assert data[..|data|] == data;
    if refOut { crc := Reversed(crc); }
    crc := Xor(crc, xorOut);
  }

  // ----- the fast reversals -----

  /** bit_lib_reverse_8_fast: the shuffles of nibbles, pairs and bits are a reversal. */
  method ReverseFast8(byte: bv8) returns (r: bv8)
    ensures && (r & 0x80 != 0 <==> byte & 0x01 != 0) && (r & 0x40 != 0 <==> byte & 0x02 != 0)
            && (r & 0x20 != 0 <==> byte & 0x04 != 0) && (r & 0x10 != 0 <==> byte & 0x08 != 0)
            && (r & 0x08 != 0 <==> byte & 0x10 != 0) && (r & 0x04 != 0 <==> byte & 0x20 != 0)
            && (r & 0x02 != 0 <==> byte & 0x40 != 0) && (r & 0x01 != 0 <==> byte & 0x80 != 0)
  {
    r := ((byte & 0xF0) >> 4) | ((byte & 0x0F) << 4);
    r := ((r & 0xCC) >> 2) | ((r & 0x33) << 2);
    r := ((r & 0xAA) >> 1) | ((r & 0x55) << 1);
  }

  /** bit_lib_reverse_16_fast */
  method ReverseFast16(w: bv16) returns (r: bv16)
    ensures && (r & 0x8000 != 0 <==> w & 0x0001 != 0) && (r & 0x4000 != 0 <==> w & 0x0002 != 0)
            && (r & 0x2000 != 0 <==> w & 0x0004 != 0) && (r & 0x1000 != 0 <==> w & 0x0008 != 0)
            && (r & 0x0800 != 0 <==> w & 0x0010 != 0) && (r & 0x0400 != 0 <==> w & 0x0020 != 0)
            && (r & 0x0200 != 0 <==> w & 0x0040 != 0) && (r & 0x0100 != 0 <==> w & 0x0080 != 0)
            && (r & 0x0080 != 0 <==> w & 0x0100 != 0) && (r & 0x0040 != 0 <==> w & 0x0200 != 0)
            && (r & 0x0020 != 0 <==> w & 0x0400 != 0) && (r & 0x0010 != 0 <==> w & 0x0800 != 0)
            && (r & 0x0008 != 0 <==> w & 0x1000 != 0) && (r & 0x0004 != 0 <==> w & 0x2000 != 0)
            && (r & 0x0002 != 0 <==> w & 0x4000 != 0) && (r & 0x0001 != 0 <==> w & 0x8000 != 0)
  {
    r := ((w & 0x8000) >> 15) | ((w & 0x4000) >> 13) | ((w & 0x2000) >> 11) | ((w & 0x1000) >> 9)
    | ((w & 0x0800) >> 7) | ((w & 0x0400) >> 5) | ((w & 0x0200) >> 3) | ((w & 0x0100) >> 1)
    | ((w & 0x0080) << 1) | ((w & 0x0040) << 3) | ((w & 0x0020) << 5) | ((w & 0x0010) << 7)
    | ((w & 0x0008) << 9) | ((w & 0x0004) << 11) | ((w & 0x0002) << 13) | ((w & 0x0001) << 15);
  }
}
