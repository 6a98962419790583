/**
 CRC32C (Castagnoli), the checksum every frame ends with, as the bit-reflected shift register of
 section 12.1 of RFC 3720: initial value and final complement all ones, least significant bit first.

 The register is clocked through a generic `Iterate`, so that facts about any number of clocks are
 proved once, over an abstract step, and the solver never has to unroll the polynomial.
 */
module Crc32c {

  type Byte = bv8

  const POLYNOMIAL: bv32 := 0x82F6_3B78
  const UNTAP: bv32 := 0x05EC_76F1 // the polynomial shifted back, with the bit the shift had dropped
  const ALL_ONES: bv32 := 0xFFFF_FFFF

  // ----- Iterating a step -----

  function Iterate<T>(step: T -> T, n: nat, x: T): T {
    if n == 0 then x else Iterate(step, n - 1, step(x))
  }

  lemma {:induction false} IterateLinear<T(!new)>(step: T -> T, op: (T, T) -> T, n: nat, a: T, b: T)
    requires forall x, y :: step(op(x, y)) == op(step(x), step(y))
    ensures Iterate(step, n, op(a, b)) == op(Iterate(step, n, a), Iterate(step, n, b))
  {
    if n != 0 {
      IterateLinear(step, op, n - 1, step(a), step(b));
    }
  }

  lemma {:induction false} IterateSum<T>(step: T -> T, m: nat, n: nat, x: T)
    ensures Iterate(step, m + n, x) == Iterate(step, n, Iterate(step, m, x))
  {
    if m != 0 {
      IterateSum(step, m - 1, n, step(x));
    }
  }

  lemma {:induction false} IterateInverse<T(!new)>(step: T -> T, back: T -> T, n: nat, x: T)
    requires forall y :: back(step(y)) == y
    ensures Iterate(back, n, Iterate(step, n, x)) == x
  {
    if n != 0 {
      IterateSum(step, n - 1, 1, x);
      IterateInverse(step, back, n - 1, x);
    }
  }

  // ----- The shift register -----

  function Xor(a: bv32, b: bv32): bv32 {
    a ^ b
  }

  function Clock(c: bv32): bv32 {
    if c & 1 == 1 then Xor(Half(c), POLYNOMIAL) else Half(c)
  }

  /** The inverse clock: the polynomial has its top bit set, so the top bit tells which branch was taken. */
  function Unclock(c: bv32): bv32 {
    if c & 0x8000_0000 != 0 then Xor(Twice(c), UNTAP) else Twice(c)
  }

  function Shift(n: nat, c: bv32): bv32 {
    Iterate(Clock, n, c)
  }

  function Unshift(n: nat, c: bv32): bv32 {
    Iterate(Unclock, n, c)
  }

  lemma XorCommutes(a: bv32, b: bv32)
    ensures Xor(a, b) == Xor(b, a)
  {
  }

  lemma XorAssociates(a: bv32, b: bv32, c: bv32)
    ensures Xor(Xor(a, b), c) == Xor(a, Xor(b, c))
  {
  }

  lemma XorSelf(a: bv32)
    ensures Xor(a, a) == 0
  {
  }

  lemma XorZero(a: bv32)
    ensures Xor(a, 0) == a && Xor(0, a) == a
  {
  }

  lemma XorInterchanges(p: bv32, q: bv32, r: bv32, s: bv32)
    ensures Xor(Xor(p, q), Xor(r, s)) == Xor(Xor(p, r), Xor(q, s))
  {
    XorAssociates(p, q, Xor(r, s));
    XorAssociates(q, r, s);
    XorCommutes(q, r);
    XorAssociates(r, q, s);
    XorAssociates(p, r, Xor(q, s));
  }

  function Half(c: bv32): bv32 {
    c >> 1
  }

  function Twice(c: bv32): bv32 {
    c << 1
  }

  function Tap(c: bv32): bv32 {
    if c & 1 == 1 then POLYNOMIAL else 0
  }

  function Untap(c: bv32): bv32 {
    if c & 0x8000_0000 != 0 then UNTAP else 0
  }

  lemma ClockParts(c: bv32)
    ensures Clock(c) == Xor(Half(c), Tap(c))
  {
    if c & 1 != 1 {
      XorZero(Half(c));
    }
  }

  lemma UnclockParts(c: bv32)
    ensures Unclock(c) == Xor(Twice(c), Untap(c))
  {
    if c & 0x8000_0000 == 0 {
      XorZero(Twice(c));
    }
  }

  lemma ShiftedXor(x: bv32, p: bv32, q: bv32)
    requires x == p ^ q
    ensures x >> 1 == (p >> 1) ^ (q >> 1)
    ensures x << 1 == (p << 1) ^ (q << 1)
  {
  }

  lemma HalfLinear(p: bv32, q: bv32)
    ensures Half(Xor(p, q)) == Xor(Half(p), Half(q))
  {
    ShiftedXor(Xor(p, q), p, q);
  }

  lemma TwiceLinear(p: bv32, q: bv32)
    ensures Twice(Xor(p, q)) == Xor(Twice(p), Twice(q))
  {
    ShiftedXor(Xor(p, q), p, q);
  }

  lemma TapLinear(p: bv32, q: bv32)
    ensures Tap(Xor(p, q)) == Xor(Tap(p), Tap(q))
  {
  }

  lemma UntapLinear(p: bv32, q: bv32)
    ensures Untap(Xor(p, q)) == Xor(Untap(p), Untap(q))
  {
  }

  lemma ClockLinear(a: bv32, b: bv32)
    ensures Clock(Xor(a, b)) == Xor(Clock(a), Clock(b))
  {
    ClockParts(a);
    ClockParts(b);
    ClockParts(Xor(a, b));
    HalfLinear(a, b);
    TapLinear(a, b);
    XorInterchanges(Half(a), Half(b), Tap(a), Tap(b));
  }

  lemma UnclockLinear(a: bv32, b: bv32)
    ensures Unclock(Xor(a, b)) == Xor(Unclock(a), Unclock(b))
  {
    UnclockParts(a);
    UnclockParts(b);
    UnclockParts(Xor(a, b));
    TwiceLinear(a, b);
    UntapLinear(a, b);
    XorInterchanges(Twice(a), Twice(b), Untap(a), Untap(b));
  }

  lemma UnclockClock(c: bv32)
    ensures Unclock(Clock(c)) == c
  {
  }

  lemma ShiftLinear(n: nat, a: bv32, b: bv32)
    ensures Shift(n, Xor(a, b)) == Xor(Shift(n, a), Shift(n, b))
  {
    forall x, y ensures Clock(Xor(x, y)) == Xor(Clock(x), Clock(y)) {
      ClockLinear(x, y);
    }
    IterateLinear(Clock, Xor, n, a, b);
  }

  lemma UnshiftShift(n: nat, c: bv32)
    ensures Unshift(n, Shift(n, c)) == c
  {
    forall x ensures Unclock(Clock(x)) == x {
      UnclockClock(x);
    }
    IterateInverse(Clock, Unclock, n, c);
  }

  /** Clocking is injective: no two register states ever merge. */
  lemma ShiftInjective(n: nat, a: bv32, b: bv32)
    requires Shift(n, a) == Shift(n, b)
    ensures a == b
  {
    UnshiftShift(n, a);
    UnshiftShift(n, b);
  }

  lemma {:induction false} ShiftZero(n: nat)
    ensures Shift(n, 0) == 0
  {
    if n != 0 {
      ShiftZero(n - 1);
    }
  }

  /** Bits that the next eight clocks do not reach only move down. */
  lemma ShiftHighBytes(w: bv32)
    requires w & 0xFF == 0
    ensures Shift(8, w) == w >> 8
  {
    var c1, c2, c3, c4 := w >> 1, w >> 2, w >> 3, w >> 4;
    var c5, c6, c7, c8 := w >> 5, w >> 6, w >> 7, w >> 8;
    assert Clock(w) == c1 && Clock(c1) == c2 && Clock(c2) == c3 && Clock(c3) == c4;
    assert Clock(c4) == c5 && Clock(c5) == c6 && Clock(c6) == c7 && Clock(c7) == c8;
    IterateSum(Clock, 4, 4, w);
    assert Shift(4, w) == c4;
    assert Shift(4, c4) == c8;
  }

  // ----- Feeding bytes -----

  function Feed(c: bv32, b: Byte): bv32 {
    Shift(8, Xor(c, b as bv32))
  }

  function FeedAll(c: bv32, data: seq<Byte>): bv32
    decreases |data|
  {
    if data == [] then c else FeedAll(Feed(c, data[0]), data[1..])
  }

  /** `crc32.Checksum(data, crc32.MakeTable(crc32.Castagnoli))`. */
  function Checksum(data: seq<Byte>): bv32 {
    Xor(FeedAll(ALL_ONES, data), ALL_ONES)
  }

  lemma {:induction false} FeedAllConcat(c: bv32, a: seq<Byte>, b: seq<Byte>)
    ensures FeedAll(c, a + b) == FeedAll(FeedAll(c, a), b)
    decreases |a|
  {
    if a == [] {
      assert a + b == b;
    } else {
      assert (a + b)[1..] == a[1..] + b;
      FeedAllConcat(Feed(c, a[0]), a[1..], b);
    }
  }

  lemma CheckValueParts()
    ensures FeedAll(0xFFFF_FFFF, [0x31, 0x32, 0x33]) == 0xEF84_D04D
    ensures FeedAll(0xEF84_D04D, [0x34, 0x35, 0x36]) == 0xBECA_8E79
    ensures FeedAll(0xBECA_8E79, [0x37, 0x38, 0x39]) == 0x1CF9_6D7C
  {
    assert Feed(0xFFFF_FFFF, 0x31) == 0x6F0A_661C;
    assert Feed(0x6F0A_661C, 0x32) == 0x8CAA_3B9F;
    assert Feed(0x8CAA_3B9F, 0x33) == 0xEF84_D04D;
    assert Feed(0xEF84_D04D, 0x34) == 0x09C5_0B11;
    assert Feed(0x09C5_0B11, 0x35) == 0xE72E_DCCA;
    assert Feed(0xE72E_DCCA, 0x36) == 0xBECA_8E79;
    assert Feed(0xBECA_8E79, 0x37) == 0xEDBD_6815;
    assert Feed(0xEDBD_6815, 0x38) == 0x9F78_7F65;
    assert Feed(0x9F78_7F65, 0x39) == 0x1CF9_6D7C;
  }

  /** The published check value of CRC32C: the checksum of the nine digits "123456789". */
  lemma CheckValue()
    ensures Checksum([0x31, 0x32, 0x33, 0x34, 0x35, 0x36, 0x37, 0x38, 0x39]) == 0xE306_9283
  {
    var a: seq<Byte>, b: seq<Byte>, c: seq<Byte> := [0x31, 0x32, 0x33], [0x34, 0x35, 0x36], [0x37, 0x38, 0x39];
    CheckValueParts();
    FeedAllConcat(ALL_ONES, a, b);
    FeedAllConcat(ALL_ONES, a + b, c);
    assert a + b + c == [0x31, 0x32, 0x33, 0x34, 0x35, 0x36, 0x37, 0x38, 0x39];
  }

  // ----- Differences between two messages -----

  function Difference(a: seq<Byte>, b: seq<Byte>): (d: seq<Byte>)
    requires |a| == |b|
    ensures |d| == |a|
    ensures forall i :: 0 <= i < |d| ==> d[i] == a[i] ^ b[i]
  {
    seq(|a|, i requires 0 <= i < |a| => a[i] ^ b[i])
  }

  /** The register contribution of a difference alone. */
  function Residue(d: seq<Byte>): bv32 {
    FeedAll(0, d)
  }

  lemma FeedLinear(c: bv32, e: bv32, x: Byte, y: Byte)
    ensures Feed(Xor(c, e), x ^ y) == Xor(Feed(c, x), Feed(e, y))
  {
    var p, q := x as bv32, y as bv32;
    assert (x ^ y) as bv32 == Xor(p, q);
    XorInterchanges(c, e, p, q);
    ShiftLinear(8, Xor(c, p), Xor(e, q));
  }

  lemma {:induction false} FeedAllLinear(c: bv32, e: bv32, a: seq<Byte>, b: seq<Byte>)
    requires |a| == |b|
    ensures FeedAll(Xor(c, e), Difference(a, b)) == Xor(FeedAll(c, a), FeedAll(e, b))
    decreases |a|
  {
    if a != [] {
      FeedLinear(c, e, a[0], b[0]);
      FeedAllLinear(Feed(c, a[0]), Feed(e, b[0]), a[1..], b[1..]);
      assert Difference(a, b)[1..] == Difference(a[1..], b[1..]);
    }
  }

  lemma XorCancels(p: bv32, q: bv32, r: bv32)
    ensures Xor(Xor(p, r), Xor(q, r)) == Xor(p, q)
  {
    XorInterchanges(p, r, q, r);
    XorSelf(r);
    XorZero(Xor(p, q));
  }

  lemma ResidueOfDifference(c: bv32, a: seq<Byte>, b: seq<Byte>)
    requires |a| == |b|
    ensures Residue(Difference(a, b)) == Xor(FeedAll(c, a), FeedAll(c, b))
  {
    FeedAllLinear(c, c, a, b);
    assert Xor(c, c) == 0;
  }

  /** Two checksums differ by exactly the residue of the difference, whatever the messages. */
  lemma ChecksumDifference(a: seq<Byte>, b: seq<Byte>)
    requires |a| == |b|
    ensures Xor(Checksum(a), Checksum(b)) == Residue(Difference(a, b))
  {
    ResidueOfDifference(ALL_ONES, a, b);
    XorCancels(FeedAll(ALL_ONES, a), FeedAll(ALL_ONES, b), ALL_ONES);
  }

  predicate AllZero(d: seq<Byte>) {
    forall i :: 0 <= i < |d| ==> d[i] == 0
  }

  lemma {:induction false} FeedZeros(c: bv32, z: seq<Byte>)
    requires AllZero(z)
    ensures FeedAll(c, z) == Shift(8 * |z|, c)
    decreases |z|
  {
    if z != [] {
      assert Xor(c, 0) == c;
      IterateSum(Clock, 8, 8 * (|z| - 1), c);
      FeedZeros(Feed(c, z[0]), z[1..]);
    }
  }

  // ----- Differences of at most four bytes -----

  /** Up to four bytes as one register value, first byte lowest. */
  function Pack(xs: seq<Byte>): bv32
    requires |xs| <= 4
    decreases |xs|
  {
    if xs == [] then 0 else (xs[0] as bv32) | (Pack(xs[1..]) << 8)
  }

  lemma PackBound(xs: seq<Byte>)
    requires |xs| <= 3
    ensures Pack(xs) <= 0xFF_FFFF
    ensures |xs| <= 2 ==> Pack(xs) <= 0xFFFF
    ensures |xs| <= 1 ==> Pack(xs) <= 0xFF
    decreases |xs|
  {
    if xs != [] {
      PackBound(xs[1..]);
    }
  }

  lemma {:induction false} PackZero(xs: seq<Byte>)
    requires |xs| <= 4
    requires Pack(xs) == 0
    ensures AllZero(xs)
    decreases |xs|
  {
    if xs != [] {
      PackBound(xs[1..]);
      PackConsZero(xs[0], Pack(xs[1..]));
      PackZero(xs[1..]);
      assert forall i :: 1 <= i < |xs| ==> xs[i] == xs[1..][i - 1];
    }
  }

  lemma PackConsZero(x: Byte, rest: bv32)
    requires rest <= 0xFF_FFFF && (x as bv32) | (rest << 8) == 0
    ensures x == 0 && rest == 0
  {
  }

  lemma PackConsXor(x: Byte, rest: bv32, c: bv32)
    requires rest <= 0xFF_FFFF
    ensures Xor(c, (x as bv32) | (rest << 8)) == Xor(rest << 8, Xor(c, x as bv32))
    ensures (rest << 8) & 0xFF == 0 && (rest << 8) >> 8 == rest
  {
  }

  /** Bytes not yet fed can wait above the register while the one before them is shifted out. */
  lemma ShiftAhead(rest: bv32, c: bv32)
    requires rest & 0xFF == 0
    ensures Shift(8, Xor(rest, c)) == Xor(rest >> 8, Shift(8, c))
  {
    ShiftLinear(8, rest, c);
    ShiftHighBytes(rest);
  }

  lemma FeedFirstOfPacked(c: bv32, x: Byte, tail: bv32)
    requires tail <= 0xFF_FFFF
    ensures Shift(8, Xor(c, (x as bv32) | (tail << 8))) == Xor(Feed(c, x), tail)
  {
    PackConsXor(x, tail, c);
    ShiftAhead(tail << 8, Xor(c, x as bv32));
    XorCommutes(tail, Feed(c, x));
  }

  lemma ShiftPackedStep(c: bv32, x: Byte, tail: bv32, more: nat)
    requires tail <= 0xFF_FFFF
    ensures Shift(8 * (more + 1), Xor(c, (x as bv32) | (tail << 8))) == Shift(8 * more, Xor(Feed(c, x), tail))
  {
    FeedFirstOfPacked(c, x, tail);
    IterateSum(Clock, 8, 8 * more, Xor(c, (x as bv32) | (tail << 8)));
  }

  /** Feeding up to four bytes one by one is loading them at once and clocking. */
  lemma {:induction false} FeedPacked(c: bv32, xs: seq<Byte>)
    requires |xs| <= 4
    ensures FeedAll(c, xs) == Shift(8 * |xs|, Xor(c, Pack(xs)))
    decreases |xs|
  {
    if xs == [] {
      assert Xor(c, 0) == c;
    } else {
      PackBound(xs[1..]);
      ShiftPackedStep(c, xs[0], Pack(xs[1..]), |xs| - 1);
      FeedPacked(Feed(c, xs[0]), xs[1..]);
    }
  }

  /** Any difference confined to at most four bytes, anywhere in the message, changes the checksum. */
  lemma ShortDifferenceResidue(before: seq<Byte>, xs: seq<Byte>, after: seq<Byte>)
    requires AllZero(before) && AllZero(after) && |xs| <= 4
    ensures Residue(before + xs + after) == Shift(8 * |after|, Shift(8 * |xs|, Pack(xs)))
    ensures Residue(before + xs + after) == 0 ==> AllZero(xs)
  {
    FeedAllConcat(0, before + xs, after);
    FeedAllConcat(0, before, xs);
    FeedZeros(0, before);
    ShiftZero(8 * |before|);
    FeedPacked(0, xs);
    assert Xor(0, Pack(xs)) == Pack(xs);
    FeedZeros(FeedAll(0, xs), after);
    if Residue(before + xs + after) == 0 {
      ShiftZero(8 * |after|);
      ShiftInjective(8 * |after|, Shift(8 * |xs|, Pack(xs)), 0);
      ShiftZero(8 * |xs|);
      ShiftInjective(8 * |xs|, Pack(xs), 0);
      PackZero(xs);
    }
  }

  // ----- Differences that reach into the stored checksum -----

  function UnclockByte(c: bv32): bv32 {
    Unclock(Unclock(Unclock(Unclock(Unclock(Unclock(Unclock(Unclock(c))))))))
  }

  function ClockByte(c: bv32): bv32 {
    Clock(Clock(Clock(Clock(Clock(Clock(Clock(Clock(c))))))))
  }

  lemma UnshiftByte(c: bv32)
    ensures Unshift(8, c) == UnclockByte(c)
  {
  }

  lemma ShiftByte(c: bv32)
    ensures Shift(8, c) == ClockByte(c)
  {
  }

  lemma UnshiftLinear(n: nat, a: bv32, b: bv32)
    ensures Unshift(n, Xor(a, b)) == Xor(Unshift(n, a), Unshift(n, b))
  {
    forall x, y ensures Unclock(Xor(x, y)) == Xor(Unclock(x), Unclock(y)) {
      UnclockLinear(x, y);
    }
    IterateLinear(Unclock, Xor, n, a, b);
  }

  lemma {:induction false} UnshiftZero(n: nat)
    ensures Unshift(n, 0) == 0
  {
    if n != 0 {
      UnshiftZero(n - 1);
    }
  }

  /** No register value of three bytes leaves its low three bytes clear after three byte shifts ... */
  lemma ThreeBytesNeverClear(x: bv32)
    requires x <= 0xFF_FFFF && Shift(24, x) & 0xFF_FFFF == 0
    ensures x == 0
  {
    UnshiftShift(24, x);
    UnshiftTopByte(Shift(24, x));
    ShiftZero(24);
    ShiftInjective(24, x, 0);
  }

  /** One bit's share of three byte shifts backwards. */
  function Share(s: bv32, bit: bv32, image: bv32): bv32 {
    if s & bit != 0 then image else 0
  }

  lemma UnshiftThreeBytes(bit: bv32)
    ensures Unshift(24, bit) == UnclockByte(UnclockByte(UnclockByte(bit)))
  {
    IterateSum(Unclock, 8, 16, bit);
    IterateSum(Unclock, 8, 8, Unshift(8, bit));
    UnshiftByte(bit);
    UnshiftByte(Unshift(8, bit));
    UnshiftByte(Unshift(16, bit));
  }

  lemma UnshiftPeel(s: bv32, bit: bv32, image: bv32)
    requires Unshift(24, bit) == image && (s & bit == 0 || s & bit == bit)
    ensures Unshift(24, s) == Xor(Unshift(24, s & !bit), Share(s, bit, image))
  {
    assert s == Xor(s & !bit, s & bit);
    UnshiftLinear(24, s & !bit, s & bit);
    UnshiftZero(24);
  }

  lemma HighUpperImages()
    ensures Unshift(24, 0x8000_0000) == 0xDD36_FBFC
    ensures Unshift(24, 0x4000_0000) == 0x6E9B_7DFE
  {
    UnshiftThreeBytes(0x8000_0000);
    UnshiftThreeBytes(0x4000_0000);
  }

  lemma HighLowerImages()
    ensures Unshift(24, 0x2000_0000) == 0x374D_BEFF
    ensures Unshift(24, 0x1000_0000) == 0x9950_E407
  {
    UnshiftThreeBytes(0x2000_0000);
    UnshiftThreeBytes(0x1000_0000);
  }

  lemma UnshiftHighNibble(s: bv32)
    requires s & 0x0FFF_FFFF == 0
    ensures Unshift(24, s) == Xor(Xor(Share(s, 0x8000_0000, 0xDD36_FBFC), Share(s, 0x4000_0000, 0x6E9B_7DFE)),
                                  Xor(Share(s, 0x2000_0000, 0x374D_BEFF), Share(s, 0x1000_0000, 0x9950_E407)))
  {
    HighUpperImages();
    HighLowerImages();
    UnshiftPeel(s, 0x8000_0000, 0xDD36_FBFC);
    var s7 := s & !0x8000_0000;
    UnshiftPeel(s7, 0x4000_0000, 0x6E9B_7DFE);
    var s6 := s7 & !0x4000_0000;
    UnshiftPeel(s6, 0x2000_0000, 0x374D_BEFF);
    var s5 := s6 & !0x2000_0000;
    UnshiftPeel(s5, 0x1000_0000, 0x9950_E407);
    UnshiftZero(24);
  }

  lemma LowUpperImages()
    ensures Unshift(24, 0x0800_0000) == 0xCE5E_497B
    ensures Unshift(24, 0x0400_0000) == 0xE5D9_1FC5
  {
    UnshiftThreeBytes(0x0800_0000);
    UnshiftThreeBytes(0x0400_0000);
  }

  lemma LowLowerImages()
    ensures Unshift(24, 0x0200_0000) == 0xF01A_B49A
    ensures Unshift(24, 0x0100_0000) == 0x780D_5A4D
  {
    UnshiftThreeBytes(0x0200_0000);
    UnshiftThreeBytes(0x0100_0000);
  }

  lemma UnshiftLowNibble(s: bv32)
    requires s & 0xF0FF_FFFF == 0
    ensures Unshift(24, s) == Xor(Xor(Share(s, 0x0800_0000, 0xCE5E_497B), Share(s, 0x0400_0000, 0xE5D9_1FC5)),
                                  Xor(Share(s, 0x0200_0000, 0xF01A_B49A), Share(s, 0x0100_0000, 0x780D_5A4D)))
  {
    LowUpperImages();
    LowLowerImages();
    UnshiftPeel(s, 0x0800_0000, 0xCE5E_497B);
    var s3 := s & !0x0800_0000;
    UnshiftPeel(s3, 0x0400_0000, 0xE5D9_1FC5);
    var s2 := s3 & !0x0400_0000;
    UnshiftPeel(s2, 0x0200_0000, 0xF01A_B49A);
    var s1 := s2 & !0x0200_0000;
    UnshiftPeel(s1, 0x0100_0000, 0x780D_5A4D);
    UnshiftZero(24);
  }

  /** Three byte shifts backwards spread any nonzero top byte into the top byte again. */
  lemma UnshiftTopByte(s: bv32)
    requires s & 0xFF_FFFF == 0 && Unshift(24, s) <= 0xFF_FFFF
    ensures s == 0
  {
    var high, low := s & 0xF000_0000, s & 0x0F00_0000;
    assert s == Xor(high, low);
    UnshiftLinear(24, high, low);
    UnshiftHighNibble(high);
    UnshiftLowNibble(low);
  }

  /** ... and no single byte clears the low two bytes with one ... */
  lemma OneByteNeverClearsTwo(x: bv32)
    requires x <= 0xFF && Shift(8, x) & 0xFFFF == 0
    ensures x == 0
  {
    ShiftByte(x);
  }

  /** ... but one byte can clear its own low byte, and two bytes their own two. */
  lemma ClearingDifferences()
    ensures Shift(8, 0x5D) == 0xEE0D_9600
    ensures Shift(16, 0x904D) == 0xAD83_0000
  {
    ShiftByte(0x5D);
    IterateSum(Clock, 8, 8, 0x904D);
    ShiftByte(0x904D);
    ShiftByte(Shift(8, 0x904D));
  }
}
