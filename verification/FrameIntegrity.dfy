/**
 What the checksum detects. A corrupted buffer of the right length is accepted exactly when it
 keeps the header fields and the checksum difference equals the residue of the data difference;
 from that, which corruptions confined to four consecutive bytes can slip through.

 The register works least significant bit first but the checksum is stored big-endian, so a window
 that covers the end of the data and the start of the checksum is not a burst of the code. Those
 windows are settled one by one, by how many data bytes they cover.
 */
module FrameIntegrity {
  import opened Crc32c
  import opened Frames

  ghost predicate DiffersOnlyIn(a: seq<Byte>, b: seq<Byte>, lo: nat, hi: nat) {
    |a| == |b| && forall i :: 0 <= i < |a| && !(lo <= i < hi) ==> a[i] == b[i]
  }

  /** Everything before the checksum. */
  function Data(frame: seq<Byte>): seq<Byte>
    requires |frame| >= CRC_SIZE
  {
    frame[..|frame| - CRC_SIZE]
  }

  function Stored(frame: seq<Byte>): bv32
    requires |frame| >= CRC_SIZE
  {
    GetWord(frame[|frame| - CRC_SIZE..])
  }

  ghost predicate SameFields(a: seq<Byte>, b: seq<Byte>)
    requires |a| == |b| >= HEADER_SIZE
  {
    a[0] == b[0] && a[1] == b[1] && a[2] == b[2] && a[4..8] == b[4..8]
  }

  lemma LengthInjective(a: seq<Byte>, b: seq<Byte>)
    requires |a| == 4 && |b| == 4 && GetLength(a) == GetLength(b)
    ensures a == b
  {
    PutGetLength(a);
    PutGetLength(b);
  }

  lemma WordInjective(a: seq<Byte>, b: seq<Byte>)
    requires |a| == 4 && |b| == 4 && GetWord(a) == GetWord(b)
    ensures a == b
  {
    PutGetWord(a);
    PutGetWord(b);
  }

  /** Acceptance of a buffer of the same length, field by field. */
  lemma AcceptedFields(m: Message, b: seq<Byte>)
    requires WellFormed(m) && |b| == |Encode(m)|
    ensures Decode(b).Ok? <==> SameFields(Encode(m), b) && Stored(b) == Checksum(Data(b))
  {
    var a := Encode(m);
    EncodedParts(m);
    if Decode(b).Ok? {
      LengthInjective(a[4..8], b[4..8]);
    }
  }

  lemma XorMoves(p: bv32, q: bv32, r: bv32, s: bv32)
    requires p == r
    ensures q == s <==> Xor(p, q) == Xor(r, s)
  {
    if Xor(p, q) == Xor(r, s) {
      XorAssociates(p, p, q);
      XorAssociates(p, p, s);
      XorSelf(p);
      XorZero(q);
      XorZero(s);
    }
  }

  /** The checks a changed buffer has to pass, in terms of the difference alone. */
  ghost predicate Passes(a: seq<Byte>, b: seq<Byte>)
    requires |a| == |b| >= MIN_FRAME_SIZE
  {
    && SameFields(a, b)
    && Xor(Stored(a), Stored(b)) == Residue(Difference(Data(a), Data(b)))
  }

  /** The undetected corruptions of a frame, exactly. */
  lemma AcceptedExactly(m: Message, b: seq<Byte>)
    requires WellFormed(m) && |b| == |Encode(m)|
    ensures Decode(b).Ok? <==> Passes(Encode(m), b)
  {
    var a := Encode(m);
    AcceptedFields(m, b);
    EncodedParts(m);
    assert Stored(a) == Checksum(Data(a));
    ChecksumDifference(Data(a), Data(b));
    XorMoves(Stored(a), Stored(b), Checksum(Data(a)), Checksum(Data(b)));
  }

  lemma ZeroDifference(x: Byte, y: Byte)
    ensures x ^ y == 0 <==> x == y
  {
  }

  lemma DifferenceZero(a: seq<Byte>, b: seq<Byte>)
    requires |a| == |b|
    ensures forall i :: 0 <= i < |a| ==> (Difference(a, b)[i] == 0 <==> a[i] == b[i])
    ensures AllZero(Difference(a, b)) <==> a == b
  {
    forall i | 0 <= i < |a| ensures Difference(a, b)[i] == 0 <==> a[i] == b[i] {
      ZeroDifference(a[i], b[i]);
    }
  }

  lemma EqualWords(p: bv32, q: bv32)
    requires Xor(p, q) == 0
    ensures p == q
  {
    XorSelf(p);
    XorMoves(p, p, p, q);
  }

  /** The residue of a difference confined to a window of at most four data bytes. */
  lemma WindowResidue(a: seq<Byte>, b: seq<Byte>, lo: nat, hi: nat)
    requires |a| == |b| && lo <= hi <= |a| && hi - lo <= 4 && DiffersOnlyIn(a, b, lo, hi)
    ensures var xs := Difference(a, b)[lo..hi];
            Residue(Difference(a, b)) == Shift(8 * (|a| - hi), Shift(8 * (hi - lo), Pack(xs)))
    ensures Residue(Difference(a, b)) == 0 ==> a == b
  {
    var d := Difference(a, b);
    DifferenceZero(a, b);
    assert d == d[..lo] + d[lo..hi] + d[hi..];
    ShortDifferenceResidue(d[..lo], d[lo..hi], d[hi..]);
    if Residue(d) == 0 {
      assert forall i :: lo <= i < hi ==> d[i] == d[lo..hi][i - lo];
    }
  }

  /** The same for a window at the very end of the data. */
  lemma TailResidue(a: seq<Byte>, b: seq<Byte>, xs: seq<Byte>)
    requires |a| == |b| >= |xs| && |xs| <= 4 && DiffersOnlyIn(a, b, |a| - |xs|, |a|)
    requires Difference(a, b)[|a| - |xs|..] == xs
    ensures Residue(Difference(a, b)) == Shift(8 * |xs|, Pack(xs))
  {
    var d := Difference(a, b);
    assert d[|a| - |xs|..|a|] == d[|a| - |xs|..];
    WindowResidue(a, b, |a| - |xs|, |a|);
  }

  lemma StoredInjective(a: seq<Byte>, b: seq<Byte>)
    requires |a| == |b| >= CRC_SIZE && Stored(a) == Stored(b)
    ensures a[|a| - CRC_SIZE..] == b[|b| - CRC_SIZE..]
  {
    WordInjective(a[|a| - CRC_SIZE..], b[|b| - CRC_SIZE..]);
  }

  lemma FrameParts(a: seq<Byte>, b: seq<Byte>)
    requires |a| == |b| >= CRC_SIZE && Data(a) == Data(b)
    requires a[|a| - CRC_SIZE..] == b[|b| - CRC_SIZE..]
    ensures a == b
  {
    assert a == Data(a) + a[|a| - CRC_SIZE..];
    assert b == Data(b) + b[|b| - CRC_SIZE..];
  }

  /** A buffer that passes with its data unchanged, or with its checksum unchanged, is unchanged. */
  lemma PassesUnchanged(a: seq<Byte>, b: seq<Byte>, lo: nat, hi: nat)
    requires |a| == |b| >= MIN_FRAME_SIZE && Passes(a, b)
    requires lo <= hi <= |a| - CRC_SIZE && hi - lo <= 4 && DiffersOnlyIn(Data(a), Data(b), lo, hi)
    requires Data(a) == Data(b) || a[|a| - CRC_SIZE..] == b[|b| - CRC_SIZE..]
    ensures a == b
  {
    WindowResidue(Data(a), Data(b), lo, hi);
    if Data(a) == Data(b) {
      DifferenceZero(Data(a), Data(b));
      FeedZeros(0, Difference(Data(a), Data(b)));
      ShiftZero(8 * |Data(a)|);
      EqualWords(Stored(a), Stored(b));
      StoredInjective(a, b);
    } else {
      XorSelf(Stored(a));
    }
    FrameParts(a, b);
  }

  /** Windows that lie wholly in the data, or wholly in the checksum, let nothing through. */
  lemma OneSidedWindow(a: seq<Byte>, b: seq<Byte>, lo: nat)
    requires |a| == |b| >= MIN_FRAME_SIZE && Passes(a, b) && DiffersOnlyIn(a, b, lo, lo + 4)
    requires lo + 4 <= |a| - CRC_SIZE || lo >= |a| - CRC_SIZE
    ensures a == b
  {
    if lo >= |a| - CRC_SIZE {
      assert Data(a) == Data(b);
      PassesUnchanged(a, b, 0, 0);
    } else {
      PassesUnchanged(a, b, lo, lo + 4);
    }
  }

  // ----- Windows that straddle the start of the checksum -----

  /** The checksum bytes such a window leaves alone are the low ones, as many as it covers data bytes. */
  lemma StraddlingStored(a: seq<Byte>, b: seq<Byte>, k: nat)
    requires |a| == 4 && |b| == 4 && 1 <= k <= 3
    requires forall i :: 4 - k <= i < 4 ==> a[i] == b[i]
    ensures Xor(GetWord(a), GetWord(b)) & 0xFF == 0
    ensures k >= 2 ==> Xor(GetWord(a), GetWord(b)) & 0xFFFF == 0
    ensures k >= 3 ==> Xor(GetWord(a), GetWord(b)) & 0xFF_FFFF == 0
  {
    assert a[3] == b[3];
    if k >= 2 {
      assert a[2] == b[2];
    }
    if k >= 3 {
      assert a[1] == b[1];
    }
  }

  ghost predicate Straddles(a: seq<Byte>, b: seq<Byte>, k: nat) {
    |a| == |b| >= MIN_FRAME_SIZE && 1 <= k <= 3
    && DiffersOnlyIn(a, b, |a| - CRC_SIZE - k, |a| - k)
  }

  /** The difference in the last `k` data bytes. */
  function Last(a: seq<Byte>, b: seq<Byte>, k: nat): (xs: seq<Byte>)
    requires |a| == |b| >= CRC_SIZE + k
    ensures |xs| == k
  {
    Difference(Data(a), Data(b))[|a| - CRC_SIZE - k..]
  }

  lemma StraddlingPasses(a: seq<Byte>, b: seq<Byte>, k: nat)
    requires Straddles(a, b, k) && Passes(a, b)
    ensures Shift(8 * k, Pack(Last(a, b, k))) == Xor(Stored(a), Stored(b))
  {
    TailResidue(Data(a), Data(b), Last(a, b, k));
  }

  lemma StraddlingClear(a: seq<Byte>, b: seq<Byte>, k: nat)
    requires Straddles(a, b, k)
    ensures Xor(Stored(a), Stored(b)) & 0xFF == 0
    ensures k >= 2 ==> Xor(Stored(a), Stored(b)) & 0xFFFF == 0
    ensures k >= 3 ==> Xor(Stored(a), Stored(b)) & 0xFF_FFFF == 0
  {
    StraddlingStored(a[|a| - CRC_SIZE..], b[|b| - CRC_SIZE..], k);
  }

  lemma StraddlingUnchanged(a: seq<Byte>, b: seq<Byte>, k: nat)
    requires Straddles(a, b, k) && Passes(a, b) && Pack(Last(a, b, k)) == 0
    ensures a == b
  {
    StraddlingPasses(a, b, k);
    ShiftZero(8 * k);
    WindowResidue(Data(a), Data(b), |a| - CRC_SIZE - k, |a| - CRC_SIZE);
    PassesUnchanged(a, b, 0, 0);
  }

  lemma ThreeDataBytes(a: seq<Byte>, b: seq<Byte>)
    requires Straddles(a, b, 3) && Passes(a, b)
    ensures a == b
  {
    StraddlingPasses(a, b, 3);
    StraddlingClear(a, b, 3);
    PackBound(Last(a, b, 3));
    ThreeBytesNeverClear(Pack(Last(a, b, 3)));
    StraddlingUnchanged(a, b, 3);
  }

  lemma PackSecondOnly(xs: seq<Byte>)
    requires |xs| == 2 && xs[0] == 0
    ensures Pack(xs) == (xs[1] as bv32) << 8
    ensures xs[1] == 0 ==> Pack(xs) == 0
  {
    assert Pack(xs[1..]) == xs[1] as bv32;
  }

  lemma ShiftSecondOnly(x: Byte)
    requires Shift(16, (x as bv32) << 8) & 0xFFFF == 0
    ensures x == 0
  {
    var w := (x as bv32) << 8;
    IterateSum(Clock, 8, 8, w);
    assert w & 0xFF == 0 && w >> 8 == x as bv32;
    ShiftHighBytes(w);
    OneByteNeverClearsTwo(x as bv32);
  }

  /** A byte of the length field cannot have changed. */
  lemma LengthByteKept(a: seq<Byte>, b: seq<Byte>, k: nat)
    requires |a| == |b| >= MIN_FRAME_SIZE && SameFields(a, b) && 1 <= k <= 3 && 4 <= |a| - CRC_SIZE - k < 8
    ensures Last(a, b, k)[0] == 0
  {
    var lo := |a| - CRC_SIZE - k;
    assert a[lo] == a[4..8][lo - 4];
    assert b[lo] == b[4..8][lo - 4];
    DifferenceZero(Data(a), Data(b));
  }

  lemma TwoDataBytes(a: seq<Byte>, b: seq<Byte>)
    requires Straddles(a, b, 2) && Passes(a, b) && |a| <= MIN_FRAME_SIZE + 1
    ensures a == b
  {
    LengthByteKept(a, b, 2);
    StraddlingPasses(a, b, 2);
    StraddlingClear(a, b, 2);
    PackSecondOnly(Last(a, b, 2));
    ShiftSecondOnly(Last(a, b, 2)[1]);
    StraddlingUnchanged(a, b, 2);
  }

  lemma OneDataByte(a: seq<Byte>, b: seq<Byte>)
    requires Straddles(a, b, 1) && Passes(a, b) && |a| == MIN_FRAME_SIZE
    ensures a == b
  {
    LengthByteKept(a, b, 1);
    assert Last(a, b, 1)[1..] == [];
    StraddlingUnchanged(a, b, 1);
  }

  // ----- The two windows that do let something through -----

  function Masked(bytes: seq<Byte>, xs: seq<Byte>): (r: seq<Byte>)
    requires |bytes| == |xs|
    ensures |r| == |xs|
    ensures forall i :: 0 <= i < |r| ==> r[i] == bytes[i] ^ xs[i]
  {
    seq(|xs|, i requires 0 <= i < |xs| => bytes[i] ^ xs[i])
  }

  /** Data with its last `|xs|` bytes changed by given differences. */
  function MaskedTail(p: seq<Byte>, xs: seq<Byte>): (q: seq<Byte>)
    requires |p| >= |xs|
    ensures |q| == |p|
  {
    p[..|p| - |xs|] + Masked(p[|p| - |xs|..], xs)
  }

  lemma XorBack(x: Byte, y: Byte)
    ensures x ^ (x ^ y) == y
  {
  }

  lemma MaskedTailDifference(p: seq<Byte>, xs: seq<Byte>)
    requires |p| >= |xs|
    ensures DiffersOnlyIn(p, MaskedTail(p, xs), |p| - |xs|, |p|)
    ensures Difference(p, MaskedTail(p, xs))[|p| - |xs|..] == xs
  {
    var lo := |p| - |xs|;
    forall i | 0 <= i < |xs| ensures Difference(p, MaskedTail(p, xs))[lo..][i] == xs[i] {
      XorBack(p[lo + i], xs[i]);
    }
  }

  lemma MaskedTailResidue(p: seq<Byte>, xs: seq<Byte>)
    requires |p| >= |xs| && |xs| <= 4
    ensures Residue(Difference(p, MaskedTail(p, xs))) == Shift(8 * |xs|, Pack(xs))
  {
    MaskedTailDifference(p, xs);
    TailResidue(p, MaskedTail(p, xs), xs);
  }

  /** A frame with its last data bytes and its stored checksum changed by given differences. */
  function Tampered(a: seq<Byte>, xs: seq<Byte>, s: bv32): (b: seq<Byte>)
    requires |a| >= CRC_SIZE + |xs|
    ensures |b| == |a|
  {
    MaskedTail(Data(a), xs) + PutWord(Xor(Stored(a), s))
  }

  lemma TamperedStored(a: seq<Byte>, xs: seq<Byte>, s: bv32)
    requires |a| >= CRC_SIZE + |xs|
    ensures Xor(Stored(a), Stored(Tampered(a, xs, s))) == s
  {
    var b := Tampered(a, xs, s);
    var c := Stored(a);
    assert b[|b| - CRC_SIZE..] == PutWord(Xor(c, s));
    GetPutWord(Xor(c, s));
    XorAssociates(c, c, s);
    XorSelf(c);
    XorZero(s);
  }

  lemma TamperedParts(a: seq<Byte>, xs: seq<Byte>, s: bv32)
    requires |a| >= MIN_FRAME_SIZE + |xs|
    ensures SameFields(a, Tampered(a, xs, s))
    ensures Data(Tampered(a, xs, s)) == MaskedTail(Data(a), xs)
  {
    var b := Tampered(a, xs, s);
    assert forall i :: 0 <= i < HEADER_SIZE ==> b[i] == Data(a)[i] == a[i];
    assert a[4..8] == b[4..8];
  }

  lemma TamperedPasses(a: seq<Byte>, xs: seq<Byte>, s: bv32)
    requires |a| >= MIN_FRAME_SIZE + |xs| && |xs| <= 4 && Shift(8 * |xs|, Pack(xs)) == s
    ensures Passes(a, Tampered(a, xs, s))
  {
    TamperedParts(a, xs, s);
    TamperedStored(a, xs, s);
    MaskedTailResidue(Data(a), xs);
  }

  /** Where a checksum difference is clear, the stored bytes stay. */
  lemma ClearBytesKept(c: bv32, s: bv32)
    ensures s & 0xFF == 0 ==> PutWord(Xor(c, s))[3] == PutWord(c)[3]
    ensures s & 0xFF00 == 0 ==> PutWord(Xor(c, s))[2] == PutWord(c)[2]
  {
  }

  lemma TamperedTail(a: seq<Byte>, xs: seq<Byte>, s: bv32)
    requires |a| >= CRC_SIZE + |xs|
    ensures s & 0xFF == 0 ==> Tampered(a, xs, s)[|a| - 1] == a[|a| - 1]
    ensures s & 0xFF00 == 0 ==> Tampered(a, xs, s)[|a| - 2] == a[|a| - 2]
  {
    var start := |a| - CRC_SIZE;
    PutGetWord(a[start..]);
    ClearBytesKept(Stored(a), s);
    assert a[|a| - 1] == a[start..][3] && a[|a| - 2] == a[start..][2];
  }

  lemma StraddlesByParts(a: seq<Byte>, b: seq<Byte>, k: nat)
    requires |a| == |b| >= MIN_FRAME_SIZE && 1 <= k <= 2
    requires DiffersOnlyIn(Data(a), Data(b), |a| - CRC_SIZE - k, |a| - CRC_SIZE)
    requires b[|a| - 1] == a[|a| - 1] && (k == 2 ==> b[|a| - 2] == a[|a| - 2])
    ensures Straddles(a, b, k)
  {
    forall i | 0 <= i < |a| && !(|a| - CRC_SIZE - k <= i < |a| - k) ensures a[i] == b[i] {
      if i < |a| - CRC_SIZE {
        assert a[i] == Data(a)[i] == Data(b)[i] == b[i];
      }
    }
  }

  lemma TamperedWindow(a: seq<Byte>, xs: seq<Byte>, s: bv32)
    requires |a| >= MIN_FRAME_SIZE + |xs| && 1 <= |xs| <= 2
    requires s & 0xFF == 0 && (|xs| == 2 ==> s & 0xFF00 == 0)
    ensures Straddles(a, Tampered(a, xs, s), |xs|)
  {
    MaskedTailDifference(Data(a), xs);
    TamperedParts(a, xs, s);
    TamperedTail(a, xs, s);
    StraddlesByParts(a, Tampered(a, xs, s), |xs|);
  }

  lemma TamperedDiffers(a: seq<Byte>, xs: seq<Byte>, s: bv32)
    requires |a| >= MIN_FRAME_SIZE + |xs| && !AllZero(xs)
    ensures Tampered(a, xs, s) != a
  {
    MaskedTailDifference(Data(a), xs);
    TamperedParts(a, xs, s);
    DifferenceZero(Data(a), MaskedTail(Data(a), xs));
  }

  /** One payload byte and three checksum bytes, the same differences for every frame. */
  lemma OneDataByteSlips(a: seq<Byte>) returns (b: seq<Byte>)
    requires |a| >= MIN_FRAME_SIZE + 1
    ensures b != a && Straddles(a, b, 1) && Passes(a, b)
  {
    var xs: seq<Byte> := [0x5D];
    b := Tampered(a, xs, 0xEE0D_9600);
    assert xs[1..] == [] && Pack(xs) == 0x5D;
    ClearingDifferences();
    TamperedPasses(a, xs, 0xEE0D_9600);
    TamperedWindow(a, xs, 0xEE0D_9600);
    assert xs[0] != 0;
    TamperedDiffers(a, xs, 0xEE0D_9600);
  }

  lemma PackTwo(x: Byte, y: Byte)
    ensures Pack([x, y]) == (x as bv32) | (y as bv32 << 8)
  {
    assert [x, y][1..] == [y] && [y][1..] == [];
    assert Pack([y]) == y as bv32;
  }

  /** Two payload bytes and two checksum bytes. */
  lemma TwoDataBytesSlip(a: seq<Byte>) returns (b: seq<Byte>)
    requires |a| >= MIN_FRAME_SIZE + 2
    ensures b != a && Straddles(a, b, 2) && Passes(a, b)
  {
    var xs: seq<Byte> := [0x4D, 0x90];
    b := Tampered(a, xs, 0xAD83_0000);
    PackTwo(0x4D, 0x90);
    ClearingDifferences();
    TamperedPasses(a, xs, 0xAD83_0000);
    TamperedWindow(a, xs, 0xAD83_0000);
    assert xs[0] != 0;
    TamperedDiffers(a, xs, 0xAD83_0000);
  }

  // ----- The theorem -----

  /** Some corruption of the frame, confined to the four bytes from `lo`, is accepted. */
  ghost predicate SlipsThrough(m: Message, lo: nat)
    requires |m.payload| < UINT32
  {
    exists b: seq<Byte> :: b != Encode(m) && DiffersOnlyIn(Encode(m), b, lo, lo + 4) && Decode(b).Ok?
  }

  /** The window covers the last one or two data bytes, all of them payload, and the checksum's start. */
  predicate WeakWindow(m: Message, lo: nat) {
    var covered := HEADER_SIZE + |m.payload| - lo;
    (covered == 1 || covered == 2) && covered <= |m.payload|
  }

  lemma StrongWindow(a: seq<Byte>, b: seq<Byte>, lo: nat)
    requires |a| == |b| >= MIN_FRAME_SIZE && Passes(a, b) && DiffersOnlyIn(a, b, lo, lo + 4)
    requires var covered := |a| - CRC_SIZE - lo;
             !((covered == 1 || covered == 2) && covered <= |a| - MIN_FRAME_SIZE)
    ensures a == b
  {
    var covered := |a| - CRC_SIZE - lo;
    if covered >= 4 || covered <= 0 {
      OneSidedWindow(a, b, lo);
    } else if covered == 3 {
      ThreeDataBytes(a, b);
    } else if covered == 2 {
      TwoDataBytes(a, b);
    } else {
      OneDataByte(a, b);
    }
  }

  /**
   Every corruption confined to four consecutive bytes is rejected, wherever the window lies, except
   in exactly two windows: those covering the last one or the last two payload bytes together with
   the first three or two checksum bytes.
   */
  lemma WindowDetectedExactly(m: Message, lo: nat)
    requires WellFormed(m)
    ensures SlipsThrough(m, lo) <==> WeakWindow(m, lo)
  {
    var a := Encode(m);
    if WeakWindow(m, lo) {
      var b;
      if HEADER_SIZE + |m.payload| - lo == 1 {
        b := OneDataByteSlips(a);
      } else {
        b := TwoDataBytesSlip(a);
      }
      AcceptedExactly(m, b);
    } else {
      forall b: seq<Byte> | b != a && DiffersOnlyIn(a, b, lo, lo + 4) ensures !Decode(b).Ok? {
        AcceptedExactly(m, b);
        if Passes(a, b) {
          StrongWindow(a, b, lo);
        }
      }
    }
  }

  /** Any single corrupted byte, anywhere in the frame, is rejected. */
  lemma SingleByteDetected(m: Message, b: seq<Byte>, at: nat)
    requires WellFormed(m) && b != Encode(m) && DiffersOnlyIn(Encode(m), b, at, at + 1)
    ensures !Decode(b).Ok?
  {
    var start := HEADER_SIZE + |m.payload|;
    AcceptedExactly(m, b);
    if Passes(Encode(m), b) {
      StrongWindow(Encode(m), b, if at < start <= at + 4 then start - 4 else at);
    }
  }
}
