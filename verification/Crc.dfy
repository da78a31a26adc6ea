// The checksum that guards every LowState packet (include/unitree/crc32.hpp)
// and the accept/reject decision of the state reader.
module Crc {
  // The polynomial is 0x04c1_1db7, the top bit 0x8000_0000; both are written as
  // literals, which the bit-vector reasoning copes with far better than names.

  // ── word algebra ───────────────────────────────────────────────────────────

  function Xor(a: bv32, b: bv32): bv32 { a ^ b }

  function Shl(a: bv32): bv32 { a << 1 }

  function Shr(a: bv32): bv32 { a >> 1 }

  predicate Top(a: bv32) { a & 0x8000_0000 != 0 }

  predicate Has(a: bv32, mask: bv32) { a & mask != 0 }

  predicate Odd(a: bv32) { a & 1 != 0 }

  lemma XorAcRaw(a: bv32, b: bv32, c: bv32, r: bv32, s: bv32)
    requires r == (a ^ b) ^ c
    requires s == (a ^ c) ^ b
    ensures r == s
  {}

  lemma XorUnfold(a: bv32, b: bv32, c: bv32)
    ensures Xor(Xor(a, b), c) == (a ^ b) ^ c
  {}

  lemma XorSwap(a: bv32, b: bv32, c: bv32)
    ensures Xor(Xor(a, b), c) == Xor(Xor(a, c), b)
  {
    hide *;
    XorUnfold(a, b, c);
    XorUnfold(a, c, b);
    XorAcRaw(a, b, c, Xor(Xor(a, b), c), Xor(Xor(a, c), b));
  }

  lemma XorBasics(a: bv32, b: bv32)
    ensures Xor(a, b) == Xor(b, a)
    ensures Xor(a, 0) == a
    ensures Xor(a, a) == 0
    ensures Xor(Xor(a, b), b) == a
  {}

  lemma XorSwap4(a: bv32, b: bv32, c: bv32, d: bv32)
    ensures Xor(Xor(a, b), Xor(c, d)) == Xor(Xor(a, c), Xor(b, d))
  {
    hide *;
    // (a^b)^(c^d) = ((c^d)^b)^a = ((c^b)^d)^a = ((b^d)^c)^a = (a^c)^(b^d)
    XorBasics(Xor(a, b), Xor(c, d)); XorBasics(a, b); XorBasics(c, d);
    XorBasics(b, c); XorBasics(b, d); XorBasics(a, c);
    XorSwap(b, a, Xor(c, d));
    XorBasics(b, Xor(c, d));
    XorSwap(c, d, b);
    XorSwap(b, c, d);
    XorBasics(Xor(b, d), c);
    XorSwap(c, Xor(b, d), a);
  }

  lemma ShlXor(a: bv32, b: bv32)
    ensures Shl(Xor(a, b)) == Xor(Shl(a), Shl(b))
  {}

  lemma TopXor(a: bv32, b: bv32)
    ensures Top(Xor(a, b)) <==> (Top(a) != Top(b))
  {}

  lemma ShlEven(c: bv32)
    ensures !Odd(Shl(c))
  {}

  lemma ShlShrFull(c: bv32)
    requires Top(c)
    ensures Shr(Shl(c)) == Xor(c, 0x8000_0000)
  {}

  lemma ShlShrFits(c: bv32)
    requires !Top(c)
    ensures Shr(Shl(c)) == c
  {}

  lemma ShrShl(c: bv32)
    ensures !Top(Shr(c))
    ensures !Odd(c) ==> Shl(Shr(c)) == c
  {}

  lemma OddXorPoly(c: bv32)
    ensures Odd(Xor(c, 0x04c1_1db7)) <==> !Odd(c)
  {}

  lemma TopConst()
    ensures Top(0x8000_0000) && Shl(0x8000_0000) == 0
  {}

  // ── one bit of the inner loop ──────────────────────────────────────────────

  // The register moves one place; the polynomial is folded in on overflow.
  function Shift(c: bv32): bv32 {
    if Top(c) then Xor(Shl(c), 0x04c1_1db7) else Shl(c)
  }

  // Inverse of Shift: the polynomial is odd, so the low bit tells whether it
  // was folded in.
  function Unshift(c: bv32): bv32 {
    if Odd(c) then Xor(Shr(Xor(c, 0x04c1_1db7)), 0x8000_0000) else Shr(c)
  }

  // One input bit.
  function Feed(c: bv32, bit: bool): bv32 {
    if bit then Xor(Shift(c), 0x04c1_1db7) else Shift(c)
  }

  lemma UnshiftShift(c: bv32)
    ensures Unshift(Shift(c)) == c
  {
    hide Xor; hide Shl; hide Shr; hide Top; hide Odd;
    ShlEven(c);
    if Top(c) { ShlShrFull(c); } else { ShlShrFits(c); }
    XorBasics(c, 0x8000_0000);
    OddXorPoly(Shl(c));
    XorBasics(Shl(c), 0x04c1_1db7);
  }

  // Shifting loses nothing: the two maps are inverse bijections.
  lemma ShiftUnshift(c: bv32)
    ensures Shift(Unshift(c)) == c
  {
    hide Xor; hide Shl; hide Shr; hide Top; hide Odd;
    OddXorPoly(c);
    XorBasics(c, 0x04c1_1db7);
    ShrShl(c); ShrShl(Xor(c, 0x04c1_1db7));
    var h := Shr(Xor(c, 0x04c1_1db7));
    TopXor(h, 0x8000_0000); ShlXor(h, 0x8000_0000); XorBasics(Shl(h), 0);
    TopConst();
  }

  lemma ShiftLinear(a: bv32, b: bv32)
    ensures Shift(Xor(a, b)) == Xor(Shift(a), Shift(b))
  {
    hide Xor; hide Shl; hide Top;
    ShlXor(a, b); TopXor(a, b);
    XorSwap(Shl(a), Shl(b), 0x04c1_1db7);
    XorBasics(Shl(b), 0x04c1_1db7); XorBasics(Shl(a), 0x04c1_1db7);
    XorSwap4(Shl(a), 0x04c1_1db7, Shl(b), 0x04c1_1db7);
    XorBasics(0x04c1_1db7, 0x04c1_1db7); XorBasics(Xor(Shl(a), Shl(b)), 0);
    XorBasics(Shl(a), Xor(Shl(b), 0x04c1_1db7)); XorBasics(Shl(a), Shl(b));
    XorSwap(Shl(b), 0x04c1_1db7, Shl(a));
  }

  // ── bit streams ────────────────────────────────────────────────────────────

  function FeedBits(c: bv32, bits: seq<bool>): bv32
    decreases |bits|
  {
    if |bits| == 0 then c else FeedBits(Feed(c, bits[0]), bits[1..])
  }

  // n steps of the register with no input.
  function ZeroSteps(c: bv32, n: nat): bv32
    decreases n
  {
    if n == 0 then c else ZeroSteps(Shift(c), n - 1)
  }

  // The n bits of w read through a mask that moves right, as the source does.
  function MaskBits(w: bv32, mask: bv32, n: nat): (bits: seq<bool>)
    ensures |bits| == n
  {
    if n == 0 then [] else [Has(w, mask)] + MaskBits(w, Shr(mask), n - 1)
  }

  function WordBits(w: bv32): seq<bool> { MaskBits(w, 0x8000_0000, 32) }

  function Bits(words: seq<bv32>): (bits: seq<bool>)
    ensures |bits| == 32 * |words|
  {
    if |words| == 0 then [] else WordBits(words[0]) + Bits(words[1..])
  }

  // The checksum of a word sequence.
  function Crc(words: seq<bv32>): bv32 { FeedBits(0xffff_ffff, Bits(words)) }

  lemma {:induction false} WordFirst(c: bv32, words: seq<bv32>)
    requires |words| > 0
    ensures FeedBits(c, Bits(words)) == FeedBits(FeedBits(c, WordBits(words[0])), Bits(words[1..]))
  {
    hide WordBits;
    FeedConcat(c, WordBits(words[0]), Bits(words[1..]));
  }

  lemma {:induction false} MaskStep(c: bv32, data: bv32, mask: bv32, n: nat)
    requires 0 < n
    ensures FeedBits(c, MaskBits(data, mask, n)) == FeedBits(Feed(c, Has(data, mask)), MaskBits(data, Shr(mask), n - 1))
  {
    hide Has, Shr, Feed;
    assert MaskBits(data, mask, n)[1..] == MaskBits(data, Shr(mask), n - 1);
  }

  lemma MaskDone(c: bv32, data: bv32, mask: bv32)
    ensures FeedBits(c, MaskBits(data, mask, 0)) == c
  {
  }

  // The body of the inner loop: one data bit goes in at the bottom.
  method ShiftIn(was: bv32, data: bv32, xbit: bv32) returns (crc: bv32)
    ensures crc == Feed(was, Has(data, xbit))
  {
    hide Xor; hide Shl; hide Top; hide Has;
    crc := was;
    if Top(crc) {
      crc := Shl(crc);
      crc := Xor(crc, 0x04c1_1db7);
    } else {
      crc := Shl(crc);
    }
    if Has(data, xbit) { crc := Xor(crc, 0x04c1_1db7); }
  }

  // crc32_core: the two nested loops.
  method Crc32Core(ptr: array<bv32>, len: nat) returns (crc: bv32)
    requires len <= ptr.Length
    ensures crc == Crc(ptr[..len])
  {
    crc := 0xffff_ffff;
    assert ptr[0..len] == ptr[..len];
    for i := 0 to len
      invariant FeedBits(crc, Bits(ptr[i..len])) == Crc(ptr[..len])
    {
      hide Xor; hide Shl; hide Shr; hide Top; hide Has; hide Feed; hide Bits; hide MaskBits; hide FeedBits;
      WordFirst(crc, ptr[i..len]);
      assert ptr[i..len][1..] == ptr[i + 1..len];
      var xbit: bv32 := 0x8000_0000;
      var data := ptr[i];
      ghost var start := crc;
      for bits := 0 to 32
        invariant FeedBits(crc, MaskBits(data, xbit, 32 - bits)) == FeedBits(start, WordBits(data))
      {
        MaskStep(crc, data, xbit, 32 - bits);
        crc := ShiftIn(crc, data, xbit);
        xbit := Shr(xbit);
      }
      MaskDone(crc, data, xbit);
    }
    assert ptr[len..len] == [];
  }

  // The state reader keeps a packet exactly when its last word is the checksum
  // of the words before it.
  predicate Accepts(packet: seq<bv32>)
    requires |packet| > 0
  {
    Crc(packet[..|packet| - 1]) == packet[|packet| - 1]
  }

  // The gate of every LowState packet: its last word is the CRC of the others.
  method OnLowStateUpdate(packet: array<bv32>) returns (kept: bool)
    requires packet.Length > 0
    ensures kept <==> Accepts(packet[..])
  {
    var crc := Crc32Core(packet, packet.Length - 1);
    assert packet[..][..packet.Length - 1] == packet[..packet.Length - 1];
    kept := crc == packet[packet.Length - 1];
  }

  lemma {:induction false} FeedConcat(c: bv32, x: seq<bool>, y: seq<bool>)
    ensures FeedBits(c, x + y) == FeedBits(FeedBits(c, x), y)
    decreases |x|
  {
    if |x| == 0 {
      assert x + y == y;
    } else {
      assert (x + y)[1..] == x[1..] + y;
      FeedConcat(Feed(c, x[0]), x[1..], y);
    }
  }

  lemma {:induction false} BitsConcat(x: seq<bv32>, y: seq<bv32>)
    ensures Bits(x + y) == Bits(x) + Bits(y)
  {
    if |x| == 0 {
      assert x + y == y;
    } else {
      assert (x + y)[1..] == x[1..] + y;
      BitsConcat(x[1..], y);
    }
  }

  // ── a window of at most 32 bits is one word folded into the register ───────

  function ShlN(v: bv32, n: nat): bv32
    decreases n
  {
    if n == 0 then v else ShlN(Shl(v), n - 1)
  }

  // The bits as a word, first bit on top.
  function Pack(bits: seq<bool>): bv32 {
    if |bits| == 0 then 0
    else if bits[0] then Xor(Shr(Pack(bits[1..])), 0x8000_0000) else Shr(Pack(bits[1..]))
  }

  lemma {:induction false} ShlNSplit(v: bv32, m: nat, n: nat)
    ensures ShlN(v, m + n) == ShlN(ShlN(v, m), n)
    decreases m
  {
    if m > 0 { ShlNSplit(Shl(v), m - 1, n); }
  }

  function By2(v: bv32): bv32 { v << 2 }
  function By4(v: bv32): bv32 { v << 4 }
  function By8(v: bv32): bv32 { v << 8 }
  function By16(v: bv32): bv32 { v << 16 }

  lemma Double1(v: bv32)
    ensures Shl(Shl(v)) == By2(v)
  {}

  lemma Double2(v: bv32)
    ensures By2(By2(v)) == By4(v)
  {}

  lemma Double4(v: bv32)
    ensures By4(By4(v)) == By8(v)
  {}

  lemma Double8(v: bv32)
    ensures By8(By8(v)) == By16(v)
  {}

  lemma ShlN1(v: bv32)
    ensures ShlN(v, 1) == Shl(v)
  {
    hide Shl;
    assert ShlN(Shl(v), 0) == Shl(v);
  }

  lemma ShlN2(v: bv32)
    ensures ShlN(v, 2) == By2(v)
  {
    hide *;
    ShlNSplit(v, 1, 1); ShlN1(v); ShlN1(Shl(v)); Double1(v);
  }

  lemma ShlN4(v: bv32)
    ensures ShlN(v, 4) == By4(v)
  {
    hide *;
    ShlNSplit(v, 2, 2); ShlN2(v); ShlN2(By2(v)); Double2(v);
  }

  lemma ShlN8(v: bv32)
    ensures ShlN(v, 8) == By8(v)
  {
    hide *;
    ShlNSplit(v, 4, 4); ShlN4(v); ShlN4(By4(v)); Double4(v);
  }

  lemma ShlN16(v: bv32)
    ensures ShlN(v, 16) == By16(v)
  {
    hide *;
    ShlNSplit(v, 8, 8); ShlN8(v); ShlN8(By8(v)); Double8(v);
  }

  lemma OutOfRange(v: bv32)
    ensures Shl(By2(By4(By8(By16(v))))) == v << 31
    ensures Shl(Shl(By2(By4(By8(By16(v)))))) == 0
  {}

  lemma LowBit(v: bv32)
    ensures v << 31 == 0 ==> !Odd(v)
  {}

  // Thirty-one places leave the low bit, thirty-two leave nothing.
  lemma ShlNOut(v: bv32)
    ensures ShlN(v, 31) == 0 ==> !Odd(v)
    ensures ShlN(v, 32) == 0
  {
    hide *;
    var a := By16(v);
    var b := By8(a);
    var c := By4(b);
    var d := By2(c);
    ShlNSplit(v, 16, 15); ShlN16(v);
    ShlNSplit(a, 8, 7); ShlN8(a);
    ShlNSplit(b, 4, 3); ShlN4(b);
    ShlNSplit(c, 2, 1); ShlN2(c);
    ShlN1(d);
    ShlNSplit(v, 31, 1); ShlN1(Shl(d));
    OutOfRange(v);
    LowBit(v);
  }

  lemma FitsLonger(v: bv32, m: nat, n: nat)
    requires m <= n && ShlN(v, m) == 0
    ensures ShlN(v, n) == 0
  {
    ShlNSplit(v, m, n - m);
    ShlNZero(n - m);
  }

  lemma {:induction false} ShlNZero(n: nat)
    ensures ShlN(0, n) == 0
  {
    if n > 0 { assert Shl(0) == 0; ShlNZero(n - 1); }
  }

  // Shifting the packed window out shows its bits one by one.
  lemma {:induction false} PackStep(bits: seq<bool>)
    requires 0 < |bits| <= 32
    ensures Shl(Pack(bits)) == Pack(bits[1..])
    ensures Top(Pack(bits)) <==> bits[0]
    ensures ShlN(Pack(bits), |bits|) == 0
    decreases |bits|
  {
    var v := Pack(bits[1..]);
    if |bits| > 1 { PackStep(bits[1..]); }
    assert ShlN(v, |bits| - 1) == 0;
    FitsLonger(v, |bits| - 1, 31);
    ShlNOut(v);
    hide Shl; hide Shr; hide Xor; hide Top; hide Odd;
    ShrShl(v);
    TopXor(Shr(v), 0x8000_0000); ShlXor(Shr(v), 0x8000_0000); TopConst();
    XorBasics(Shl(Shr(v)), 0);
  }

  // The checksum of a window of at most 32 bits depends on the register and
  // the window only through their exclusive or.
  lemma {:induction false} WindowStep(c: bv32, bits: seq<bool>)
    requires |bits| <= 32
    ensures FeedBits(c, bits) == ZeroSteps(Xor(c, Pack(bits)), |bits|)
    decreases |bits|
  {
    hide Shl; hide Shr; hide Xor; hide Top;
    if |bits| == 0 {
      XorBasics(c, 0);
    } else {
      var u, v := Pack(bits), Pack(bits[1..]);
      PackStep(bits);
      WindowStep(Feed(c, bits[0]), bits[1..]);
      ShiftLinear(c, u);
      XorBasics(v, 0x04c1_1db7);
      XorBasics(Shift(c), Xor(v, 0x04c1_1db7)); XorBasics(Shift(c), v);
      XorSwap(v, 0x04c1_1db7, Shift(c));
      XorBasics(Xor(v, Shift(c)), 0x04c1_1db7);
      XorSwap(v, Shift(c), 0x04c1_1db7);
      XorSwap(Shift(c), 0x04c1_1db7, v);
    }
  }

  lemma {:induction false} ZeroStepsInjective(a: bv32, b: bv32, n: nat)
    requires ZeroSteps(a, n) == ZeroSteps(b, n)
    ensures a == b
    decreases n
  {
    if n > 0 {
      ZeroStepsInjective(Shift(a), Shift(b), n - 1);
      UnshiftShift(a); UnshiftShift(b);
    }
  }

  lemma {:induction false} PackInjective(x: seq<bool>, y: seq<bool>)
    requires |x| == |y| <= 32 && Pack(x) == Pack(y)
    ensures x == y
    decreases |x|
  {
    if |x| > 0 {
      PackStep(x); PackStep(y);
      PackInjective(x[1..], y[1..]);
      assert x == [x[0]] + x[1..] && y == [y[0]] + y[1..];
    }
  }

  lemma XorCancel(c: bv32, a: bv32, b: bv32)
    requires Xor(c, a) == Xor(c, b)
    ensures a == b
  {
    XorBasics(c, a); XorBasics(c, b); XorBasics(a, c); XorBasics(b, c);
  }

  // Different windows of up to 32 bits leave different registers behind.
  lemma WindowInjective(c: bv32, x: seq<bool>, y: seq<bool>)
    requires |x| == |y| <= 32
    requires FeedBits(c, x) == FeedBits(c, y)
    ensures x == y
  {
    WindowStep(c, x); WindowStep(c, y);
    ZeroStepsInjective(Xor(c, Pack(x)), Xor(c, Pack(y)), |x|);
    XorCancel(c, Pack(x), Pack(y));
    PackInjective(x, y);
  }

  lemma {:induction false} FeedInjective(c: bv32, d: bv32, bits: seq<bool>)
    requires FeedBits(c, bits) == FeedBits(d, bits)
    ensures c == d
    decreases |bits|
  {
    hide Shl; hide Shr; hide Xor; hide Top; hide Odd; hide Shift; hide Unshift;
    if |bits| > 0 {
      var b := bits[0];
      FeedInjective(Feed(c, b), Feed(d, b), bits[1..]);
      XorBasics(Shift(c), 0x04c1_1db7); XorBasics(Shift(d), 0x04c1_1db7);
      UnshiftShift(c); UnshiftShift(d);
    }
  }

  // ── main results ───────────────────────────────────────────────────────────

  // x and y agree everywhere except possibly in the 32 bits from p on.
  predicate DifferInWindow(x: seq<bool>, y: seq<bool>, p: nat) {
    && |x| == |y|
    && p + 32 <= |x|
    && x[..p] == y[..p]
    && x[p + 32..] == y[p + 32..]
  }

  // Any burst of at most 32 bits changes the register, whatever follows it.
  lemma BurstChangesRegister(c: bv32, x: seq<bool>, y: seq<bool>, p: nat)
    requires DifferInWindow(x, y, p)
    requires x != y
    ensures FeedBits(c, x) != FeedBits(c, y)
  {
    var xw, yw := x[p..p + 32], y[p..p + 32];
    assert x == (x[..p] + xw) + x[p + 32..];
    assert y == (y[..p] + yw) + y[p + 32..];
    FeedConcat(c, x[..p] + xw, x[p + 32..]); FeedConcat(c, x[..p], xw);
    FeedConcat(c, y[..p] + yw, y[p + 32..]); FeedConcat(c, y[..p], yw);
    if FeedBits(c, x) == FeedBits(c, y) {
      FeedInjective(FeedBits(c, x[..p] + xw), FeedBits(c, y[..p] + yw), x[p + 32..]);
      WindowInjective(FeedBits(c, x[..p]), xw, yw);
    }
  }

  // The n top bits of w read by moving w instead of the mask.
  function TopBits(w: bv32, n: nat): (bits: seq<bool>)
    ensures |bits| == n
    decreases n
  {
    if n == 0 then [] else [Top(w)] + TopBits(Shl(w), n - 1)
  }

  lemma HasShift(w: bv32, mask: bv32)
    ensures Has(w, Shr(mask)) <==> Has(Shl(w), mask)
  {}

  lemma HasTop(w: bv32)
    ensures Has(w, 0x8000_0000) <==> Top(w)
  {}

  lemma {:induction false} MaskBitsShift(w: bv32, mask: bv32, n: nat)
    ensures MaskBits(w, Shr(mask), n) == MaskBits(Shl(w), mask, n)
    decreases n
  {
    hide Shl; hide Shr; hide Has;
    if n > 0 {
      HasShift(w, mask);
      MaskBitsShift(w, Shr(mask), n - 1);
    }
  }

  lemma {:induction false} MaskBitsTop(w: bv32, n: nat)
    ensures MaskBits(w, 0x8000_0000, n) == TopBits(w, n)
    decreases n
  {
    hide Shl; hide Shr; hide Has; hide Top;
    if n > 0 {
      HasTop(w);
      MaskBitsShift(w, 0x8000_0000, n - 1);
      MaskBitsTop(Shl(w), n - 1);
    }
  }

  lemma {:induction false} PackTopBits(w: bv32, n: nat)
    requires ShlN(w, n) == 0
    ensures Pack(TopBits(w, n)) == w
    decreases n
  {
    hide Shl; hide Shr; hide Xor; hide Top; hide Odd;
    if n > 0 {
      PackTopBits(Shl(w), n - 1);
      assert TopBits(w, n)[1..] == TopBits(Shl(w), n - 1);
      if Top(w) { ShlShrFull(w); XorBasics(w, 0x8000_0000); } else { ShlShrFits(w); }
    }
  }

  lemma PackWordBits(w: bv32)
    ensures Pack(WordBits(w)) == w
  {
    hide Pack; hide Shl; hide Top; hide Has;
    MaskBitsTop(w, 32);
    ShlNOut(w);
    PackTopBits(w, 32);
  }

  // A whole data word is an exclusive or followed by 32 steps without input.
  lemma WordStep(c: bv32, w: bv32)
    ensures FeedBits(c, WordBits(w)) == ZeroSteps(Xor(c, w), 32)
  {
    hide FeedBits; hide Pack; hide ZeroSteps; hide Xor;
    WindowStep(c, WordBits(w));
    PackWordBits(w);
  }

  lemma {:induction false} ZeroStepsZero(n: nat)
    ensures ZeroSteps(0, n) == 0
  {
    if n > 0 { assert Shift(0) == 0; ZeroStepsZero(n - 1); }
  }

  lemma LastWordFed(body: seq<bv32>, last: bv32)
    ensures FeedBits(0xffff_ffff, Bits(body + [last])) == ZeroSteps(Xor(Crc(body), last), 32)
  {
    BitsConcat(body, [last]);
    assert Bits([last]) == WordBits(last) by { assert Bits([]) == []; assert [last][1..] == []; }
    hide FeedBits; hide ZeroSteps; hide Xor; hide WordBits; hide Bits;
    FeedConcat(0xffff_ffff, Bits(body), WordBits(last));
    WordStep(Crc(body), last);
  }

  lemma ZeroOnlyFromEqual(c: bv32, last: bv32)
    ensures ZeroSteps(Xor(c, last), 32) == 0 <==> c == last
  {
    ZeroStepsZero(32);
    hide ZeroSteps; hide Xor;
    XorBasics(last, last);
    XorBasics(c, last);
    if ZeroSteps(Xor(c, last), 32) == 0 {
      ZeroStepsInjective(Xor(c, last), 0, 32);
      XorBasics(last, 0);
      XorBasics(0, last);
      XorCancel(last, c, last);
    }
  }

  // A packet is kept exactly when the register ends at zero after its own
  // checksum word has gone through it as well.
  lemma AcceptedIffZeroResidue(packet: seq<bv32>)
    requires |packet| > 0
    ensures Accepts(packet) <==> FeedBits(0xffff_ffff, Bits(packet)) == 0
  {
    hide FeedBits; hide ZeroSteps; hide Xor; hide Bits; hide Crc;
    var body, last := packet[..|packet| - 1], packet[|packet| - 1];
    assert packet == body + [last];
    LastWordFed(body, last);
    ZeroOnlyFromEqual(Crc(body), last);
  }

  // Damage confined to 32 consecutive bits of a good packet, its checksum word
  // included, is always noticed.
  lemma BurstRejected(sent: seq<bv32>, got: seq<bv32>, p: nat)
    requires |sent| == |got| > 0
    requires Accepts(sent)
    requires DifferInWindow(Bits(sent), Bits(got), p)
    requires Bits(sent) != Bits(got)
    ensures !Accepts(got)
  {
    AcceptedIffZeroResidue(sent); AcceptedIffZeroResidue(got);
    BurstChangesRegister(0xffff_ffff, Bits(sent), Bits(got), p);
  }

  lemma {:induction false} BitsOfOneWord(words: seq<bv32>, k: nat, w: bv32)
    requires k < |words|
    requires words[k] != w
    ensures DifferInWindow(Bits(words), Bits(words[k := w]), 32 * k)
    ensures Bits(words) != Bits(words[k := w])
  {
    var pre, post := words[..k], words[k + 1..];
    assert words == pre + ([words[k]] + post);
    assert words[k := w] == pre + ([w] + post);
    BitsConcat(pre, [words[k]] + post);
    BitsConcat(pre, [w] + post);
    assert ([words[k]] + post)[1..] == post && ([w] + post)[1..] == post;
    var x, y := Bits(words), Bits(words[k := w]);
    assert x == Bits(pre) + (WordBits(words[k]) + Bits(post));
    assert y == Bits(pre) + (WordBits(w) + Bits(post));
    PackWordBits(words[k]);
    PackWordBits(w);
    hide Bits, WordBits;
    assert |Bits(pre)| == 32 * k;
    OneBlockDiffers(Bits(pre), WordBits(words[k]), WordBits(w), Bits(post));
  }

  lemma OneBlockDiffers(pre: seq<bool>, a: seq<bool>, b: seq<bool>, post: seq<bool>)
    requires |a| == |b| == 32 && a != b
    ensures DifferInWindow(pre + (a + post), pre + (b + post), |pre|)
    ensures pre + (a + post) != pre + (b + post)
  {
    var x, y := pre + (a + post), pre + (b + post);
    MiddleSlice(pre, a, post);
    MiddleSlice(pre, b, post);
  }

  lemma MiddleSlice(pre: seq<bool>, a: seq<bool>, post: seq<bool>)
    ensures var x := pre + (a + post);
      x[..|pre|] == pre && x[|pre|..|pre| + |a|] == a && x[|pre| + |a|..] == post
  {
    var x := pre + (a + post);
    forall i | 0 <= i < |a| ensures x[|pre|..|pre| + |a|][i] == a[i] {
      assert x[|pre|..][i] == (a + post)[i];
    }
  }

  // Two packets of equal length that differ in one word have different
  // checksums, and one wrong word in a good packet is always rejected.
  lemma OneWordDetected(words: seq<bv32>, k: nat, w: bv32)
    requires k < |words|
    requires words[k] != w
    ensures Crc(words) != Crc(words[k := w])
    ensures Accepts(words) ==> !Accepts(words[k := w])
  {
    BitsOfOneWord(words, k, w);
    BurstChangesRegister(0xffff_ffff, Bits(words), Bits(words[k := w]), 32 * k);
    if Accepts(words) { BurstRejected(words, words[k := w], 32 * k); }
  }

  // ── the polynomial and the start ───────────────────────────────────────────

  lemma {:induction false} ZeroStepsSplit(c: bv32, m: nat, n: nat)
    ensures ZeroSteps(c, m + n) == ZeroSteps(ZeroSteps(c, m), n)
    decreases m
  {
    if m > 0 { ZeroStepsSplit(Shift(c), m - 1, n); }
  }

  lemma ZeroSteps0()
    ensures ZeroSteps(0xffff_ffff, 4) == 0xc7b0_424d
  {
    assert Shift(0xffff_ffff) == 0xfb3e_e249 && Shift(0xfb3e_e249) == 0xf2bc_d925;
    assert Shift(0xf2bc_d925) == 0xe1b8_affd && Shift(0xe1b8_affd) == 0xc7b0_424d;
    hide Shift;
  }

  lemma ZeroSteps4()
    ensures ZeroSteps(0xc7b0_424d, 4) == 0x4e08_bfb4
  {
    assert Shift(0xc7b0_424d) == 0x8ba1_992d && Shift(0x8ba1_992d) == 0x1382_2fed;
    assert Shift(0x1382_2fed) == 0x2704_5fda && Shift(0x2704_5fda) == 0x4e08_bfb4;
    hide Shift;
  }

  lemma ZeroSteps8()
    ensures ZeroSteps(0x4e08_bfb4, 4) == 0xf38f_8d9c
  {
    assert Shift(0x4e08_bfb4) == 0x9c11_7f68 && Shift(0x9c11_7f68) == 0x3ce3_e367;
    assert Shift(0x3ce3_e367) == 0x79c7_c6ce && Shift(0x79c7_c6ce) == 0xf38f_8d9c;
    hide Shift;
  }

  lemma ZeroSteps12()
    ensures ZeroSteps(0xf38f_8d9c, 4) == 0x00b7_647d
  {
    assert Shift(0xf38f_8d9c) == 0xe3de_068f && Shift(0xe3de_068f) == 0xc37d_10a9;
    assert Shift(0xc37d_10a9) == 0x823b_3ce5 && Shift(0x823b_3ce5) == 0x00b7_647d;
    hide Shift;
  }

  lemma ZeroSteps16()
    ensures ZeroSteps(0x00b7_647d, 4) == 0x0b76_47d0
  {
    assert Shift(0x00b7_647d) == 0x016e_c8fa && Shift(0x016e_c8fa) == 0x02dd_91f4;
    assert Shift(0x02dd_91f4) == 0x05bb_23e8 && Shift(0x05bb_23e8) == 0x0b76_47d0;
    hide Shift;
  }

  lemma ZeroSteps20()
    ensures ZeroSteps(0x0b76_47d0, 4) == 0xb764_7d00
  {
    assert Shift(0x0b76_47d0) == 0x16ec_8fa0 && Shift(0x16ec_8fa0) == 0x2dd9_1f40;
    assert Shift(0x2dd9_1f40) == 0x5bb2_3e80 && Shift(0x5bb2_3e80) == 0xb764_7d00;
    hide Shift;
  }

  lemma ZeroSteps24()
    ensures ZeroSteps(0xb764_7d00, 4) == 0x5d0c_1b61
  {
    assert Shift(0xb764_7d00) == 0x6a09_e7b7 && Shift(0x6a09_e7b7) == 0xd413_cf6e;
    assert Shift(0xd413_cf6e) == 0xace6_836b && Shift(0xace6_836b) == 0x5d0c_1b61;
    hide Shift;
  }

  lemma ZeroSteps28()
    ensures ZeroSteps(0x5d0c_1b61, 4) == 0xc704_dd7b
  {
    assert Shift(0x5d0c_1b61) == 0xba18_36c2 && Shift(0xba18_36c2) == 0x70f1_7033;
    assert Shift(0x70f1_7033) == 0xe1e2_e066 && Shift(0xe1e2_e066) == 0xc704_dd7b;
    hide Shift;
  }

  lemma ZeroWordSteps()
    ensures ZeroSteps(0xffff_ffff, 32) == 0xc704_dd7b
  {
    hide *;
    ZeroSteps0(); ZeroSteps4(); ZeroSteps8(); ZeroSteps12(); ZeroSteps16(); ZeroSteps20(); ZeroSteps24(); ZeroSteps28();
    ZeroStepsSplit(0xffff_ffff, 4, 28);
    ZeroStepsSplit(0xc7b0_424d, 4, 24);
    ZeroStepsSplit(0x4e08_bfb4, 4, 20);
    ZeroStepsSplit(0xf38f_8d9c, 4, 16);
    ZeroStepsSplit(0x00b7_647d, 4, 12);
    ZeroStepsSplit(0x0b76_47d0, 4, 8);
    ZeroStepsSplit(0xb764_7d00, 4, 4);
  }

  lemma OneWord(w: bv32)
    ensures Crc([w]) == FeedBits(0xffff_ffff, WordBits(w)) && Crc([]) == 0xffff_ffff
  {
    assert [w][1..] == [] && Bits([]) == [];
    hide WordBits;
    assert Bits([w]) == WordBits(w);
  }

  // The checksum of one zero word, and of none. A bit leaving the register alone
  // leaves the polynomial behind.
  lemma KnownChecksums()
    ensures Crc([]) == 0xffff_ffff && Crc([0]) == 0xc704_dd7b
    ensures Shift(0x8000_0000) == 0x04c1_1db7
  {
    assert Xor(0xffff_ffff, 0) == 0xffff_ffff;
    hide Crc, FeedBits, WordBits, ZeroSteps;
    OneWord(0);
    WordStep(0xffff_ffff, 0);
    ZeroWordSteps();
  }
}
