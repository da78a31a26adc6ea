// Word arithmetic of the vendored hasher (thirdparty/picosha2/picosha2.h). Its
// word_t is a 64-bit unsigned long that is masked back to 32 bits only now and
// then. The lemmas here show that on words that fit in 32 bits every step agrees
// with the 32-bit arithmetic of the standard.
module Sha256Words {
  import opened Fips180

  type Wide = bv64

  // ── word_t ─────────────────────────────────────────────────────────────────

  function Widen(x: Word): Wide { x as Wide }

  function WideCh(x: Wide, y: Wide, z: Wide): Wide { (x & y) ^ ((!x) & z) }

  function WideMaj(x: Wide, y: Wide, z: Wide): Wide { (x & y) ^ (x & z) ^ (y & z) }

  function WideRotr(x: Wide, n: bv6): Wide
    requires 0 < n < 32
  {
    ((x >> n) | (x << (32 - n))) & 0xffff_ffff
  }

  function WideShr(x: Wide, n: bv6): Wide
    requires n < 32
  {
    x >> n
  }

  function WideXor3(x: Wide, y: Wide, z: Wide): Wide { x ^ y ^ z }

  function WideBigSigma0(x: Wide): Wide { WideXor3(WideRotr(x, 2), WideRotr(x, 13), WideRotr(x, 22)) }

  function WideBigSigma1(x: Wide): Wide { WideXor3(WideRotr(x, 6), WideRotr(x, 11), WideRotr(x, 25)) }

  function WideSmallSigma0(x: Wide): Wide { WideXor3(WideRotr(x, 7), WideRotr(x, 18), WideShr(x, 3)) }

  function WideSmallSigma1(x: Wide): Wide { WideXor3(WideRotr(x, 17), WideRotr(x, 19), WideShr(x, 10)) }

  lemma Rotr2(x: Word)
    ensures WideRotr(Widen(x), 2) == Widen(x.RotateRight(2))
  {}

  lemma Rotr6(x: Word)
    ensures WideRotr(Widen(x), 6) == Widen(x.RotateRight(6))
  {}

  lemma Rotr7(x: Word)
    ensures WideRotr(Widen(x), 7) == Widen(x.RotateRight(7))
  {}

  lemma Rotr11(x: Word)
    ensures WideRotr(Widen(x), 11) == Widen(x.RotateRight(11))
  {}

  lemma Rotr13(x: Word)
    ensures WideRotr(Widen(x), 13) == Widen(x.RotateRight(13))
  {}

  lemma Rotr17(x: Word)
    ensures WideRotr(Widen(x), 17) == Widen(x.RotateRight(17))
  {}

  lemma Rotr18(x: Word)
    ensures WideRotr(Widen(x), 18) == Widen(x.RotateRight(18))
  {}

  lemma Rotr19(x: Word)
    ensures WideRotr(Widen(x), 19) == Widen(x.RotateRight(19))
  {}

  lemma Rotr22(x: Word)
    ensures WideRotr(Widen(x), 22) == Widen(x.RotateRight(22))
  {}

  lemma Rotr25(x: Word)
    ensures WideRotr(Widen(x), 25) == Widen(x.RotateRight(25))
  {}

  lemma ShrRefines(x: Word)
    ensures WideShr(Widen(x), 3) == Widen(x >> 3)
    ensures WideShr(Widen(x), 10) == Widen(x >> 10)
  {}

  lemma Xor3Refines(x: Word, y: Word, z: Word)
    ensures WideXor3(Widen(x), Widen(y), Widen(z)) == Widen(Xor3(x, y, z))
  {}

  lemma ChRefines(x: Word, y: Word, z: Word)
    ensures WideCh(Widen(x), Widen(y), Widen(z)) == Widen(Ch(x, y, z))
  {}

  lemma MajRefines(x: Word, y: Word, z: Word)
    ensures WideMaj(Widen(x), Widen(y), Widen(z)) == Widen(Maj(x, y, z))
  {}

  // On words that fit in 32 bits the sigma functions agree with the standard's.
  lemma SigmaRefines(x: Word)
    ensures WideBigSigma0(Widen(x)) == Widen(BigSigma0(x))
    ensures WideBigSigma1(Widen(x)) == Widen(BigSigma1(x))
    ensures WideSmallSigma0(Widen(x)) == Widen(SmallSigma0(x))
    ensures WideSmallSigma1(Widen(x)) == Widen(SmallSigma1(x))
  {
    hide Widen; hide WideRotr; hide WideShr; hide WideXor3; hide Xor3;
    Rotr2(x); Rotr13(x); Rotr22(x);
    Xor3Refines(x.RotateRight(2), x.RotateRight(13), x.RotateRight(22));
    Rotr6(x); Rotr11(x); Rotr25(x);
    Xor3Refines(x.RotateRight(6), x.RotateRight(11), x.RotateRight(25));
    Rotr7(x); Rotr18(x); ShrRefines(x);
    Xor3Refines(x.RotateRight(7), x.RotateRight(18), x >> 3);
    Rotr17(x); Rotr19(x);
    Xor3Refines(x.RotateRight(17), x.RotateRight(19), x >> 10);
  }

  // ── sums: several 64-bit additions and one mask ────────────────────────────

  function MaskedPlus(x: Wide, y: Wide): Wide { (x + y) & 0xffff_ffff }

  function MaskedSum4(p: Wide, q: Wide, r: Wide, s: Wide): Wide { (p + q + r + s) & 0xffff_ffff }

  // mask_32bit(d + temp1)
  function MaskedPlusTemp1(d: Wide, h: Wide, s1: Wide, c: Wide, k: Wide, w: Wide): Wide {
    (d + (h + s1 + c + k + w)) & 0xffff_ffff
  }

  // mask_32bit(temp1 + temp2)
  function MaskedTemps(h: Wide, s1: Wide, c: Wide, k: Wide, w: Wide, s0: Wide, m: Wide): Wide {
    ((h + s1 + c + k + w) + (s0 + m)) & 0xffff_ffff
  }

  lemma PlusRaw(p: Word, q: Word, x: Wide, y: Word)
    requires x == ((p as Wide) + (q as Wide)) & 0xffff_ffff
    requires y == p + q
    ensures x == y as Wide
  {}

  lemma Sum4Raw(p: Word, q: Word, r: Word, s: Word, x: Wide, y: Word)
    requires x == ((p as Wide) + (q as Wide) + (r as Wide) + (s as Wide)) & 0xffff_ffff
    requires y == p + q + r + s
    ensures x == y as Wide
  {}

  lemma Temp1Raw(d: Word, h: Word, s1: Word, c: Word, k: Word, w: Word, x: Wide, y: Word)
    requires x == ((d as Wide) + ((h as Wide) + (s1 as Wide) + (c as Wide) + (k as Wide) + (w as Wide))) & 0xffff_ffff
    requires y == d + (h + s1 + c + k + w)
    ensures x == y as Wide
  {}

  lemma TempsRaw(h: Word, s1: Word, c: Word, k: Word, w: Word, s0: Word, m: Word, x: Wide, y: Word)
    requires x == (((h as Wide) + (s1 as Wide) + (c as Wide) + (k as Wide) + (w as Wide)) + ((s0 as Wide) + (m as Wide))) & 0xffff_ffff
    requires y == (h + s1 + c + k + w) + (s0 + m)
    ensures x == y as Wide
  {}

  lemma WidenIs(x: Word)
    ensures Widen(x) == x as Wide
  {}

  lemma PlusInline(p: Word, q: Word)
    ensures MaskedPlus(p as Wide, q as Wide) == Plus(p, q) as Wide
  {
    PlusRaw(p, q, MaskedPlus(p as Wide, q as Wide), Plus(p, q));
  }

  lemma Sum4Inline(p: Word, q: Word, r: Word, s: Word)
    ensures MaskedSum4(p as Wide, q as Wide, r as Wide, s as Wide) == Sum4(p, q, r, s) as Wide
  {
    Sum4Raw(p, q, r, s, MaskedSum4(p as Wide, q as Wide, r as Wide, s as Wide), Sum4(p, q, r, s));
  }

  lemma Temp1Inline(d: Word, h: Word, s1: Word, c: Word, k: Word, w: Word)
    ensures MaskedPlusTemp1(d as Wide, h as Wide, s1 as Wide, c as Wide, k as Wide, w as Wide)
         == PlusT1(d, h, s1, c, k, w) as Wide
  {
    Temp1Raw(d, h, s1, c, k, w, MaskedPlusTemp1(d as Wide, h as Wide, s1 as Wide, c as Wide, k as Wide, w as Wide),
             PlusT1(d, h, s1, c, k, w));
  }

  lemma TempsInline(h: Word, s1: Word, c: Word, k: Word, w: Word, s0: Word, m: Word)
    ensures MaskedTemps(h as Wide, s1 as Wide, c as Wide, k as Wide, w as Wide, s0 as Wide, m as Wide)
         == T1PlusT2(h, s1, c, k, w, s0, m) as Wide
  {
    TempsRaw(h, s1, c, k, w, s0, m,
             MaskedTemps(h as Wide, s1 as Wide, c as Wide, k as Wide, w as Wide, s0 as Wide, m as Wide),
             T1PlusT2(h, s1, c, k, w, s0, m));
  }

  lemma PlusRefines(p: Word, q: Word)
    ensures MaskedPlus(Widen(p), Widen(q)) == Widen(Plus(p, q))
  {
    hide *;
    WidenIs(p); WidenIs(q); WidenIs(Plus(p, q));
    PlusInline(p, q);
  }

  lemma Sum4Refines(p: Word, q: Word, r: Word, s: Word)
    ensures MaskedSum4(Widen(p), Widen(q), Widen(r), Widen(s)) == Widen(Sum4(p, q, r, s))
  {
    hide *;
    WidenIs(p); WidenIs(q); WidenIs(r); WidenIs(s); WidenIs(Sum4(p, q, r, s));
    Sum4Inline(p, q, r, s);
  }

  lemma Temp1Refines(d: Word, h: Word, s1: Word, c: Word, k: Word, w: Word)
    ensures MaskedPlusTemp1(Widen(d), Widen(h), Widen(s1), Widen(c), Widen(k), Widen(w))
         == Widen(PlusT1(d, h, s1, c, k, w))
  {
    hide *;
    WidenIs(d); WidenIs(h); WidenIs(s1); WidenIs(c); WidenIs(k); WidenIs(w); WidenIs(PlusT1(d, h, s1, c, k, w));
    Temp1Inline(d, h, s1, c, k, w);
  }

  lemma TempsRefines(h: Word, s1: Word, c: Word, k: Word, w: Word, s0: Word, m: Word)
    ensures MaskedTemps(Widen(h), Widen(s1), Widen(c), Widen(k), Widen(w), Widen(s0), Widen(m))
         == Widen(T1PlusT2(h, s1, c, k, w, s0, m))
  {
    hide *;
    WidenIs(h); WidenIs(s1); WidenIs(c); WidenIs(k); WidenIs(w); WidenIs(s0); WidenIs(m);
    WidenIs(T1PlusT2(h, s1, c, k, w, s0, m));
    TempsInline(h, s1, c, k, w, s0, m);
  }

  // w[i] of the block loader, from four message bytes.
  function LoadWord(b0: Byte, b1: Byte, b2: Byte, b3: Byte): Wide {
    ((b0 as Wide) << 24) | ((b1 as Wide) << 16) | ((b2 as Wide) << 8) | (b3 as Wide)
  }

  lemma LoadRefines(b0: Byte, b1: Byte, b2: Byte, b3: Byte)
    ensures LoadWord(b0, b1, b2, b3) == Widen(BigEndian(b0, b1, b2, b3))
  {}

  // One step of the schedule loop.
  function NextWord(w2: Wide, w7: Wide, w15: Wide, w16: Wide): Wide {
    MaskedSum4(WideSmallSigma1(w2), w7, WideSmallSigma0(w15), w16)
  }

  lemma NextWordRefines(w2: Word, w7: Word, w15: Word, w16: Word)
    ensures NextWord(Widen(w2), Widen(w7), Widen(w15), Widen(w16))
         == Widen(Sum4(SmallSigma1(w2), w7, SmallSigma0(w15), w16))
  {
    hide Widen; hide MaskedSum4; hide Sum4; hide WideSmallSigma0; hide WideSmallSigma1; hide SmallSigma0; hide SmallSigma1;
    SigmaRefines(w2); SigmaRefines(w15);
    Sum4Refines(SmallSigma1(w2), w7, SmallSigma0(w15), w16);
  }

  // The two new registers of one round; the other six move along.
  function NewE(d: Wide, e: Wide, f: Wide, g: Wide, h: Wide, k: Wide, w: Wide): Wide {
    MaskedPlusTemp1(d, h, WideBigSigma1(e), WideCh(e, f, g), k, w)
  }

  function NewA(a: Wide, b: Wide, c: Wide, e: Wide, f: Wide, g: Wide, h: Wide, k: Wide, w: Wide): Wide {
    MaskedTemps(h, WideBigSigma1(e), WideCh(e, f, g), k, w, WideBigSigma0(a), WideMaj(a, b, c))
  }

  lemma RoundRefines(s: Regs, k: Word, w: Word)
    ensures NewE(Widen(s.d), Widen(s.e), Widen(s.f), Widen(s.g), Widen(s.h), Widen(k), Widen(w))
         == Widen(Round(s, k, w).e)
    ensures NewA(Widen(s.a), Widen(s.b), Widen(s.c), Widen(s.e), Widen(s.f), Widen(s.g), Widen(s.h), Widen(k), Widen(w))
         == Widen(Round(s, k, w).a)
  {
    hide Widen; hide MaskedPlusTemp1; hide MaskedTemps; hide PlusT1; hide T1PlusT2;
    hide WideBigSigma0, WideBigSigma1, WideCh, WideMaj, BigSigma0, BigSigma1, Ch, Maj;
    SigmaRefines(s.a); SigmaRefines(s.e);
    ChRefines(s.e, s.f, s.g); MajRefines(s.a, s.b, s.c);
    Temp1Refines(s.d, s.h, BigSigma1(s.e), Ch(s.e, s.f, s.g), k, w);
    TempsRefines(s.h, BigSigma1(s.e), Ch(s.e, s.f, s.g), k, w, BigSigma0(s.a), Maj(s.a, s.b, s.c));
  }

  // The four bytes get_hash_bytes takes from a digest word.
  function WideBytes(x: Wide): (b: seq<Byte>)
    ensures |b| == 4
  {
    [((x >> 24) & 0xff) as Byte, ((x >> 16) & 0xff) as Byte, ((x >> 8) & 0xff) as Byte, (x & 0xff) as Byte]
  }

  lemma BytesRefine(x: Word)
    ensures WideBytes(Widen(x)) == WordBytes(x)
  {
    var a, b := WideBytes(Widen(x)), WordBytes(x);
    assert a[0] == b[0] && a[1] == b[1] && a[2] == b[2] && a[3] == b[3];
  }
}
