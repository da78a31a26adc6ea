// SHA-256 as sections 4.1.2, 5.1.1, 5.3.3 and 6.2.2 of FIPS 180-4 define it:
// 32-bit words, addition modulo 2^32, a whole message at once. This is the
// reference the streaming hasher in Sha256.dfy is proved against.
module Fips180 {
  type Word = bv32
  type Byte = bv8

  function Pick(i: nat, a: Word, b: Word, c: Word, d: Word, e: Word, f: Word, g: Word, h: Word): Word {
    match i
    case 0 => a
    case 1 => b
    case 2 => c
    case 3 => d
    case 4 => e
    case 5 => f
    case 6 => g
    case _ => h
  }

  // Section 4.2.2, in rows of eight.
  function K(t: nat): Word {
    match t / 8
    case 0 =>
      Pick(t % 8, 0x428a2f98, 0x71374491, 0xb5c0fbcf, 0xe9b5dba5, 0x3956c25b, 0x59f111f1, 0x923f82a4, 0xab1c5ed5)
    case 1 =>
      Pick(t % 8, 0xd807aa98, 0x12835b01, 0x243185be, 0x550c7dc3, 0x72be5d74, 0x80deb1fe, 0x9bdc06a7, 0xc19bf174)
    case 2 =>
      Pick(t % 8, 0xe49b69c1, 0xefbe4786, 0x0fc19dc6, 0x240ca1cc, 0x2de92c6f, 0x4a7484aa, 0x5cb0a9dc, 0x76f988da)
    case 3 =>
      Pick(t % 8, 0x983e5152, 0xa831c66d, 0xb00327c8, 0xbf597fc7, 0xc6e00bf3, 0xd5a79147, 0x06ca6351, 0x14292967)
    case 4 =>
      Pick(t % 8, 0x27b70a85, 0x2e1b2138, 0x4d2c6dfc, 0x53380d13, 0x650a7354, 0x766a0abb, 0x81c2c92e, 0x92722c85)
    case 5 =>
      Pick(t % 8, 0xa2bfe8a1, 0xa81a664b, 0xc24b8b70, 0xc76c51a3, 0xd192e819, 0xd6990624, 0xf40e3585, 0x106aa070)
    case 6 =>
      Pick(t % 8, 0x19a4c116, 0x1e376c08, 0x2748774c, 0x34b0bcb5, 0x391c0cb3, 0x4ed8aa4a, 0x5b9cca4f, 0x682e6ff3)
    case _ =>
      Pick(t % 8, 0x748f82ee, 0x78a5636f, 0x84c87814, 0x8cc70208, 0x90befffa, 0xa4506ceb, 0xbef9a3f7, 0xc67178f2)
  }

  // Section 5.3.3.
  const H0: seq<Word> := [
    0x6a09e667, 0xbb67ae85, 0x3c6ef372, 0xa54ff53a, 0x510e527f, 0x9b05688c, 0x1f83d9ab, 0x5be0cd19
  ]

  // ── section 4.1.2: the six functions ───────────────────────────────────────

  function Ch(x: Word, y: Word, z: Word): Word { (x & y) ^ ((!x) & z) }

  function Maj(x: Word, y: Word, z: Word): Word { (x & y) ^ (x & z) ^ (y & z) }

  function Xor3(x: Word, y: Word, z: Word): Word { x ^ y ^ z }

  function BigSigma0(x: Word): Word { Xor3(x.RotateRight(2), x.RotateRight(13), x.RotateRight(22)) }

  function BigSigma1(x: Word): Word { Xor3(x.RotateRight(6), x.RotateRight(11), x.RotateRight(25)) }

  function SmallSigma0(x: Word): Word { Xor3(x.RotateRight(7), x.RotateRight(18), x >> 3) }

  function SmallSigma1(x: Word): Word { Xor3(x.RotateRight(17), x.RotateRight(19), x >> 10) }

  // ── sums modulo 2^32 ───────────────────────────────────────────────────────

  function Plus(x: Word, y: Word): Word { x + y }

  function Sum4(p: Word, q: Word, r: Word, s: Word): Word { p + q + r + s }

  // d + T1, where T1 = h + S1 + c + k + w.
  function PlusT1(d: Word, h: Word, s1: Word, c: Word, k: Word, w: Word): Word {
    d + (h + s1 + c + k + w)
  }

  // T1 + T2, where T2 = S0 + m.
  function T1PlusT2(h: Word, s1: Word, c: Word, k: Word, w: Word, s0: Word, m: Word): Word {
    (h + s1 + c + k + w) + (s0 + m)
  }

  // ── section 6.2.2: one block ───────────────────────────────────────────────

  // Four bytes, most significant first.
  function BigEndian(b0: Byte, b1: Byte, b2: Byte, b3: Byte): Word {
    ((b0 as Word) << 24) | ((b1 as Word) << 16) | ((b2 as Word) << 8) | (b3 as Word)
  }

  // The first n words of the message schedule of a block.
  function Schedule(block: seq<Byte>, n: nat): (w: seq<Word>)
    requires |block| == 64
    ensures |w| == n
  {
    if n == 0 then []
    else
      var w := Schedule(block, n - 1);
      var t := n - 1;
      w + [if t < 16 then BigEndian(block[4 * t], block[4 * t + 1], block[4 * t + 2], block[4 * t + 3])
           else Sum4(SmallSigma1(w[t - 2]), w[t - 7], SmallSigma0(w[t - 15]), w[t - 16])]
  }

  datatype Regs = Regs(a: Word, b: Word, c: Word, d: Word, e: Word, f: Word, g: Word, h: Word)

  function Round(s: Regs, k: Word, w: Word): Regs {
    var s1, c := BigSigma1(s.e), Ch(s.e, s.f, s.g);
    var s0, m := BigSigma0(s.a), Maj(s.a, s.b, s.c);
    Regs(T1PlusT2(s.h, s1, c, k, w, s0, m), s.a, s.b, s.c, PlusT1(s.d, s.h, s1, c, k, w), s.e, s.f, s.g)
  }

  // The working variables after the first t rounds.
  function Rounds(s: Regs, w: seq<Word>, t: nat): Regs
    requires t <= |w| == 64
  {
    if t == 0 then s else Round(Rounds(s, w, t - 1), K(t - 1), w[t - 1])
  }

  function RegSeq(s: Regs): (r: seq<Word>)
    ensures |r| == 8
  {
    [s.a, s.b, s.c, s.d, s.e, s.f, s.g, s.h]
  }

  function RegsOf(hash: seq<Word>): Regs
    requires |hash| == 8
  {
    Regs(hash[0], hash[1], hash[2], hash[3], hash[4], hash[5], hash[6], hash[7])
  }

  function Compress(hash: seq<Word>, block: seq<Byte>): (r: seq<Word>)
    requires |hash| == 8 && |block| == 64
    ensures |r| == 8
  {
    var s := RegSeq(Rounds(RegsOf(hash), Schedule(block, 64), 64));
    seq(8, i requires 0 <= i < 8 => Plus(hash[i], s[i]))
  }

  // ── whole messages ─────────────────────────────────────────────────────────

  // The hash value after all blocks of a message whose length is a multiple of 64.
  function HashBlocks(m: seq<Byte>): (hash: seq<Word>)
    requires |m| % 64 == 0
    ensures |hash| == 8
    decreases |m|
  {
    if |m| == 0 then H0 else Compress(HashBlocks(m[..|m| - 64]), m[|m| - 64..])
  }

  function ToByte(v: nat): Byte
    requires v < 256
  {
    v as Byte
  }

  // The n low base-256 digits of v, most significant first.
  function BigEndianBytes(v: nat, n: nat): (b: seq<Byte>)
    ensures |b| == n
    decreases n
  {
    if n == 0 then [] else BigEndianBytes(v / 256, n - 1) + [ToByte(v % 256)]
  }

  function Zeros(n: nat): (z: seq<Byte>)
    ensures |z| == n
  {
    seq(n, _ => 0)
  }

  // Section 5.1.1: the fewest zero bytes that leave exactly eight bytes free at
  // the end of a block.
  function ZeroCount(length: nat): (k: nat)
    ensures k < 64
    ensures (length + 9 + k) % 64 == 0
  {
    var r := length % 64;
    if r <= 55 then
      assert length + 9 + (55 - r) == 64 * (length / 64 + 1);
      55 - r
    else
      assert length + 9 + (119 - r) == 64 * (length / 64 + 2);
      119 - r
  }

  // Section 5.1.1: a one bit, the zero bits, the length in bits as 64 bits.
  function Padding(length: nat): (p: seq<Byte>)
    ensures |p| == 9 + ZeroCount(length)
    ensures (length + |p|) % 64 == 0
  {
    var k := ZeroCount(length);
    var p := [0x80] + Zeros(k) + BigEndianBytes(8 * length, 8);
    assert |p| == 9 + k;
    p
  }

  function Padded(m: seq<Byte>): (p: seq<Byte>)
    ensures |p| % 64 == 0
  {
    m + Padding(|m|)
  }

  function WordBytes(x: Word): (b: seq<Byte>)
    ensures |b| == 4
  {
    [(x >> 24) as Byte, ((x >> 16) & 0xff) as Byte, ((x >> 8) & 0xff) as Byte, (x & 0xff) as Byte]
  }

  function DigestBytes(hash: seq<Word>): (b: seq<Byte>)
    ensures |b| == 4 * |hash|
  {
    if |hash| == 0 then [] else DigestBytes(hash[..|hash| - 1]) + WordBytes(hash[|hash| - 1])
  }

  function Sha256(m: seq<Byte>): seq<Byte> {
    DigestBytes(HashBlocks(Padded(m)))
  }
}
