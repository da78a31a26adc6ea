// What the constants of SHA-256 are (sections 4.2.2 and 5.3.3 of FIPS 180-4). The
// refinement proofs compare the hasher with a reference that reads the same tables.
module Sha256Constants {
  import opened Fips180

  function PickNat(i: nat, a: nat, b: nat, c: nat, d: nat, e: nat, f: nat, g: nat, h: nat): nat {
    match i
    case 0 => a
    case 1 => b
    case 2 => c
    case 3 => d
    case 4 => e
    case 5 => f
    case 6 => g
    case _ => h
  }

  // The first 64 primes.
  function Prime(t: nat): nat {
    match t / 8
    case 0 => PickNat(t % 8, 2, 3, 5, 7, 11, 13, 17, 19)
    case 1 => PickNat(t % 8, 23, 29, 31, 37, 41, 43, 47, 53)
    case 2 => PickNat(t % 8, 59, 61, 67, 71, 73, 79, 83, 89)
    case 3 => PickNat(t % 8, 97, 101, 103, 107, 109, 113, 127, 131)
    case 4 => PickNat(t % 8, 137, 139, 149, 151, 157, 163, 167, 173)
    case 5 => PickNat(t % 8, 179, 181, 191, 193, 197, 199, 211, 223)
    case 6 => PickNat(t % 8, 227, 229, 233, 239, 241, 251, 257, 263)
    case _ => PickNat(t % 8, 269, 271, 277, 281, 283, 293, 307, 311)
  }

  // No prime below 18 divides n, other than n itself.
  predicate Trial(n: nat) {
    && (n % 2 != 0 || n == 2) && (n % 3 != 0 || n == 3) && (n % 5 != 0 || n == 5) && (n % 7 != 0 || n == 7)
    && (n % 11 != 0 || n == 11) && (n % 13 != 0 || n == 13) && (n % 17 != 0 || n == 17)
  }

  lemma TrialPassed()
    ensures Trial(2) && Trial(3) && Trial(5) && Trial(7) && Trial(11) && Trial(13) && Trial(17) && Trial(19)
    ensures Trial(23) && Trial(29) && Trial(31) && Trial(37) && Trial(41) && Trial(43) && Trial(47) && Trial(53)
    ensures Trial(59) && Trial(61) && Trial(67) && Trial(71) && Trial(73) && Trial(79) && Trial(83) && Trial(89)
    ensures Trial(97) && Trial(101) && Trial(103) && Trial(107) && Trial(109) && Trial(113) && Trial(127) && Trial(131)
    ensures Trial(137) && Trial(139) && Trial(149) && Trial(151) && Trial(157) && Trial(163) && Trial(167) && Trial(173)
    ensures Trial(179) && Trial(181) && Trial(191) && Trial(193) && Trial(197) && Trial(199) && Trial(211) && Trial(223)
    ensures Trial(227) && Trial(229) && Trial(233) && Trial(239) && Trial(241) && Trial(251) && Trial(257) && Trial(263)
    ensures Trial(269) && Trial(271) && Trial(277) && Trial(281) && Trial(283) && Trial(293) && Trial(307) && Trial(311)
  {}

  lemma Ascending(t: nat)
    requires t < 63
    ensures Prime(t) < Prime(t + 1)
  {
  }

  // They ascend, and have no smaller prime factor below 18; since they are below
  // 18 * 18, they are primes.
  lemma PrimesAscend(t: nat)
    requires t < 64
    ensures 1 < Prime(t) < 324 && Trial(Prime(t)) && (t < 63 ==> Prime(t) < Prime(t + 1))
  {
    if t < 63 { Ascending(t); }
    hide Trial;
    TrialPassed();
  }

  // k is the first 32 bits of the fractional part of the cube root of p, whose
  // whole part is c.
  predicate CubeRootBits(p: nat, c: nat, k: nat) {
    var r := c * 0x1_0000_0000 + k;
    k < 0x1_0000_0000 && r * r * r <= p * 0x1_0000_0000_0000_0000_0000_0000 < (r + 1) * (r + 1) * (r + 1)
  }

  predicate SquareRootBits(p: nat, c: nat, h: nat) {
    var r := c * 0x1_0000_0000 + h;
    h < 0x1_0000_0000 && r * r <= p * 0x1_0000_0000_0000_0000 < (r + 1) * (r + 1)
  }

  function CubeRootFloor(p: nat): nat {
    if p < 8 then 1 else if p < 27 then 2 else if p < 64 then 3 else if p < 125 then 4 else if p < 216 then 5 else 6
  }

  function SquareRootFloor(p: nat): nat { if p < 4 then 1 else if p < 9 then 2 else if p < 16 then 3 else 4 }

  predicate FromCubeRoot(t: nat) { CubeRootBits(Prime(t), CubeRootFloor(Prime(t)), K(t) as nat) }

  lemma CubeRoots0()
    ensures CubeRootBits(2, 1, 0x428a2f98) && CubeRootBits(3, 1, 0x71374491)
    ensures CubeRootBits(5, 1, 0xb5c0fbcf) && CubeRootBits(7, 1, 0xe9b5dba5)
    ensures CubeRootBits(11, 2, 0x3956c25b) && CubeRootBits(13, 2, 0x59f111f1)
    ensures CubeRootBits(17, 2, 0x923f82a4) && CubeRootBits(19, 2, 0xab1c5ed5)
  {}

  lemma Words0()
    ensures K(0) == 0x428a2f98 && K(1) == 0x71374491 && K(2) == 0xb5c0fbcf && K(3) == 0xe9b5dba5
    ensures K(4) == 0x3956c25b && K(5) == 0x59f111f1 && K(6) == 0x923f82a4 && K(7) == 0xab1c5ed5
  {}

  lemma Row0(t: nat)
    requires 0 <= t < 8
    ensures FromCubeRoot(t)
  {
    hide CubeRootBits, K;
    CubeRoots0();
    Words0();
  }

  lemma CubeRoots8()
    ensures CubeRootBits(23, 2, 0xd807aa98) && CubeRootBits(29, 3, 0x12835b01)
    ensures CubeRootBits(31, 3, 0x243185be) && CubeRootBits(37, 3, 0x550c7dc3)
    ensures CubeRootBits(41, 3, 0x72be5d74) && CubeRootBits(43, 3, 0x80deb1fe)
    ensures CubeRootBits(47, 3, 0x9bdc06a7) && CubeRootBits(53, 3, 0xc19bf174)
  {}

  lemma Words8()
    ensures K(8) == 0xd807aa98 && K(9) == 0x12835b01 && K(10) == 0x243185be && K(11) == 0x550c7dc3
    ensures K(12) == 0x72be5d74 && K(13) == 0x80deb1fe && K(14) == 0x9bdc06a7 && K(15) == 0xc19bf174
  {}

  lemma Row8(t: nat)
    requires 8 <= t < 16
    ensures FromCubeRoot(t)
  {
    hide CubeRootBits, K;
    CubeRoots8();
    Words8();
  }

  lemma CubeRoots16()
    ensures CubeRootBits(59, 3, 0xe49b69c1) && CubeRootBits(61, 3, 0xefbe4786)
    ensures CubeRootBits(67, 4, 0x0fc19dc6) && CubeRootBits(71, 4, 0x240ca1cc)
    ensures CubeRootBits(73, 4, 0x2de92c6f) && CubeRootBits(79, 4, 0x4a7484aa)
    ensures CubeRootBits(83, 4, 0x5cb0a9dc) && CubeRootBits(89, 4, 0x76f988da)
  {}

  lemma Words16()
    ensures K(16) == 0xe49b69c1 && K(17) == 0xefbe4786 && K(18) == 0x0fc19dc6 && K(19) == 0x240ca1cc
    ensures K(20) == 0x2de92c6f && K(21) == 0x4a7484aa && K(22) == 0x5cb0a9dc && K(23) == 0x76f988da
  {}

  lemma Row16(t: nat)
    requires 16 <= t < 24
    ensures FromCubeRoot(t)
  {
    hide CubeRootBits, K;
    CubeRoots16();
    Words16();
  }

  lemma CubeRoots24()
    ensures CubeRootBits(97, 4, 0x983e5152) && CubeRootBits(101, 4, 0xa831c66d)
    ensures CubeRootBits(103, 4, 0xb00327c8) && CubeRootBits(107, 4, 0xbf597fc7)
    ensures CubeRootBits(109, 4, 0xc6e00bf3) && CubeRootBits(113, 4, 0xd5a79147)
    ensures CubeRootBits(127, 5, 0x06ca6351) && CubeRootBits(131, 5, 0x14292967)
  {}

  lemma Words24()
    ensures K(24) == 0x983e5152 && K(25) == 0xa831c66d && K(26) == 0xb00327c8 && K(27) == 0xbf597fc7
    ensures K(28) == 0xc6e00bf3 && K(29) == 0xd5a79147 && K(30) == 0x06ca6351 && K(31) == 0x14292967
  {}

  lemma Row24(t: nat)
    requires 24 <= t < 32
    ensures FromCubeRoot(t)
  {
    hide CubeRootBits, K;
    CubeRoots24();
    Words24();
  }

  lemma CubeRoots32()
    ensures CubeRootBits(137, 5, 0x27b70a85) && CubeRootBits(139, 5, 0x2e1b2138)
    ensures CubeRootBits(149, 5, 0x4d2c6dfc) && CubeRootBits(151, 5, 0x53380d13)
    ensures CubeRootBits(157, 5, 0x650a7354) && CubeRootBits(163, 5, 0x766a0abb)
    ensures CubeRootBits(167, 5, 0x81c2c92e) && CubeRootBits(173, 5, 0x92722c85)
  {}

  lemma Words32()
    ensures K(32) == 0x27b70a85 && K(33) == 0x2e1b2138 && K(34) == 0x4d2c6dfc && K(35) == 0x53380d13
    ensures K(36) == 0x650a7354 && K(37) == 0x766a0abb && K(38) == 0x81c2c92e && K(39) == 0x92722c85
  {}

  lemma Row32(t: nat)
    requires 32 <= t < 40
    ensures FromCubeRoot(t)
  {
    hide CubeRootBits, K;
    CubeRoots32();
    Words32();
  }

  lemma CubeRoots40()
    ensures CubeRootBits(179, 5, 0xa2bfe8a1) && CubeRootBits(181, 5, 0xa81a664b)
    ensures CubeRootBits(191, 5, 0xc24b8b70) && CubeRootBits(193, 5, 0xc76c51a3)
    ensures CubeRootBits(197, 5, 0xd192e819) && CubeRootBits(199, 5, 0xd6990624)
    ensures CubeRootBits(211, 5, 0xf40e3585) && CubeRootBits(223, 6, 0x106aa070)
  {}

  lemma Words40()
    ensures K(40) == 0xa2bfe8a1 && K(41) == 0xa81a664b && K(42) == 0xc24b8b70 && K(43) == 0xc76c51a3
    ensures K(44) == 0xd192e819 && K(45) == 0xd6990624 && K(46) == 0xf40e3585 && K(47) == 0x106aa070
  {}

  lemma Row40(t: nat)
    requires 40 <= t < 48
    ensures FromCubeRoot(t)
  {
    hide CubeRootBits, K;
    CubeRoots40();
    Words40();
  }

  lemma CubeRoots48()
    ensures CubeRootBits(227, 6, 0x19a4c116) && CubeRootBits(229, 6, 0x1e376c08)
    ensures CubeRootBits(233, 6, 0x2748774c) && CubeRootBits(239, 6, 0x34b0bcb5)
    ensures CubeRootBits(241, 6, 0x391c0cb3) && CubeRootBits(251, 6, 0x4ed8aa4a)
    ensures CubeRootBits(257, 6, 0x5b9cca4f) && CubeRootBits(263, 6, 0x682e6ff3)
  {}

  lemma Words48()
    ensures K(48) == 0x19a4c116 && K(49) == 0x1e376c08 && K(50) == 0x2748774c && K(51) == 0x34b0bcb5
    ensures K(52) == 0x391c0cb3 && K(53) == 0x4ed8aa4a && K(54) == 0x5b9cca4f && K(55) == 0x682e6ff3
  {}

  lemma Row48(t: nat)
    requires 48 <= t < 56
    ensures FromCubeRoot(t)
  {
    hide CubeRootBits, K;
    CubeRoots48();
    Words48();
  }

  lemma CubeRoots56()
    ensures CubeRootBits(269, 6, 0x748f82ee) && CubeRootBits(271, 6, 0x78a5636f)
    ensures CubeRootBits(277, 6, 0x84c87814) && CubeRootBits(281, 6, 0x8cc70208)
    ensures CubeRootBits(283, 6, 0x90befffa) && CubeRootBits(293, 6, 0xa4506ceb)
    ensures CubeRootBits(307, 6, 0xbef9a3f7) && CubeRootBits(311, 6, 0xc67178f2)
  {}

  lemma Words56()
    ensures K(56) == 0x748f82ee && K(57) == 0x78a5636f && K(58) == 0x84c87814 && K(59) == 0x8cc70208
    ensures K(60) == 0x90befffa && K(61) == 0xa4506ceb && K(62) == 0xbef9a3f7 && K(63) == 0xc67178f2
  {}

  lemma Row56(t: nat)
    requires 56 <= t < 64
    ensures FromCubeRoot(t)
  {
    hide CubeRootBits, K;
    CubeRoots56();
    Words56();
  }

  // Section 4.2.2: each round constant is that of its prime.
  lemma RoundConstants(t: nat)
    requires t < 64
    ensures CubeRootBits(Prime(t), CubeRootFloor(Prime(t)), K(t) as nat)
  {
    assert FromCubeRoot(t) by {
      hide FromCubeRoot;
      if t < 8 { Row0(t); }
      else if t < 16 { Row8(t); }
      else if t < 24 { Row16(t); }
      else if t < 32 { Row24(t); }
      else if t < 40 { Row32(t); }
      else if t < 48 { Row40(t); }
      else if t < 56 { Row48(t); }
      else { Row56(t); }
    }
    hide CubeRootBits, K, Prime, CubeRootFloor;
  }

  lemma SquareRoots()
    ensures SquareRootBits(2, 1, 0x6a09e667) && SquareRootBits(3, 1, 0xbb67ae85)
    ensures SquareRootBits(5, 2, 0x3c6ef372) && SquareRootBits(7, 2, 0xa54ff53a)
    ensures SquareRootBits(11, 3, 0x510e527f) && SquareRootBits(13, 3, 0x9b05688c)
    ensures SquareRootBits(17, 4, 0x1f83d9ab) && SquareRootBits(19, 4, 0x5be0cd19)
  {}

  lemma InitialWords()
    ensures |H0| == 8
    ensures H0[0] == 0x6a09e667 && H0[1] == 0xbb67ae85 && H0[2] == 0x3c6ef372 && H0[3] == 0xa54ff53a
    ensures H0[4] == 0x510e527f && H0[5] == 0x9b05688c && H0[6] == 0x1f83d9ab && H0[7] == 0x5be0cd19
  {}

  // Section 5.3.3: so is each word of the initial hash value, with square roots.
  lemma InitialHash(t: nat)
    requires t < 8
    ensures |H0| == 8 && SquareRootBits(Prime(t), SquareRootFloor(Prime(t)), H0[t] as nat)
  {
    hide SquareRootBits;
    SquareRoots();
    InitialWords();
  }

  // ── the first steps of the example of FIPS 180-2, appendix B.1 ─────────────

  // The block of "abc".
  lemma ExamplePadding()
    ensures Padded([0x61, 0x62, 0x63]) == [0x61, 0x62, 0x63, 0x80] + Zeros(52) + [0, 0, 0, 0, 0, 0, 0, 0x18]
  {
    assert BigEndianBytes(24, 8) == [0, 0, 0, 0, 0, 0, 0, 0x18] by {
      assert BigEndianBytes(0, 7) == [0, 0, 0, 0, 0, 0, 0];
    }
  }

  lemma ExampleWords()
    ensures BigEndian(0x61, 0x62, 0x63, 0x80) == 0x61626380
    ensures WordBytes(0xba7816bf) == [0xba, 0x78, 0x16, 0xbf]
    ensures SmallSigma0(0x61626380) == 0x940e90ef && SmallSigma1(0x61626380) == 0x7da86405
    ensures Sum4(1, 2, 3, 0xffff_ffff) == 5
  {}

  // The first two rounds.
  lemma ExampleRounds()
    ensures Round(Regs(0x6a09e667, 0xbb67ae85, 0x3c6ef372, 0xa54ff53a,
                       0x510e527f, 0x9b05688c, 0x1f83d9ab, 0x5be0cd19),
                  0x428a2f98, 0x61626380) ==
            Regs(0x5d6aebcd, 0x6a09e667, 0xbb67ae85, 0x3c6ef372,
                       0xfa2a4622, 0x510e527f, 0x9b05688c, 0x1f83d9ab)
    ensures Round(Regs(0x5d6aebcd, 0x6a09e667, 0xbb67ae85, 0x3c6ef372,
                       0xfa2a4622, 0x510e527f, 0x9b05688c, 0x1f83d9ab),
                  0x71374491, 0x00000000) ==
            Regs(0x5a6ad9ad, 0x5d6aebcd, 0x6a09e667, 0xbb67ae85,
                       0x78ce7989, 0xfa2a4622, 0x510e527f, 0x9b05688c)
  {}

  // The recurrence of section 6.2.2, for every block.
  lemma {:induction false} SchedulePrefix(block: seq<Byte>, t: nat, n: nat)
    requires |block| == 64 && t < n
    ensures Schedule(block, n)[t] == Schedule(block, t + 1)[t]
    decreases n
  {
    if t + 1 < n { SchedulePrefix(block, t, n - 1); }
  }

  lemma ScheduleRecurrence(block: seq<Byte>, t: nat)
    requires |block| == 64 && t < 64
    ensures var w := Schedule(block, 64);
      w[t] == if t < 16 then BigEndian(block[4 * t], block[4 * t + 1], block[4 * t + 2], block[4 * t + 3])
              else Sum4(SmallSigma1(w[t - 2]), w[t - 7], SmallSigma0(w[t - 15]), w[t - 16])
  {
    hide Sum4, SmallSigma0, SmallSigma1, BigEndian;
    SchedulePrefix(block, t, 64);
    if 16 <= t {
      SchedulePrefix(block, t - 2, 64);
      SchedulePrefix(block, t - 7, 64);
      SchedulePrefix(block, t - 15, 64);
      SchedulePrefix(block, t - 16, 64);
      SchedulePrefix(block, t - 2, t);
      SchedulePrefix(block, t - 7, t);
      SchedulePrefix(block, t - 15, t);
      SchedulePrefix(block, t - 16, t);
    }
  }

  // Round t works on constant t and word t; the result is added to the old hash.
  lemma CompressionSteps(s: Regs, w: seq<Word>, t: nat, hash: seq<Word>, block: seq<Byte>, j: nat)
    requires |w| == 64 && t < 64 && |hash| == 8 && |block| == 64 && j < 8
    ensures Rounds(s, w, 0) == s && Rounds(s, w, t + 1) == Round(Rounds(s, w, t), K(t), w[t])
    ensures Compress(hash, block)[j] == hash[j] + RegSeq(Rounds(RegsOf(hash), Schedule(block, 64), 64))[j]
  {
    hide Round, K, Schedule, RegsOf, RegSeq;
  }
}
