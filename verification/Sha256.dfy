// The streaming hasher hash256_one_by_one (thirdparty/picosha2/picosha2.h),
// proved against the whole-message definition of FIPS 180-4 in Fips180.dfy.
module Sha256 {
  import opened Fips180
  import opened Sha256Words
  import opened LengthDigits

  function WidenAll(s: seq<Word>): (w: seq<Wide>)
    ensures |w| == |s|
    ensures forall i :: 0 <= i < |s| ==> w[i] == Widen(s[i])
  {
    seq(|s|, i requires 0 <= i < |s| => Widen(s[i]))
  }

  // The schedule loops of hash256_block.
  method FillSchedule(w: array<Wide>, block: seq<Byte>)
    requires w.Length == |block| == 64
    modifies w
    ensures w[..] == WidenAll(Schedule(block, 64))
  {
    hide Widen, LoadWord, NextWord, Schedule;
    for i := 0 to 16
      invariant w[..i] == WidenAll(Schedule(block, i))
    {
      w[i] := LoadWord(block[4 * i], block[4 * i + 1], block[4 * i + 2], block[4 * i + 3]);
      LoadedWord(block, i);
      assert w[..i + 1] == w[..i] + [w[i]];
    }
    for i := 16 to 64
      invariant w[..i] == WidenAll(Schedule(block, i))
    {
      ghost var done := w[..i];
      w[i] := NextWord(w[i - 2], w[i - 7], w[i - 15], w[i - 16]);
      assert w[i] == NextWord(done[i - 2], done[i - 7], done[i - 15], done[i - 16]);
      ExpandedWord(block, i);
      assert w[..i + 1] == done + [w[i]];
    }
    assert w[..64] == w[..];
  }

  lemma LoadedWord(block: seq<Byte>, i: nat)
    requires |block| == 64 && i < 16
    ensures WidenAll(Schedule(block, i + 1)) == WidenAll(Schedule(block, i)) +
            [LoadWord(block[4 * i], block[4 * i + 1], block[4 * i + 2], block[4 * i + 3])]
  {
    hide Widen, LoadWord, BigEndian, Sum4, SmallSigma0, SmallSigma1;
    LoadRefines(block[4 * i], block[4 * i + 1], block[4 * i + 2], block[4 * i + 3]);
  }

  lemma ExpandedWord(block: seq<Byte>, i: nat)
    requires |block| == 64 && 16 <= i < 64
    ensures var done := WidenAll(Schedule(block, i));
      WidenAll(Schedule(block, i + 1)) == done + [NextWord(done[i - 2], done[i - 7], done[i - 15], done[i - 16])]
  {
    hide Widen, NextWord, BigEndian, Sum4, SmallSigma0, SmallSigma1;
    var s := Schedule(block, i);
    NextWordRefines(s[i - 2], s[i - 7], s[i - 15], s[i - 16]);
  }

  lemma RoundMoves(s: Regs, k: Word, w: Word)
    ensures var r := Round(s, k, w); r.b == s.a && r.c == s.b && r.d == s.c && r.f == s.e && r.g == s.f && r.h == s.g
  {}

  // The eight local copies of the digest words hold the working variables.
  predicate Holds(s: Regs, a: Wide, b: Wide, c: Wide, d: Wide, e: Wide, f: Wide, g: Wide, h: Wide) {
    && a == Widen(s.a) && b == Widen(s.b) && c == Widen(s.c) && d == Widen(s.d)
    && e == Widen(s.e) && f == Widen(s.f) && g == Widen(s.g) && h == Widen(s.h)
  }

  // The 64 rounds of hash256_block on local copies of the digest words.
  method RunRounds(w: array<Wide>, ghost words: seq<Word>, ghost start: Regs,
                   a0: Wide, b0: Wide, c0: Wide, d0: Wide, e0: Wide, f0: Wide, g0: Wide, h0: Wide)
    returns (a: Wide, b: Wide, c: Wide, d: Wide, e: Wide, f: Wide, g: Wide, h: Wide)
    requires w.Length == |words| == 64 && w[..] == WidenAll(words)
    requires Holds(start, a0, b0, c0, d0, e0, f0, g0, h0)
    ensures Holds(Rounds(start, words, 64), a, b, c, d, e, f, g, h)
  {
    hide Widen; hide NewE; hide NewA; hide Round;
    a, b, c, d, e, f, g, h := a0, b0, c0, d0, e0, f0, g0, h0;
    for i := 0 to 64
      invariant Holds(Rounds(start, words, i), a, b, c, d, e, f, g, h)
    {
      ghost var s := Rounds(start, words, i);
      assert w[i] == w[..][i];
      RoundRefines(s, K(i), words[i]);
      RoundMoves(s, K(i), words[i]);
      var newE := NewE(d, e, f, g, h, Widen(K(i)), w[i]);
      var newA := NewA(a, b, c, e, f, g, h, Widen(K(i)), w[i]);
      h := g; g := f; f := e; e := newE;
      d := c; c := b; b := a; a := newA;
    }
  }

  // The closing additions of hash256_block.
  method AddRegs(digest: array<Wide>, regs: seq<Wide>)
    requires digest.Length == |regs| == 8
    modifies digest
    ensures forall j :: 0 <= j < 8 ==> digest[j] == MaskedPlus(old(digest[j]), regs[j])
  {
    hide MaskedPlus;
    for i := 0 to 8
      invariant forall j :: 0 <= j < i ==> digest[j] == MaskedPlus(old(digest[j]), regs[j])
      invariant forall j :: i <= j < 8 ==> digest[j] == old(digest[j])
    {
      digest[i] := MaskedPlus(digest[i], regs[i]);
    }
  }

  // hash256_block: one block into the digest, in place.
  method Hash256Block(digest: array<Wide>, block: seq<Byte>, ghost hash: seq<Word>)
    requires digest.Length == |hash| == 8 && |block| == 64
    requires digest[..] == WidenAll(hash)
    modifies digest
    ensures digest[..] == WidenAll(Compress(hash, block))
  {
    hide Widen, MaskedPlus, Holds, RegsOf, Rounds, Schedule, Compress, RegSeq;
    var w := new Wide[64];
    FillSchedule(w, block);
    ghost var was := digest[..];
    DigestHolds(hash, was);
    var a, b, c, d, e, f, g, h :=
      RunRounds(w, Schedule(block, 64), RegsOf(hash),
                digest[0], digest[1], digest[2], digest[3], digest[4], digest[5], digest[6], digest[7]);
    var regs := [a, b, c, d, e, f, g, h];
    RegsWiden(Rounds(RegsOf(hash), Schedule(block, 64), 64), regs);
    AddRegs(digest, regs);
    BlockAdded(hash, block, was, regs, digest[..]);
  }

  lemma DigestHolds(hash: seq<Word>, digest: seq<Wide>)
    requires |hash| == 8 && digest == WidenAll(hash)
    ensures Holds(RegsOf(hash), digest[0], digest[1], digest[2], digest[3], digest[4], digest[5], digest[6], digest[7])
  {
    hide Widen;
  }

  // The closing additions are those of the standard.
  lemma BlockAdded(hash: seq<Word>, block: seq<Byte>, was: seq<Wide>, regs: seq<Wide>, now: seq<Wide>)
    requires |hash| == |regs| == |now| == 8 && |block| == 64 && was == WidenAll(hash)
    requires var last := RegSeq(Rounds(RegsOf(hash), Schedule(block, 64), 64));
      forall j :: 0 <= j < 8 ==> regs[j] == Widen(last[j]) && now[j] == MaskedPlus(was[j], regs[j])
    ensures now == WidenAll(Compress(hash, block))
  {
    hide Widen, MaskedPlus, Plus, RegsOf, Rounds, Schedule, Compress, RegSeq;
    forall j | 0 <= j < 8
      ensures now[j] == Widen(Compress(hash, block)[j])
    {
      PlusRefines(hash[j], RegSeq(Rounds(RegsOf(hash), Schedule(block, 64), 64))[j]);
      CompressAt(hash, block, j);
    }
  }

  lemma RegsWiden(s: Regs, regs: seq<Wide>)
    requires |regs| == 8 && Holds(s, regs[0], regs[1], regs[2], regs[3], regs[4], regs[5], regs[6], regs[7])
    ensures forall j :: 0 <= j < 8 ==> regs[j] == Widen(RegSeq(s)[j])
  {
    hide Widen;
    var r := RegSeq(s);
    assert r[0] == s.a && r[1] == s.b && r[2] == s.c && r[3] == s.d;
    assert r[4] == s.e && r[5] == s.f && r[6] == s.g && r[7] == s.h;
  }

  lemma CompressAt(hash: seq<Word>, block: seq<Byte>, j: nat)
    requires |hash| == 8 && |block| == 64 && j < 8
    ensures Compress(hash, block)[j] == Plus(hash[j], RegSeq(Rounds(RegsOf(hash), Schedule(block, 64), 64))[j])
  {
    hide Rounds, Schedule, Plus, RegSeq, RegsOf;
  }

  // ── streaming ──────────────────────────────────────────────────────────────

  // add_to_data_length: the count goes into the lowest digit, then carries run up.
  method AddToDataLength(digits: array<nat>, n: nat)
    requires digits.Length == 4
    modifies digits
    ensures digits[..] == Carry(old(digits[..])[0 := old(digits[0]) + n], 0)
  {
    var carry: nat := 0;
    digits[0] := digits[0] + n;
    ghost var d := digits[..];
    assert d == old(digits[..])[0 := old(digits[0]) + n];
    ghost var goal := Carry(d, 0);
    NothingDone(d);
    hide Carry, Carries;
    var i: nat := 0;
    while i < 4
      invariant 0 <= i <= 4 && Carries(d, goal, i, carry)
      invariant forall k :: 0 <= k < i ==> digits[k] == goal[k]
      invariant forall k :: i <= k < 4 ==> digits[k] == d[k]
    {
      var digit := digits[i] + carry;
      CarryDigit(d, goal, i, carry);
      if digit >= 65536 {
        carry := digit / 65536;
        digits[i] := digit % 65536;
      } else {
        digits[i] := digit;
        assert digits[..] == goal;
        return;
      }
      i := i + 1;
    }
    assert digits[..] == goal;
  }

  // From digit i on, carry c leads to goal.
  predicate Carries(d: seq<nat>, goal: seq<nat>, i: nat, c: nat) {
    i <= |d| == |goal| && Carry(d[i..], c) == goal[i..]
  }

  lemma NothingDone(d: seq<nat>)
    ensures Carries(d, Carry(d, 0), 0, 0)
  {
    assert d[0..] == d && Carry(d, 0)[0..] == Carry(d, 0);
  }

  // One digit of the carry loop.
  lemma CarryDigit(d: seq<nat>, goal: seq<nat>, i: nat, c: nat)
    requires i < |d| == |goal| && Carries(d, goal, i, c)
    ensures var t := d[i] + c;
      if t >= 65536 then goal[i] == t % 65536 && Carries(d, goal, i + 1, t / 65536)
      else goal[i] == t && forall k :: i < k < |d| ==> goal[k] == d[k]
  {
    var rest := Carry(d[i..], c);
    assert d[i..][1..] == d[i + 1..] && goal[i..][1..] == goal[i + 1..];
    assert rest[0] == goal[i] && rest[1..] == goal[i + 1..];
    if d[i] + c < 65536 {
      forall k | i < k < |d| ensures goal[k] == d[k] { assert goal[i + 1..][k - i - 1] == d[i + 1..][k - i - 1]; }
    }
  }

  class Hasher {
    var buffer: seq<Byte>
    const digits: array<nat>   // the byte count, four 16-bit digits
    const h: array<Wide>
    ghost var blocks: seq<Byte> // the bytes that went through the compression function
    ghost var data: seq<Byte>   // everything fed so far

    // What does not fill a block waits in the buffer, everything before it is
    // in the digest words, and the digits hold the byte count modulo 2^64.
    ghost predicate Valid()
      reads this, digits, h
    {
      && digits.Length == 4 && h.Length == 8
      && data == blocks + buffer
      && |buffer| < 64 && |blocks| % 64 == 0
      && h[..] == WidenAll(HashBlocks(blocks))
      && CountsTo(digits[..], |data|)
    }

    constructor ()
      ensures Valid() && fresh(digits) && fresh(h) && data == []
    {
      buffer, blocks, data := [], [], [];
      digits := new nat[4](i => 0);
      h := new Wide[8](i requires 0 <= i < 8 => Widen(H0[i]));
      new;
      AllZero(digits[..]);
      assert h[..] == WidenAll(H0);
    }

    // process: all whole blocks of the pending bytes are hashed, the rest waits.
    method Process(chunk: seq<Byte>)
      requires Valid()
      requires |chunk| < 0x1_0000_0000_0000_0000 - 65536
      modifies this, digits, h
      ensures Valid()
      ensures data == old(data) + chunk
    {
      hide HashBlocks; hide Carry; hide CountsTo; hide WidenAll; hide Widen;
      AddToDataLength(digits, |chunk|);
      CountUp(old(digits[..]), |data|, |chunk|);
      buffer := buffer + chunk;
      var i := HashWholeBlocks(h, buffer, blocks);
      data := data + chunk;
      blocks := blocks + buffer[..i];
      buffer := buffer[i..];
    }

    // finish: the padding of the standard, in one block or two.
    method Finish()
      requires Valid()
      modifies h
      ensures h[..] == WidenAll(HashBlocks(Padded(data)))
    {
      hide HashBlocks, CountsTo, WidenAll, Widen, Padded;
      FinishBlocks(h, digits, buffer, blocks);
    }

    // get_hash_bytes, for the full 32 bytes.
    method GetHashBytes(ghost hash: seq<Word>) returns (bytes: seq<Byte>)
      requires h.Length == |hash| == 8 && h[..] == WidenAll(hash)
      ensures bytes == DigestBytes(hash)
    {
      hide WideBytes; hide Widen; hide WordBytes;
      bytes := [];
      assert hash[..0] == [];
      for i := 0 to 8
        invariant bytes == DigestBytes(hash[..i])
      {
        assert h[i] == h[..][i] == Widen(hash[i]);
        BytesRefine(hash[i]);
        bytes := bytes + WideBytes(h[i]);
        assert hash[..i + 1][..i] == hash[..i];
      }
      assert hash[..8] == hash;
    }
  }

  // The reading loop of hash256_impl for input iterators: the input goes to the
  // hasher in pieces of at most bufferSize bytes.
  method FeedInput(hasher: Hasher, input: seq<Byte>, bufferSize: nat)
    requires 0 < bufferSize < 0x8000_0000
    requires hasher.Valid() && hasher.data == []
    modifies hasher, hasher.digits, hasher.h
    ensures hasher.Valid() && hasher.data == input
  {
    hide WidenAll; hide Widen; hide HashBlocks; hide CountsTo; hide Compress;
    var first := 0;
    while first < |input|
      invariant 0 <= first <= |input|
      invariant hasher.Valid() && hasher.data == input[..first]
    {
      var size := if |input| - first < bufferSize then |input| - first else bufferSize;
      hasher.Process(input[first..first + size]);
      assert input[..first] + input[first..first + size] == input[..first + size];
      first := first + size;
    }
    assert input[..first] == input;
  }

  // hash256: whatever the buffer size, the result is the SHA-256 digest of the
  // whole input.
  method Hash256(input: seq<Byte>, bufferSize: nat) returns (digest: seq<Byte>)
    requires 0 < bufferSize < 0x8000_0000
    ensures digest == Fips180.Sha256(input)
    ensures |digest| == 32
  {
    hide WidenAll; hide Widen; hide HashBlocks; hide Padded; hide CountsTo; hide DigestBytes; hide Compress;
    var hasher := new Hasher();
    FeedInput(hasher, input, bufferSize);
    hasher.Finish();
    digest := hasher.GetHashBytes(HashBlocks(Padded(input)));
  }

  // finish, on the fields it works with.
  method FinishBlocks(h: array<Wide>, digits: array<nat>, buffer: seq<Byte>, ghost blocks: seq<Byte>)
    requires h.Length == 8 && digits.Length == 4
    requires |blocks| % 64 == 0 && |buffer| < 64
    requires h[..] == WidenAll(HashBlocks(blocks))
    requires CountsTo(digits[..], |blocks + buffer|)
    modifies h
    ensures h[..] == WidenAll(HashBlocks(Padded(blocks + buffer)))
  {
    hide HashBlocks, WidenAll, Widen, Padded, Before, LastBlock, Front, Normal, Val;
    var temp := FirstBlock(buffer);
    if |buffer| > 55 {
      HashNext(h, temp[..], blocks);
      ClearBlock(temp);
    }
    BeforeAndFront(blocks, buffer);
    BitLengthBytes(digits[..], |blocks + buffer|);
    WriteBitLength(digits, temp, 56);
    LastBlockIs(temp[..], buffer, |blocks + buffer|);
    HashNext(h, temp[..], Before(blocks, buffer));
    PaddedTail(blocks, buffer);
  }

  method HashNext(h: array<Wide>, block: seq<Byte>, ghost before: seq<Byte>)
    requires h.Length == 8 && |block| == 64 && |before| % 64 == 0
    requires h[..] == WidenAll(HashBlocks(before))
    modifies h
    ensures h[..] == WidenAll(HashBlocks(before + block))
  {
    hide WidenAll, Compress, HashBlocks;
    Hash256Block(h, block, HashBlocks(before));
    HashBlocksStep(before, block);
  }

  // What is hashed before the last block, the first 56 bytes of that, and the block.
  function Before(blocks: seq<Byte>, tail: seq<Byte>): (b: seq<Byte>)
    requires |blocks| % 64 == 0 && |tail| < 64
    ensures |b| % 64 == 0
  {
    if |tail| <= 55 then blocks else blocks + Opened(tail, 64)
  }

  function Front(tail: seq<Byte>): (b: seq<Byte>)
    requires |tail| < 64
    ensures |b| == 56
  {
    if |tail| <= 55 then Opened(tail, 56) else Zeros(56)
  }

  function LastBlock(tail: seq<Byte>, length: nat): (b: seq<Byte>)
    requires |tail| < 64
    ensures |b| == 64
  {
    Front(tail) + BigEndianBytes(8 * length, 8)
  }

  lemma BeforeAndFront(blocks: seq<Byte>, tail: seq<Byte>)
    requires |blocks| % 64 == 0 && |tail| < 64
    ensures Before(blocks, tail) == if |tail| <= 55 then blocks else blocks + Opened(tail, 64)
    ensures Front(tail) == if |tail| <= 55 then Opened(tail, 56) else Zeros(56)
  {
  }

  lemma LastBlockIs(block: seq<Byte>, tail: seq<Byte>, length: nat)
    requires |block| == 64 && |tail| < 64
    requires block[..56] == Front(tail) && block[56..64] == BigEndianBytes(8 * length, 8)
    ensures block == LastBlock(tail, length)
  {
    assert block == block[..56] + block[56..];
  }

  // The waiting bytes, a one bit, and zeros up to size bytes.
  function Opened(tail: seq<Byte>, size: nat): (b: seq<Byte>)
    requires |tail| < size
    ensures |b| == size
  {
    tail + [0x80] + Zeros(size - 1 - |tail|)
  }

  // The block finish starts with: the waiting bytes, a one bit, zeros.
  method FirstBlock(buffer: seq<Byte>) returns (temp: array<Byte>)
    requires |buffer| < 64
    ensures fresh(temp) && temp.Length == 64
    ensures temp[..] == Opened(buffer, 64)
    ensures |buffer| <= 55 ==> temp[..56] == Opened(buffer, 56)
  {
    temp := new Byte[64](_ => 0);
    var remains := |buffer|;
    for i := 0 to remains
      invariant forall j :: 0 <= j < i ==> temp[j] == buffer[j]
      invariant forall j :: i <= j < 64 ==> temp[j] == 0
    {
      temp[i] := buffer[i];
    }
    temp[remains] := 0x80;
  }

  // Before the second block all but the last four bytes are cleared.
  method ClearBlock(temp: array<Byte>)
    requires temp.Length == 64
    modifies temp
    ensures temp[..56] == Zeros(56)
  {
    for i := 0 to 60
      invariant forall j :: 0 <= j < i ==> temp[j] == 0
    {
      temp[i] := 0;
    }
  }

  // The block loop of process.
  method HashWholeBlocks(h: array<Wide>, bytes: seq<Byte>, ghost before: seq<Byte>) returns (i: nat)
    requires h.Length == 8 && |before| % 64 == 0
    requires h[..] == WidenAll(HashBlocks(before))
    modifies h
    ensures i % 64 == 0 && i <= |bytes| < i + 64
    ensures h[..] == WidenAll(HashBlocks(before + bytes[..i]))
  {
    hide HashBlocks; hide Compress;
    i := 0;
    assert before + bytes[..0] == before;
    while i + 64 <= |bytes|
      invariant i % 64 == 0 && i <= |bytes|
      invariant h[..] == WidenAll(HashBlocks(before + bytes[..i]))
    {
      assert before + bytes[..i] + bytes[i..i + 64] == before + bytes[..i + 64];
      HashNext(h, bytes[i..i + 64], before + bytes[..i]);
      i := i + 64;
    }
  }

  lemma HashBlocksStep(m: seq<Byte>, block: seq<Byte>)
    requires |m| % 64 == 0 && |block| == 64
    ensures HashBlocks(m + block) == Compress(HashBlocks(m), block)
  {
    hide Compress;
    var all := m + block;
    assert all[..|all| - 64] == m && all[|all| - 64..] == block;
  }

  lemma CountUp(d: seq<nat>, length: nat, n: nat)
    requires CountsTo(d, length)
    ensures CountsTo(Carry(d[0 := d[0] + n], 0), length + n)
  {
    var e := d[0 := d[0] + n];
    assert e[1..] == d[1..];
    assert Val(e) == Val(d) + n;
    hide Carry, Pow, Val;
    CarryVal(e, 0);
    PowIs64();
    AddModulo(Val(d), length, n);
  }

  lemma AddModulo(v: nat, length: nat, n: nat)
    requires v == length % 0x1_0000_0000_0000_0000
    ensures (v + n) % 0x1_0000_0000_0000_0000 == (length + n) % 0x1_0000_0000_0000_0000
  {
  }

  // The waiting bytes followed by the padding: one block when at most 55 bytes
  // wait, two otherwise.
  lemma PaddedTail(blocks: seq<Byte>, tail: seq<Byte>)
    requires |blocks| % 64 == 0 && |tail| < 64
    ensures Padded(blocks + tail) == Before(blocks, tail) + LastBlock(tail, |blocks + tail|)
  {
    hide BigEndianBytes, Zeros;
    var data := blocks + tail;
    var length := BigEndianBytes(8 * |data|, 8);
    assert |data| % 64 == |tail|;
    if |tail| <= 55 {
      Regroup1(data, Padding(|data|), blocks, tail, [0x80], Zeros(55 - |tail|), length);
    } else {
      PaddingZeros(|data|, |tail|);
      hide Padding;
      Regroup2(data, Padding(|data|), blocks, tail, [0x80], Zeros(63 - |tail|), Zeros(56), length);
    }
  }

  lemma PaddingZeros(length: nat, r: nat)
    requires length % 64 == r > 55
    ensures Padding(length) == [0x80] + (Zeros(63 - r) + Zeros(56)) + BigEndianBytes(8 * length, 8)
  {
    hide BigEndianBytes; hide Zeros;
    ZerosSplit(63 - r, 56);
    assert ZeroCount(length) == (63 - r) + 56;
  }

  lemma ZerosSplit(m: nat, n: nat)
    ensures Zeros(m + n) == Zeros(m) + Zeros(n)
  {}

  lemma Regroup1(x: seq<Byte>, p: seq<Byte>, a: seq<Byte>, b: seq<Byte>, c: seq<Byte>, d: seq<Byte>, f: seq<Byte>)
    requires x == a + b && p == c + d + f
    ensures x + p == a + ((b + c + d) + f)
  {}

  lemma Regroup2(x: seq<Byte>, p: seq<Byte>, a: seq<Byte>, b: seq<Byte>, c: seq<Byte>, d: seq<Byte>, e: seq<Byte>,
                 f: seq<Byte>)
    requires x == a + b && p == c + (d + e) + f
    ensures x + p == (a + (b + c + d)) + (e + f)
  {}

  // write_data_bit_length, first half: bytes to bits.
  method ShiftDigits(digits: array<nat>) returns (bits: array<nat>)
    requires digits.Length == 4 && Normal(digits[..])
    ensures fresh(bits) && bits[..] == Times8(digits[..], 0)
  {
    var copy := digits[..];
    bits := new nat[4](i requires 0 <= i < 4 => copy[i]);
    hide Times8;
    var carry: nat := 0;
    for i := 0 to 4
      invariant carry == if i == 0 then 0 else copy[i - 1] / 8192
      invariant forall k :: i <= k < 4 ==> bits[k] == copy[k]
      invariant forall k :: 0 <= k < i ==> bits[k] == Times8(copy, 0)[k]
    {
      Times8At(copy, 0, i);
      var before := bits[i];
      bits[i] := (8 * bits[i] + carry) % 65536;
      carry := before / 8192;
    }
    assert bits[..] == Times8(copy, 0);
  }

  lemma {:induction false} Times8At(d: seq<nat>, c: nat, k: nat)
    requires k < |d|
    ensures Times8(d, c)[k] == (8 * d[k] + (if k == 0 then c else d[k - 1] / 8192)) % 65536
    decreases k
  {
    if 0 < k { Times8At(d[1..], d[0] / 8192, k - 1); }
  }

  // write_data_bit_length, second half: the digits as bytes.
  method WriteBitLength(digits: array<nat>, out: array<Byte>, at: nat)
    requires digits.Length == 4 && Normal(digits[..])
    requires at + 8 <= out.Length
    modifies out
    ensures Normal(Times8(digits[..], 0))
    ensures out[at..at + 8] == DigitBytes(Times8(digits[..], 0))
    ensures forall j :: 0 <= j < at || at + 8 <= j < out.Length ==> out[j] == old(out[j])
  {
    hide ToByte; hide Times8;
    Times8Val(digits[..], 0);
    var bits := ShiftDigits(digits);
    ghost var b := bits[..];
    var p := at;
    for i := 4 downto 0
      invariant p == at + 2 * (4 - i)
      invariant bits[..] == b
      invariant out[at..p] == DigitBytes(b[i..])
      invariant forall j :: 0 <= j < at || at + 8 <= j < out.Length ==> out[j] == old(out[j])
    {
      ghost var done := out[at..p];
      assert bits[i] == b[i];
      out[p] := ToByte(bits[i] / 256);
      assert out[at..p] == done;
      out[p + 1] := ToByte(bits[i] % 256);
      assert out[at..p] == done;
      assert b[i..][1..] == b[i + 1..];
      TwoMore(out[..], at, p);
      assert out[at..p + 2] == out[..][at..p + 2] && out[at..p] == out[..][at..p];
      p := p + 2;
    }
    assert b[0..] == b;
  }

  lemma TwoMore(s: seq<Byte>, at: nat, p: nat)
    requires at <= p && p + 2 <= |s|
    ensures s[at..p + 2] == s[at..p] + [s[p], s[p + 1]]
  {
  }

  lemma {:induction false} AllZero(d: seq<nat>)
    requires forall i :: 0 <= i < |d| ==> d[i] == 0
    ensures Val(d) == 0
  {
    if |d| > 0 { AllZero(d[1..]); }
  }
}
