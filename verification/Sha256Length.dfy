// The message length of the streaming hasher: four 16-bit digits with carry,
// least significant first, and their conversion to eight length bytes
// (thirdparty/picosha2/picosha2.h, lines 235-268).
module LengthDigits {
  import opened Fips180

  function Val(d: seq<nat>): nat {
    if |d| == 0 then 0 else d[0] + 65536 * Val(d[1..])
  }

  function Pow(b: nat, n: nat): (p: nat)
    ensures b > 0 ==> p > 0
  {
    if n == 0 then 1 else b * Pow(b, n - 1)
  }

  predicate Normal(d: seq<nat>) {
    forall i :: 0 <= i < |d| ==> d[i] < 65536
  }

  // The digits hold the byte count modulo 2^64.
  predicate CountsTo(d: seq<nat>, length: nat) {
    |d| == 4 && Normal(d) && Val(d) == length % 0x1_0000_0000_0000_0000
  }

  lemma MulMono(a: nat, b: nat, m: nat)
    requires a <= b
    ensures a * m <= b * m
  {}

  lemma MulDistributes(b: nat, x: nat, y: nat)
    ensures b * (x + y) == b * x + b * y
    ensures (x + y) * b == x * b + y * b
  {}

  lemma MulRotate(b: nat, q: nat, p: nat)
    ensures b * (q * p) == q * (b * p)
  {}

  lemma DivModUnique(x: nat, m: nat, q: nat, r: nat)
    requires m > 0 && r < m && x == q * m + r
    ensures x % m == r
  {
    MulDistributes(m, q, 1);
    MulDistributes(m, x / m, 1);
    if q > x / m {
      MulMono(x / m + 1, q, m);
    } else if q < x / m {
      MulMono(q + 1, x / m, m);
    }
  }

  lemma ModScaled(r: nat, b: nat, x: nat, p: nat)
    requires p > 0 && r < b
    ensures b * p > 0
    ensures (r + b * x) % (b * p) == r + b * (x % p)
  {
    var q, y := x / p, x % p;
    MulDistributes(b, q * p, y);
    MulRotate(b, q, p);
    MulMono(1, p, b); MulMono(y, p - 1, b);
    MulDistributes(b, p - 1, 1);
    assert q * p + y == x;
    assert b * y == y * b && b * p == p * b;
    DivModUnique(r + b * x, b * p, q, r + b * y);
  }

  // What the carry loop leaves behind: it stops at the first digit that needs
  // no carry, and a carry out of the last digit is lost.
  function Carry(d: seq<nat>, c: nat): (r: seq<nat>)
    ensures |r| == |d|
  {
    if |d| == 0 then []
    else if d[0] + c >= 65536 then [(d[0] + c) % 65536] + Carry(d[1..], (d[0] + c) / 65536)
    else [d[0] + c] + d[1..]
  }

  // One digit of the carry loop, over numbers.
  lemma CarriedDigit(t: nat, v: nat, tail: nat, p: nat)
    requires 0 < p && tail == (v + t / 65536) % p
    ensures t % 65536 + 65536 * tail == (t + 65536 * v) % (65536 * p)
  {
    assert t + 65536 * v == t % 65536 + 65536 * (v + t / 65536);
    ModScaled(t % 65536, 65536, v + t / 65536, p);
  }

  lemma ValFirst(first: nat, rest: seq<nat>)
    ensures Val([first] + rest) == first + 65536 * Val(rest)
    ensures Pow(65536, 1 + |rest|) == 65536 * Pow(65536, |rest|)
  {
    assert ([first] + rest)[1..] == rest;
  }

  // The digits after the first hold their value and the carry into them.
  lemma CarryUnfolds(d: seq<nat>, c: nat)
    requires |d| > 0 && Normal(d[1..])
    ensures var t, tail := d[0] + c, Carry(d, c)[1..];
      && Carry(d, c) == [t % 65536] + tail
      && if t >= 65536 then tail == Carry(d[1..], t / 65536)
         else tail == d[1..] && Val(tail) == (Val(d[1..]) + t / 65536) % Pow(65536, |d| - 1)
  {
    ValBound(d[1..]);
    hide Val, Pow;
    if d[0] + c < 65536 { DivModUnique(Val(d[1..]), Pow(65536, |d| - 1), 0, Val(d[1..])); }
  }

  lemma {:induction false} CarryVal(d: seq<nat>, c: nat)
    requires Normal(if |d| == 0 then d else d[1..])
    ensures Normal(Carry(d, c))
    ensures Val(Carry(d, c)) == (Val(d) + c) % Pow(65536, |d|)
  {
    if |d| > 0 {
      var t, rest, tail := d[0] + c, d[1..], Carry(d, c)[1..];
      CarryUnfolds(d, c);
      ValFirst(d[0], rest);
      ValFirst(t % 65536, tail);
      assert d == [d[0]] + rest;
      hide Carry, Val, Pow;
      if t >= 65536 { CarryVal(rest, t / 65536); }
      CarriedDigit(t, Val(rest), Val(tail), Pow(65536, |rest|));
    }
  }

  lemma {:induction false} ValBound(d: seq<nat>)
    requires Normal(d)
    ensures Val(d) < Pow(65536, |d|)
  {
    if |d| > 0 { ValBound(d[1..]); }
  }

  // Bytes to bits: every digit shifted left by three, the bits shifted out of
  // one digit moved into the next.
  function Times8(d: seq<nat>, c: nat): (r: seq<nat>)
    ensures |r| == |d|
  {
    if |d| == 0 then [] else [(8 * d[0] + c) % 65536] + Times8(d[1..], d[0] / 8192)
  }

  lemma DigitTimes8(d: nat, c: nat)
    requires d < 65536 && c < 8
    ensures 8 * d + c == 65536 * (d / 8192) + (8 * d + c) % 65536
  {
    var q, r := d / 8192, d % 8192;
    assert 8 * d + c == 65536 * q + (8 * r + c) && 8 * r + c < 65536;
  }

  lemma {:induction false} Times8Normal(d: seq<nat>, c: nat)
    requires Normal(d) && c < 8
    ensures Normal(Times8(d, c))
  {
    if |d| > 0 { Times8Normal(d[1..], d[0] / 8192); }
  }

  // One digit of the shift, over numbers: the product, and that modulo b * p.
  lemma ShiftedProduct(d: nat, c: nat, v: nat)
    requires d < 65536 && c < 8
    ensures 8 * (d + 65536 * v) + c == (8 * d + c) % 65536 + 65536 * (8 * v + d / 8192)
  {
    DigitTimes8(d, c);
  }

  lemma ShiftedDigit(d: nat, c: nat, v: nat, tail: nat, p: nat)
    requires d < 65536 && c < 8 && 0 < p && tail == (8 * v + d / 8192) % p
    ensures (8 * d + c) % 65536 + 65536 * tail == (8 * (d + 65536 * v) + c) % (65536 * p)
  {
    ShiftedProduct(d, c, v);
    ModScaled((8 * d + c) % 65536, 65536, 8 * v + d / 8192, p);
  }

  lemma Times8Unfolds(d: seq<nat>, c: nat)
    requires |d| > 0
    ensures Val(d) == d[0] + 65536 * Val(d[1..])
    ensures Val(Times8(d, c)) == (8 * d[0] + c) % 65536 + 65536 * Val(Times8(d[1..], d[0] / 8192))
    ensures Pow(65536, |d|) == 65536 * Pow(65536, |d| - 1)
  {
    assert Times8(d, c)[1..] == Times8(d[1..], d[0] / 8192);
    hide Normal;
  }

  lemma Times8Step(d: seq<nat>, c: nat)
    requires Normal(d) && c < 8 && |d| > 0
    requires Val(Times8(d[1..], d[0] / 8192)) == (8 * Val(d[1..]) + d[0] / 8192) % Pow(65536, |d| - 1)
    ensures Val(Times8(d, c)) == (8 * Val(d) + c) % Pow(65536, |d|)
  {
    hide Val, Pow, Times8;
    Times8Unfolds(d, c);
    ShiftedDigit(d[0], c, Val(d[1..]), Val(Times8(d[1..], d[0] / 8192)), Pow(65536, |d| - 1));
  }

  lemma {:induction false} Times8Val(d: seq<nat>, c: nat)
    requires Normal(d) && c < 8
    ensures Normal(Times8(d, c))
    ensures Val(Times8(d, c)) == (8 * Val(d) + c) % Pow(65536, |d|)
  {
    Times8Normal(d, c);
    if |d| > 0 {
      Times8Val(d[1..], d[0] / 8192);
      Times8Step(d, c);
    }
  }

  // The digits as bytes, most significant first.
  function DigitBytes(d: seq<nat>): (b: seq<Byte>)
    requires Normal(d)
    ensures |b| == 2 * |d|
  {
    if |d| == 0 then [] else DigitBytes(d[1..]) + [ToByte(d[0] / 256), ToByte(d[0] % 256)]
  }

  lemma TwoBytes(v: nat, d: nat, rest: nat)
    requires v == d + 65536 * rest && d < 65536
    ensures v % 256 == d % 256
    ensures v / 256 % 256 == d / 256
    ensures v / 256 / 256 == rest
  {
    assert v / 256 == d / 256 + 256 * rest;
  }

  lemma BigEndianTwo(v: nat, n: nat)
    ensures BigEndianBytes(v, n + 2)
         == BigEndianBytes(v / 256 / 256, n) + [ToByte(v / 256 % 256), ToByte(v % 256)]
  {
    assert BigEndianBytes(v / 256, n + 1) == BigEndianBytes(v / 256 / 256, n) + [ToByte(v / 256 % 256)];
  }

  lemma {:induction false} DigitBytesVal(d: seq<nat>)
    requires Normal(d)
    ensures DigitBytes(d) == BigEndianBytes(Val(d), 2 * |d|)
  {
    hide ToByte;
    if |d| > 0 {
      DigitBytesVal(d[1..]);
      TwoBytes(Val(d), d[0], Val(d[1..]));
      BigEndianTwo(Val(d), 2 * |d| - 2);
    }
  }

  lemma LowDigit(v: nat, p: nat)
    requires p > 0
    ensures v % (256 * p) % 256 == v % 256 && v % (256 * p) / 256 == v / 256 % p
  {
    ModScaled(v % 256, 256, v / 256, p);
    TwoDigits(v % (256 * p), v % 256, v / 256 % p);
  }

  lemma TwoDigits(u: nat, low: nat, high: nat)
    requires u == low + 256 * high && low < 256
    ensures u % 256 == low && u / 256 == high
  {}

  lemma {:induction false} BigEndianMod(v: nat, n: nat)
    ensures BigEndianBytes(v % Pow(256, n), n) == BigEndianBytes(v, n)
    decreases n
  {
    hide ToByte;
    if n > 0 {
      assert Pow(256, n) == 256 * Pow(256, n - 1);
      hide Pow;
      LowDigit(v, Pow(256, n - 1));
      BigEndianMod(v / 256, n - 1);
    }
  }

  // The eight bytes written for a byte count held modulo 2^64 in the digits are
  // the bit count modulo 2^64.
  lemma BitLengthBytes(d: seq<nat>, length: nat)
    requires CountsTo(d, length)
    ensures Normal(Times8(d, 0))
    ensures DigitBytes(Times8(d, 0)) == BigEndianBytes(8 * length, 8)
  {
    hide ToByte; hide BigEndianBytes; hide DigitBytes; hide Times8; hide Val; hide Pow;
    Times8Val(d, 0);
    DigitBytesVal(Times8(d, 0));
    PowIs64();
    var m := 0x1_0000_0000_0000_0000;
    var q := length / m;
    assert 8 * (length % m) % m == 8 * length % m by {
      assert 8 * length == 8 * q * m + 8 * (length % m);
      var x := 8 * (length % m);
      DivModUnique(8 * length, m, 8 * q + x / m, x % m);
    }
    BigEndianMod(8 * length, 8);
  }

  lemma PowIs64()
    ensures Pow(65536, 4) == Pow(256, 8) == 0x1_0000_0000_0000_0000
  {
    assert Pow(65536, 2) == 0x1_0000_0000;
    assert Pow(256, 4) == 0x1_0000_0000;
    assert Pow(256, 6) == 0x1_0000_0000_0000;
  }
}
