// Vectors and quaternions over the reals (include/common/math_utils.hpp).
module Geometry {
  // The mathematical functions the code calls; only Laws is ever used of them.
  datatype Math = Math(Sqrt: real -> real, Sin: real -> real, Cos: real -> real, Acos: real -> real) {
    ghost predicate Laws() {
      && (forall x: real :: 0.0 <= x ==> 0.0 <= Sqrt(x) && Sqrt(x) * Sqrt(x) == x)
      && (forall x: real :: Sin(x) * Sin(x) + Cos(x) * Cos(x) == 1.0)
      && Sin(0.0) == 0.0 && Cos(0.0) == 1.0
      && (forall x: real :: -1.0 <= x <= 1.0 ==> Cos(Acos(x)) == x)
    }
  }

  datatype Vec3 = Vec3(x: real, y: real, z: real) {
    function Add(v: Vec3): Vec3 { Vec3(x + v.x, y + v.y, z + v.z) }
    function Sub(v: Vec3): Vec3 { Vec3(x - v.x, y - v.y, z - v.z) }
    function Scale(k: real): Vec3 { Vec3(k * x, k * y, k * z) }
    function Dot(v: Vec3): real { x * v.x + y * v.y + z * v.z }
    function Cross(v: Vec3): Vec3 { Vec3(y * v.z - z * v.y, z * v.x - x * v.z, x * v.y - y * v.x) }
  }

  function Dot4(a0: real, a1: real, a2: real, a3: real, b0: real, b1: real, b2: real, b3: real): real {
    a0 * b0 + a1 * b1 + a2 * b2 + a3 * b3
  }

  // Scalar first.
  datatype Quat = Quat(w: real, x: real, y: real, z: real) {
    function Dot(q: Quat): real { Dot4(w, x, y, z, q.w, q.x, q.y, q.z) }
    function Neg(): Quat { Quat(-w, -x, -y, -z) }
    function Conj(): Quat { Quat(w, -x, -y, -z) }
    function Scale(k: real): Quat { Quat(k * w, k * x, k * y, k * z) }
    function Add(q: Quat): Quat { Quat(w + q.w, x + q.x, y + q.y, z + q.z) }
    predicate Unit() { Dot(this) == 1.0 }
  }

  const EPS := 0.000000000001

  function Min(a: real, b: real): real { if b < a then b else a }

  function Max(a: real, b: real): real { if a < b then b else a }

  function Abs(x: real): real { if x < 0.0 then -x else x }

  function ClampReal(v: real, lo: real, hi: real): (r: real)
    ensures lo <= hi ==> lo <= r <= hi && (lo <= v <= hi ==> r == v)
  {
    if v < lo then lo else if hi < v then hi else v
  }

  function Clamp(v: int, lo: int, hi: int): (r: int)
    ensures lo <= hi ==> lo <= r <= hi
    ensures lo <= v <= hi ==> r == v
  {
    if v < lo then lo else if hi < v then hi else v
  }

  function Clamp01(v: real): (r: real)
    ensures 0.0 <= r <= 1.0
  {
    if v < 0.0 then 0.0 else if 1.0 < v then 1.0 else v
  }

  function Mix(a: real, b: real, w: real): real { (1.0 - w) * a + w * b }

  predicate Between(v: real, a: real, b: real) { (a <= v <= b) || (b <= v <= a) }

  lemma Product(a: real, b: real)
    requires 0.0 <= a && 0.0 <= b
    ensures 0.0 <= a * b
  {
  }

  lemma StrictProduct(a: real, b: real)
    requires 0.0 < a && 0.0 < b
    ensures 0.0 < a * b
  {
  }

  lemma SquareGrows(a: real, b: real)
    requires 0.0 <= a <= b
    ensures a * a <= b * b
  {
    Product(a, b - a);
    Product(b, b - a);
  }

  lemma SameSquare(a: real, b: real)
    requires 0.0 <= a && 0.0 <= b && a * a == b * b
    ensures a == b
  {
    if a < b { SquareGrowsStrictly(a, b); }
    if b < a { SquareGrowsStrictly(b, a); }
  }

  lemma SquareGrowsStrictly(a: real, b: real)
    requires 0.0 <= a < b
    ensures a * a < b * b
  {
    StrictProduct(b - a, b + a);
    assert (b - a) * (b + a) == b * b - a * a;
  }

  lemma MixBetween(a: real, b: real, w: real)
    requires 0.0 <= w <= 1.0
    ensures Between(Mix(a, b, w), a, b)
  {
    if a <= b {
      Product(w, b - a);
      Product(1.0 - w, b - a);
    } else {
      Product(w, a - b);
      Product(1.0 - w, a - b);
    }
  }

  function QuatUnit(m: Math, q: Quat): Quat {
    var norm := Max(m.Sqrt(q.Dot(q)), EPS);
    q.Scale(1.0 / norm)
  }

  // The one of b and -b on a's side, so that the short way round is taken.
  function Aligned(a: Quat, b: Quat): Quat {
    if a.Dot(b) < 0.0 then b.Neg() else b
  }

  function Lerp(a: Quat, b: Quat, t: real): Quat {
    Quat(a.w + t * (b.w - a.w), a.x + t * (b.x - a.x), a.y + t * (b.y - a.y), a.z + t * (b.z - a.z))
  }

  // quat_slerp: linear for close quaternions.
  function Slerp(m: Math, a: Quat, b: Quat, t: real): Quat {
    var bb := Aligned(a, b);
    var d := a.Dot(bb);
    if 0.9995 < d then QuatUnit(m, Lerp(a, bb, t)) else SlerpArc(m, a, bb, d, t)
  }

  function SlerpArc(m: Math, a: Quat, b: Quat, d: real, t: real): Quat {
    var theta := PartOf(m.Acos(d), t);
    a.Scale(ArcWeight0(m, d, theta)).Add(b.Scale(ArcWeight1(m, d, theta)))
  }

  function PartOf(angle: real, t: real): real { angle * t }

  // The sine is zero only outside 0 <= d <= 0.9995 (SineOfArc), where this is not used.
  function ArcWeight0(m: Math, d: real, theta: real): real {
    var s := m.Sin(m.Acos(d));
    if s == 0.0 then 1.0 else Share0(d, s, m.Sin(theta), m.Cos(theta))
  }

  function ArcWeight1(m: Math, d: real, theta: real): real {
    var s := m.Sin(m.Acos(d));
    if s == 0.0 then 0.0 else Share1(s, m.Sin(theta))
  }

  function Share0(d: real, s: real, sn: real, cs: real): real
    requires s != 0.0
  {
    cs - d * sn / s
  }

  function Share1(s: real, sn: real): real
    requires s != 0.0
  {
    sn / s
  }

  lemma AlignedDot(a: Quat, b: Quat)
    ensures 0.0 <= a.Dot(Aligned(a, b))
    ensures Aligned(a, b) == b || Aligned(a, b) == b.Neg()
    ensures b.Unit() ==> Aligned(a, b).Unit()
  {
    assert a.Dot(b.Neg()) == -a.Dot(b);
    assert b.Neg().Dot(b.Neg()) == b.Dot(b);
  }

  lemma SineOfArc(m: Math, d: real)
    requires m.Laws() && 0.0 <= d <= 0.9995
    ensures var s := m.Sin(m.Acos(d)); s != 0.0 && s * s == 1.0 - d * d
    ensures m.Cos(m.Acos(d)) == d
  {
    var theta := m.Acos(d);
    assert m.Cos(theta) == d;
    assert m.Sin(theta) * m.Sin(theta) + m.Cos(theta) * m.Cos(theta) == 1.0;
    SquareGrows(d, 0.9995);
  }

  lemma UnitIsItsOwnUnit(m: Math, q: Quat)
    requires m.Laws() && q.Unit()
    ensures QuatUnit(m, q) == q
  {
    SameSquare(m.Sqrt(1.0), 1.0);
  }

  lemma ArcEnds(m: Math, d: real)
    requires m.Laws() && 0.0 <= d <= 0.9995
    ensures ArcWeight0(m, d, 0.0) == 1.0 && ArcWeight1(m, d, 0.0) == 0.0
    ensures ArcWeight0(m, d, m.Acos(d)) == 0.0 && ArcWeight1(m, d, m.Acos(d)) == 1.0
  {
    SineOfArc(m, d);
    var s := m.Sin(m.Acos(d));
    Cancel(d, s);
    Cancel(1.0, s);
  }

  lemma TimesEnds(x: real)
    ensures PartOf(x, 0.0) == 0.0 && PartOf(x, 1.0) == x
  {
  }

  lemma ScaleOnly(a: Quat, b: Quat)
    ensures a.Scale(1.0).Add(b.Scale(0.0)) == a
    ensures a.Scale(0.0).Add(b.Scale(1.0)) == b
  {
  }

  lemma Cancel(d: real, s: real)
    requires s != 0.0
    ensures d * s / s == d
  {
  }

  // Slerp normalizes only on its linear branch, so its ends are kept exactly for
  // pairs that are far enough apart or where the end is a unit quaternion.
  predicate StartKept(a: Quat, b: Quat) { a.Dot(Aligned(a, b)) <= 0.9995 || a.Unit() }

  predicate EndKept(a: Quat, b: Quat) { a.Dot(Aligned(a, b)) <= 0.9995 || b.Unit() }

  lemma ScaleFixes(k: real, c: real)
    requires 0.0 < k && c != 0.0 && (k * c == c || k * c == -c)
    ensures k == 1.0
  {
    if k * c == c { assert (k - 1.0) * c == 0.0; }
  }

  lemma OnlyUnitIsItsOwnUnit(m: Math, q: Quat)
    requires m.Laws() && q != Quat(0.0, 0.0, 0.0, 0.0)
    requires QuatUnit(m, q) == q || QuatUnit(m, q) == q.Neg()
    ensures q.Unit()
  {
    var n2 := q.Dot(q);
    hide Quat.Dot;
    var norm := Max(m.Sqrt(n2), EPS);
    var k := 1.0 / norm;
    assert 0.0 < k && k * norm == 1.0;
    if q.w != 0.0 { ScaleFixes(k, q.w); }
    else if q.x != 0.0 { ScaleFixes(k, q.x); }
    else if q.y != 0.0 { ScaleFixes(k, q.y); }
    else { ScaleFixes(k, q.z); }
    assert m.Sqrt(n2) == 1.0;
    NormIsSquare(m, q);
  }

  lemma NormIsSquare(m: Math, q: Quat)
    requires m.Laws()
    ensures m.Sqrt(q.Dot(q)) * m.Sqrt(q.Dot(q)) == q.Dot(q)
  {
    NonNegativeSquare(q.w);
    NonNegativeSquare(q.x);
    NonNegativeSquare(q.y);
    NonNegativeSquare(q.z);
  }

  lemma NearIsNotZero(a: Quat, b: Quat)
    requires 0.9995 < a.Dot(b)
    ensures a != Quat(0.0, 0.0, 0.0, 0.0) && b != Quat(0.0, 0.0, 0.0, 0.0)
  {
    if a == Quat(0.0, 0.0, 0.0, 0.0) { ZeroDot(b); }
    if b == Quat(0.0, 0.0, 0.0, 0.0) { ZeroDot(a); }
  }

  lemma ZeroDot(q: Quat)
    ensures Quat(0.0, 0.0, 0.0, 0.0).Dot(q) == 0.0 && q.Dot(Quat(0.0, 0.0, 0.0, 0.0)) == 0.0
  {
  }

  // At 0 slerp gives its first argument, at 1 its second up to sign.
  lemma SlerpStart(m: Math, a: Quat, b: Quat)
    requires m.Laws()
    ensures Slerp(m, a, b, 0.0) == a <==> StartKept(a, b)
  {
    hide m.Laws, PartOf, ArcWeight0, ArcWeight1, QuatUnit, Aligned, Quat.Dot, Quat.Add, Quat.Scale;
    AlignedDot(a, b);
    var d := a.Dot(Aligned(a, b));
    if 0.9995 < d {
      NearIsNotZero(a, Aligned(a, b));
      assert Lerp(a, Aligned(a, b), 0.0) == a;
      hide Lerp, Quat.Unit;
      if a.Unit() { UnitIsItsOwnUnit(m, a); }
      if QuatUnit(m, a) == a { OnlyUnitIsItsOwnUnit(m, a); }
    } else {
      ArcEnds(m, d);
      TimesEnds(m.Acos(d));
      ScaleOnly(a, Aligned(a, b));
    }
  }

  lemma SlerpStartUnkept(m: Math, a: Quat, b: Quat)
    requires !StartKept(a, b)
    ensures a != Quat(0.0, 0.0, 0.0, 0.0) && !a.Unit() && Slerp(m, a, b, 0.0) == QuatUnit(m, a)
  {
    NearIsNotZero(a, Aligned(a, b));
    assert Lerp(a, Aligned(a, b), 0.0) == a;
    hide QuatUnit, Aligned, Quat.Dot;
  }

  // Two starts in a row keep a exactly when each does.
  lemma SlerpStartTwice(m: Math, a: Quat, b: Quat, c: Quat)
    requires m.Laws()
    ensures Slerp(m, Slerp(m, a, b, 0.0), c, 0.0) == a <==> StartKept(a, b) && StartKept(a, c)
  {
    hide m.Laws, Slerp, StartKept, QuatUnit, Quat.Unit;
    var s := Slerp(m, a, b, 0.0);
    SlerpStart(m, a, b);
    SlerpStart(m, s, c);
    if !StartKept(a, b) {
      SlerpStartUnkept(m, a, b);
      if !StartKept(s, c) {
        SlerpStartUnkept(m, s, c);
        if QuatUnit(m, s) == a { OnlyUnitIsItsUnitsUnit(m, a); }
      }
    }
  }

  lemma NegNeg(q: Quat)
    ensures q.Neg().Neg() == q && q.Neg().Dot(q.Neg()) == q.Dot(q)
  {
  }

  lemma SlerpEnd(m: Math, a: Quat, b: Quat)
    requires m.Laws()
    ensures Slerp(m, a, b, 1.0) == b || Slerp(m, a, b, 1.0) == b.Neg() <==> EndKept(a, b)
  {
    hide m.Laws, PartOf, ArcWeight0, ArcWeight1, QuatUnit, Aligned, Quat.Dot, Quat.Add, Quat.Scale;
    AlignedDot(a, b);
    NegNeg(b);
    var bb := Aligned(a, b);
    var d := a.Dot(bb);
    if 0.9995 < d {
      NearIsNotZero(a, bb);
      assert Lerp(a, bb, 1.0) == bb;
      assert bb.Unit() <==> b.Unit();
      assert bb.Neg() == b || bb.Neg() == b.Neg();
      hide Lerp, Quat.Unit, Quat.Neg;
      if bb.Unit() { UnitIsItsOwnUnit(m, bb); }
      if QuatUnit(m, bb) == bb || QuatUnit(m, bb) == bb.Neg() { OnlyUnitIsItsOwnUnit(m, bb); }
    } else {
      ArcEnds(m, d);
      TimesEnds(m.Acos(d));
      ScaleOnly(a, bb);
    }
  }

  // The squared norm of s0 a + s1 b, from the products of a and b.
  function CombinedNorm(s0: real, s1: real, aa: real, bb: real, ab: real): real {
    s0 * s0 * aa + s1 * s1 * bb + 2.0 * s0 * s1 * ab
  }

  lemma ArcWeights(m: Math, d: real, theta: real)
    requires m.Laws() && 0.0 <= d <= 0.9995
    ensures CombinedNorm(ArcWeight0(m, d, theta), ArcWeight1(m, d, theta), 1.0, 1.0, d) == 1.0
  {
    hide CombinedNorm;
    SineOfArc(m, d);
    SineAndCosine(m, theta);
    hide m.Laws;
    WeightsOnCircle(d, m.Sin(m.Acos(d)), m.Sin(theta), m.Cos(theta));
  }

  lemma WeightsOnCircle(d: real, s: real, sn: real, cs: real)
    requires s != 0.0 && s * s == 1.0 - d * d && sn * sn + cs * cs == 1.0
    ensures CombinedNorm(Share0(d, s, sn, cs), Share1(s, sn), 1.0, 1.0, d) == 1.0
  {
    var s1 := Share1(s, sn);
    DivideProduct(d, sn, s);
    assert s1 * s == sn;
    Squared(s1 * s, sn);
    OnCircle(d, s, s1, cs);
  }

  lemma Squared(x: real, y: real)
    requires x == y
    ensures x * x == y * y
  {
  }

  lemma DivideProduct(d: real, x: real, s: real)
    requires s != 0.0
    ensures d * x / s == d * (x / s)
  {
  }

  lemma OnCircle(d: real, s: real, s1: real, cs: real)
    requires s * s == 1.0 - d * d && (s1 * s) * (s1 * s) + cs * cs == 1.0
    ensures CombinedNorm(cs - d * s1, s1, 1.0, 1.0, d) == 1.0
  {
    CircleWritten(d, s1, cs);
    SameTimes(s1 * s1, s * s, 1.0 - d * d);
    hide CombinedNorm;
  }

  lemma CircleWritten(d: real, s1: real, cs: real)
    ensures CombinedNorm(cs - d * s1, s1, 1.0, 1.0, d) == cs * cs + (s1 * s1) * (1.0 - d * d)
  {
  }

  lemma SameTimes(k: real, x: real, y: real)
    requires x == y
    ensures k * x == k * y
  {
  }

  lemma CombinationWritten(a0: real, a1: real, a2: real, a3: real, b0: real, b1: real, b2: real, b3: real,
                           s0: real, s1: real)
    ensures Dot4(s0 * a0 + s1 * b0, s0 * a1 + s1 * b1, s0 * a2 + s1 * b2, s0 * a3 + s1 * b3,
                 s0 * a0 + s1 * b0, s0 * a1 + s1 * b1, s0 * a2 + s1 * b2, s0 * a3 + s1 * b3)
         == CombinedNorm(s0, s1, a0 * a0 + a1 * a1 + a2 * a2 + a3 * a3, b0 * b0 + b1 * b1 + b2 * b2 + b3 * b3,
                         a0 * b0 + a1 * b1 + a2 * b2 + a3 * b3)
  {
  }

  lemma CombinationNorm(a: Quat, b: Quat, s0: real, s1: real)
    ensures var c := a.Scale(s0).Add(b.Scale(s1));
      c.Dot(c) == CombinedNorm(s0, s1, a.Dot(a), b.Dot(b), a.Dot(b))
  {
    hide Dot4, CombinedNorm;
    var c := a.Scale(s0).Add(b.Scale(s1));
    CombinationWith(a.w, a.x, a.y, a.z, b.w, b.x, b.y, b.z, s0, s1, c.w, c.x, c.y, c.z);
  }

  lemma CombinationWith(a0: real, a1: real, a2: real, a3: real, b0: real, b1: real, b2: real, b3: real,
                        s0: real, s1: real, c0: real, c1: real, c2: real, c3: real)
    requires c0 == s0 * a0 + s1 * b0 && c1 == s0 * a1 + s1 * b1
    requires c2 == s0 * a2 + s1 * b2 && c3 == s0 * a3 + s1 * b3
    ensures Dot4(c0, c1, c2, c3, c0, c1, c2, c3)
         == CombinedNorm(s0, s1, Dot4(a0, a1, a2, a3, a0, a1, a2, a3), Dot4(b0, b1, b2, b3, b0, b1, b2, b3),
                         Dot4(a0, a1, a2, a3, b0, b1, b2, b3))
  {
    hide CombinedNorm;
    assert Dot4(a0, a1, a2, a3, a0, a1, a2, a3) == a0 * a0 + a1 * a1 + a2 * a2 + a3 * a3;
    assert Dot4(b0, b1, b2, b3, b0, b1, b2, b3) == b0 * b0 + b1 * b1 + b2 * b2 + b3 * b3;
    assert Dot4(a0, a1, a2, a3, b0, b1, b2, b3) == a0 * b0 + a1 * b1 + a2 * b2 + a3 * b3;
    hide Dot4;
    CombinationWritten(a0, a1, a2, a3, b0, b1, b2, b3, s0, s1);
  }

  lemma LongHasUnitNorm(m: Math, q: Quat)
    requires m.Laws() && EPS <= m.Sqrt(q.Dot(q))
    ensures QuatUnit(m, q).Unit()
  {
    var n2 := q.Dot(q);
    var r := m.Sqrt(n2);
    NormIsSquare(m, q);
    var k := 1.0 / r;
    assert k * r == 1.0;
    ScaledNorm(q, k);
    assert (k * k) * (r * r) == (k * r) * (k * r);
    assert (k * k) * (r * r) == (k * k) * n2;
  }

  lemma UnitHasUnitNorm(m: Math, q: Quat)
    requires m.Laws() && q.Dot(q) >= 0.25
    ensures QuatUnit(m, q).Unit()
  {
    var r := m.Sqrt(q.Dot(q));
    NormIsSquare(m, q);
    if r < 0.5 { SquareGrowsStrictly(r, 0.5); }
    LongHasUnitNorm(m, q);
  }

  // A quaternion too short for quat_unit to normalize still comes out longer, but
  // shorter than one.
  lemma ShortStaysShort(m: Math, q: Quat)
    requires m.Laws() && m.Sqrt(q.Dot(q)) < EPS
    ensures m.Sqrt(QuatUnit(m, q).Dot(QuatUnit(m, q))) < 1.0
    ensures QuatUnit(m, q) == q.Scale(1000000000000.0)
  {
    var k, r, u := 1000000000000.0, m.Sqrt(q.Dot(q)), QuatUnit(m, q);
    NormIsSquare(m, q);
    NormIsSquare(m, u);
    ScaledNorm(q, k);
    SquareGrowsStrictly(r, EPS);
    assert u.Dot(u) == (k * k) * q.Dot(q) < (k * k) * (EPS * EPS) == 1.0;
    if 1.0 <= m.Sqrt(u.Dot(u)) { SquareGrows(1.0, m.Sqrt(u.Dot(u))); }
  }

  // Normalizing twice gives back only what is a unit quaternion already.
  lemma OnlyUnitIsItsUnitsUnit(m: Math, q: Quat)
    requires m.Laws() && q != Quat(0.0, 0.0, 0.0, 0.0) && QuatUnit(m, QuatUnit(m, q)) == q
    ensures q.Unit()
  {
    var u := QuatUnit(m, q);
    if EPS <= m.Sqrt(q.Dot(q)) {
      LongHasUnitNorm(m, q);
      UnitIsItsOwnUnit(m, u);
    } else {
      ShortStaysShort(m, q);
      var norm := Max(m.Sqrt(u.Dot(u)), EPS);
      hide Quat.Dot;
      var k := 1.0 / norm;
      assert 1.0 < k && u.Scale(k) == q;
      TwiceScaled(q, k);
    }
  }

  lemma TwiceScaled(q: Quat, k: real)
    requires 1.0 < k && q.Scale(1000000000000.0).Scale(k) == q
    ensures q == Quat(0.0, 0.0, 0.0, 0.0)
  {
    var u := q.Scale(1000000000000.0);
    var v := u.Scale(k);
    assert v.w == k * u.w && v.x == k * u.x && v.y == k * u.y && v.z == k * u.z;
    ScaledBack(q.w, u.w, k);
    ScaledBack(q.x, u.x, k);
    ScaledBack(q.y, u.y, k);
    ScaledBack(q.z, u.z, k);
  }

  lemma ScaledBack(c: real, u: real, k: real)
    requires 1.0 < k && u == 1000000000000.0 * c && k * u == c
    ensures c == 0.0
  {
    assert (k * 1000000000000.0 - 1.0) * c == 0.0;
  }

  lemma ScaledNorm(q: Quat, k: real)
    ensures q.Scale(k).Dot(q.Scale(k)) == (k * k) * q.Dot(q)
  {
    ScaledWritten(q.w, q.x, q.y, q.z, k);
    assert q.Dot(q) == q.w * q.w + q.x * q.x + q.y * q.y + q.z * q.z;
    hide Dot4;
  }

  lemma ScaledWritten(w: real, x: real, y: real, z: real, k: real)
    ensures Dot4(k * w, k * x, k * y, k * z, k * w, k * x, k * y, k * z) == (k * k) * (w * w + x * x + y * y + z * z)
  {
  }

  lemma LerpBound(t: real, d: real)
    requires 0.0 <= d && 0.0 <= t <= 1.0
    ensures CombinedNorm(1.0 - t, t, 1.0, 1.0, d) >= 0.5
  {
    var p := (1.0 - t) * t;
    assert CombinedNorm(1.0 - t, t, 1.0, 1.0, d) == 1.0 - 2.0 * p + 2.0 * (p * d);
    Product(1.0 - t, t);
    Product(p, d);
    QuarterBound(t);
  }

  lemma QuarterBound(t: real)
    ensures (1.0 - t) * t <= 0.25
  {
    var u := t - 0.5;
    NonNegativeSquare(u);
    assert (1.0 - t) * t == 0.25 - (t - 0.5) * (t - 0.5);
  }

  lemma NonNegativeSquare(u: real)
    ensures 0.0 <= u * u
  {
  }

  lemma LerpNorm(a: Quat, b: Quat, t: real)
    requires a.Unit() && b.Unit() && 0.0 <= a.Dot(b) && 0.0 <= t <= 1.0
    ensures Lerp(a, b, t).Dot(Lerp(a, b, t)) >= 0.5
  {
    assert Lerp(a, b, t) == a.Scale(1.0 - t).Add(b.Scale(t));
    hide Quat.Dot, Quat.Scale, Quat.Add, Lerp, CombinedNorm;
    CombinationNorm(a, b, 1.0 - t, t);
    LerpBound(t, a.Dot(b));
  }

  lemma SineAndCosine(m: Math, x: real)
    requires m.Laws()
    ensures m.Sin(x) * m.Sin(x) + m.Cos(x) * m.Cos(x) == 1.0
  {
  }

  lemma UnitCombination(a: Quat, b: Quat, s0: real, s1: real)
    requires a.Unit() && b.Unit() && CombinedNorm(s0, s1, 1.0, 1.0, a.Dot(b)) == 1.0
    ensures a.Scale(s0).Add(b.Scale(s1)).Unit()
  {
    hide Quat.Dot, Quat.Scale, Quat.Add, CombinedNorm;
    CombinationNorm(a, b, s0, s1);
  }

  // Between unit quaternions slerp stays on the unit sphere.
  lemma SlerpIsUnit(m: Math, a: Quat, b: Quat, t: real)
    requires m.Laws() && a.Unit() && b.Unit() && 0.0 <= t <= 1.0
    ensures Slerp(m, a, b, t).Unit()
  {
    hide m.Laws, PartOf, ArcWeight0, ArcWeight1, QuatUnit, Aligned, Quat.Dot, Quat.Add, Quat.Scale, Lerp;
    var bb := Aligned(a, b);
    AlignedDot(a, b);
    if 0.9995 < a.Dot(bb) {
      LerpNorm(a, bb, t);
      UnitHasUnitNorm(m, Lerp(a, bb, t));
    } else {
      var theta := PartOf(m.Acos(a.Dot(bb)), t);
      ArcWeights(m, a.Dot(bb), theta);
      UnitCombination(a, bb, ArcWeight0(m, a.Dot(bb), theta), ArcWeight1(m, a.Dot(bb), theta));
    }
  }

  // The short way round: slerp works with the one of b and -b within 90 degrees
  // of a. Outside the linear branch it turns from a at a constant rate: its share
  // t of the way is at the angle t times that between them. Within it the result
  // is the normalized linear mix.
  lemma SlerpTurnsEvenly(m: Math, a: Quat, b: Quat, t: real, d: real)
    requires m.Laws() && a.Unit() && b.Unit() && d == Abs(a.Dot(b))
    ensures Aligned(a, b) == (if a.Dot(b) < 0.0 then b.Neg() else b) && a.Dot(Aligned(a, b)) == d
    ensures if 0.9995 < d then Slerp(m, a, b, t) == QuatUnit(m, a.Scale(1.0 - t).Add(Aligned(a, b).Scale(t)))
            else Slerp(m, a, b, t).Dot(a) == m.Cos(m.Acos(d) * t)
  {
    AlignedIsNear(a, b);
    assert a.Dot(a) == 1.0 && 0.0 <= d;
    hide *;
    SlerpByDistance(m, a, b, Aligned(a, b), d, t);
    if d <= 0.9995 { ArcTurns(m, a, Aligned(a, b), d, t); }
  }

  lemma SlerpByDistance(m: Math, a: Quat, b: Quat, bb: Quat, d: real, t: real)
    requires bb == Aligned(a, b) && d == a.Dot(bb)
    ensures Slerp(m, a, b, t) ==
            if 0.9995 < d then QuatUnit(m, a.Scale(1.0 - t).Add(bb.Scale(t))) else SlerpArc(m, a, bb, d, t)
  {
    hide Quat.Dot, Aligned, QuatUnit, SlerpArc;
    LerpMixes(a, bb, t);
  }

  lemma LerpMixes(a: Quat, b: Quat, t: real)
    ensures Lerp(a, b, t) == a.Scale(1.0 - t).Add(b.Scale(t))
  {
  }

  lemma AlignedIsNear(a: Quat, b: Quat)
    ensures Aligned(a, b) == (if a.Dot(b) < 0.0 then b.Neg() else b) && a.Dot(Aligned(a, b)) == Abs(a.Dot(b))
  {
    assert a.Dot(b.Neg()) == -a.Dot(b);
  }

  lemma ArcTurns(m: Math, a: Quat, b: Quat, d: real, t: real)
    requires m.Laws() && a.Dot(a) == 1.0 && a.Dot(b) == d && 0.0 <= d <= 0.9995
    ensures SlerpArc(m, a, b, d, t).Dot(a) == m.Cos(m.Acos(d) * t)
  {
    SineOfArc(m, d);
    var theta := PartOf(m.Acos(d), t);
    hide Quat.Dot, Quat.Scale, Quat.Add, m.Laws;
    CombinationDot(a, b, ArcWeight0(m, d, theta), ArcWeight1(m, d, theta), d);
    ArcShares(d, m.Sin(m.Acos(d)), m.Sin(theta), m.Cos(theta));
  }

  lemma CombinationDot(a: Quat, b: Quat, s0: real, s1: real, d: real)
    requires a.Dot(a) == 1.0 && a.Dot(b) == d
    ensures a.Scale(s0).Add(b.Scale(s1)).Dot(a) == s0 + s1 * d
  {
    CombinationExpanded(a, b, s0, s1);
    hide Quat.Dot;
    assert s0 * a.Dot(a) == s0 && s1 * a.Dot(b) == s1 * d;
  }

  lemma CombinationExpanded(a: Quat, b: Quat, s0: real, s1: real)
    ensures a.Scale(s0).Add(b.Scale(s1)).Dot(a) == s0 * a.Dot(a) + s1 * a.Dot(b)
  {
  }

  lemma ArcShares(d: real, s: real, sn: real, cs: real)
    requires s != 0.0
    ensures Share0(d, s, sn, cs) + Share1(s, sn) * d == cs
  {
    DivideProduct(d, sn, s);
  }
}
