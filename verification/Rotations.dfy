// Quaternion algebra of include/common/math_utils.hpp. The component lemmas are
// over plain reals, where the polynomial identities are cheap.
module Rotations {
  import opened Geometry

  // quat_mul: nine products instead of sixteen.
  function QuatMul(a: Quat, b: Quat): Quat {
    var ww := (a.z + a.x) * (b.x + b.y);
    var yy := (a.w - a.y) * (b.w + b.z);
    var zz := (a.w + a.y) * (b.w - b.z);
    var xx := ww + yy + zz;
    var qq := 0.5 * (xx + (a.z - a.x) * (b.x - b.y));
    Quat(qq - ww + (a.z - a.y) * (b.y - b.z),
         qq - xx + (a.x + a.w) * (b.x + b.w),
         qq - yy + (a.w - a.x) * (b.y + b.z),
         qq - zz + (a.z + a.y) * (b.w - b.x))
  }

  const ONE := Quat(1.0, 0.0, 0.0, 0.0)

  // The Hamilton product, by components.
  function MulW(a0: real, a1: real, a2: real, a3: real, b0: real, b1: real, b2: real, b3: real): real {
    a0 * b0 - a1 * b1 - a2 * b2 - a3 * b3
  }

  function MulX(a0: real, a1: real, a2: real, a3: real, b0: real, b1: real, b2: real, b3: real): real {
    a0 * b1 + a1 * b0 + a2 * b3 - a3 * b2
  }

  function MulY(a0: real, a1: real, a2: real, a3: real, b0: real, b1: real, b2: real, b3: real): real {
    a0 * b2 - a1 * b3 + a2 * b0 + a3 * b1
  }

  function MulZ(a0: real, a1: real, a2: real, a3: real, b0: real, b1: real, b2: real, b3: real): real {
    a0 * b3 + a1 * b2 - a2 * b1 + a3 * b0
  }

  function Hamilton(a: Quat, b: Quat): Quat {
    Quat(MulW(a.w, a.x, a.y, a.z, b.w, b.x, b.y, b.z),
         MulX(a.w, a.x, a.y, a.z, b.w, b.x, b.y, b.z),
         MulY(a.w, a.x, a.y, a.z, b.w, b.x, b.y, b.z),
         MulZ(a.w, a.x, a.y, a.z, b.w, b.x, b.y, b.z))
  }

  // quat_rotate, by components.
  function TurnX(w: real, x: real, y: real, z: real, a: real, b: real, c: real): real {
    a * (2.0 * w * w - 1.0) + (y * c - z * b) * w * 2.0 + x * (x * a + y * b + z * c) * 2.0
  }

  function TurnY(w: real, x: real, y: real, z: real, a: real, b: real, c: real): real {
    b * (2.0 * w * w - 1.0) + (z * a - x * c) * w * 2.0 + y * (x * a + y * b + z * c) * 2.0
  }

  function TurnZ(w: real, x: real, y: real, z: real, a: real, b: real, c: real): real {
    c * (2.0 * w * w - 1.0) + (x * b - y * a) * w * 2.0 + z * (x * a + y * b + z * c) * 2.0
  }

  function Rotate(q: Quat, v: Vec3): Vec3 {
    Vec3(TurnX(q.w, q.x, q.y, q.z, v.x, v.y, v.z),
         TurnY(q.w, q.x, q.y, q.z, v.x, v.y, v.z),
         TurnZ(q.w, q.x, q.y, q.z, v.x, v.y, v.z))
  }

  // quat_to_rotation_matrix, by rows.
  datatype Matrix = Matrix(r0: Vec3, r1: Vec3, r2: Vec3) {
    function Times(v: Vec3): Vec3 { Vec3(r0.Dot(v), r1.Dot(v), r2.Dot(v)) }
  }

  function Row0(q: Quat): Vec3 {
    Vec3(1.0 - 2.0 * (q.y * q.y + q.z * q.z), 2.0 * (q.x * q.y - q.w * q.z), 2.0 * (q.x * q.z + q.w * q.y))
  }

  function Row1(q: Quat): Vec3 {
    Vec3(2.0 * (q.x * q.y + q.w * q.z), 1.0 - 2.0 * (q.x * q.x + q.z * q.z), 2.0 * (q.y * q.z - q.w * q.x))
  }

  function Row2(q: Quat): Vec3 {
    Vec3(2.0 * (q.x * q.z - q.w * q.y), 2.0 * (q.y * q.z + q.w * q.x), 1.0 - 2.0 * (q.x * q.x + q.y * q.y))
  }

  function UnitToMatrix(q: Quat): Matrix { Matrix(Row0(q), Row1(q), Row2(q)) }

  function QuatToRotationMatrix(m: Math, q: Quat): Matrix { UnitToMatrix(QuatUnit(m, q)) }

  function Pure(v: Vec3): Quat { Quat(0.0, v.x, v.y, v.z) }

  // ── polynomial identities ──────────────────────────────────────────────────

  // The identities are stated with the polynomials written out, where they are
  // cheap, and then carried over to values equal to those polynomials.
  lemma Same3(p0: real, p1: real, p2: real, e0: real, e1: real, e2: real, a: real, b: real, c: real)
    requires p0 == e0 && p1 == e1 && p2 == e2
    ensures p0 * a == e0 * a && p1 * b == e1 * b && p2 * c == e2 * c
  {
  }

  lemma AssocWritten(a0: real, a1: real, a2: real, a3: real,
                     b0: real, b1: real, b2: real, b3: real,
                     c0: real, c1: real, c2: real, c3: real)
    ensures MulW(a0 * b0 - a1 * b1 - a2 * b2 - a3 * b3,
                 a0 * b1 + a1 * b0 + a2 * b3 - a3 * b2,
                 a0 * b2 - a1 * b3 + a2 * b0 + a3 * b1,
                 a0 * b3 + a1 * b2 - a2 * b1 + a3 * b0,
                 c0, c1, c2, c3)
         == MulW(a0, a1, a2, a3,
                 b0 * c0 - b1 * c1 - b2 * c2 - b3 * c3,
                 b0 * c1 + b1 * c0 + b2 * c3 - b3 * c2,
                 b0 * c2 - b1 * c3 + b2 * c0 + b3 * c1,
                 b0 * c3 + b1 * c2 - b2 * c1 + b3 * c0)
    ensures MulX(a0 * b0 - a1 * b1 - a2 * b2 - a3 * b3,
                 a0 * b1 + a1 * b0 + a2 * b3 - a3 * b2,
                 a0 * b2 - a1 * b3 + a2 * b0 + a3 * b1,
                 a0 * b3 + a1 * b2 - a2 * b1 + a3 * b0,
                 c0, c1, c2, c3)
         == MulX(a0, a1, a2, a3,
                 b0 * c0 - b1 * c1 - b2 * c2 - b3 * c3,
                 b0 * c1 + b1 * c0 + b2 * c3 - b3 * c2,
                 b0 * c2 - b1 * c3 + b2 * c0 + b3 * c1,
                 b0 * c3 + b1 * c2 - b2 * c1 + b3 * c0)
    ensures MulY(a0 * b0 - a1 * b1 - a2 * b2 - a3 * b3,
                 a0 * b1 + a1 * b0 + a2 * b3 - a3 * b2,
                 a0 * b2 - a1 * b3 + a2 * b0 + a3 * b1,
                 a0 * b3 + a1 * b2 - a2 * b1 + a3 * b0,
                 c0, c1, c2, c3)
         == MulY(a0, a1, a2, a3,
                 b0 * c0 - b1 * c1 - b2 * c2 - b3 * c3,
                 b0 * c1 + b1 * c0 + b2 * c3 - b3 * c2,
                 b0 * c2 - b1 * c3 + b2 * c0 + b3 * c1,
                 b0 * c3 + b1 * c2 - b2 * c1 + b3 * c0)
    ensures MulZ(a0 * b0 - a1 * b1 - a2 * b2 - a3 * b3,
                 a0 * b1 + a1 * b0 + a2 * b3 - a3 * b2,
                 a0 * b2 - a1 * b3 + a2 * b0 + a3 * b1,
                 a0 * b3 + a1 * b2 - a2 * b1 + a3 * b0,
                 c0, c1, c2, c3)
         == MulZ(a0, a1, a2, a3,
                 b0 * c0 - b1 * c1 - b2 * c2 - b3 * c3,
                 b0 * c1 + b1 * c0 + b2 * c3 - b3 * c2,
                 b0 * c2 - b1 * c3 + b2 * c0 + b3 * c1,
                 b0 * c3 + b1 * c2 - b2 * c1 + b3 * c0)
  {
  }

  lemma AssocWith(a0: real, a1: real, a2: real, a3: real,
                  b0: real, b1: real, b2: real, b3: real,
                  c0: real, c1: real, c2: real, c3: real,
                  p0: real, p1: real, p2: real, p3: real,
                  q0: real, q1: real, q2: real, q3: real)
    requires p0 == MulW(a0, a1, a2, a3, b0, b1, b2, b3)
    requires p1 == MulX(a0, a1, a2, a3, b0, b1, b2, b3)
    requires p2 == MulY(a0, a1, a2, a3, b0, b1, b2, b3)
    requires p3 == MulZ(a0, a1, a2, a3, b0, b1, b2, b3)
    requires q0 == MulW(b0, b1, b2, b3, c0, c1, c2, c3)
    requires q1 == MulX(b0, b1, b2, b3, c0, c1, c2, c3)
    requires q2 == MulY(b0, b1, b2, b3, c0, c1, c2, c3)
    requires q3 == MulZ(b0, b1, b2, b3, c0, c1, c2, c3)
    ensures MulW(p0, p1, p2, p3, c0, c1, c2, c3) == MulW(a0, a1, a2, a3, q0, q1, q2, q3)
    ensures MulX(p0, p1, p2, p3, c0, c1, c2, c3) == MulX(a0, a1, a2, a3, q0, q1, q2, q3)
    ensures MulY(p0, p1, p2, p3, c0, c1, c2, c3) == MulY(a0, a1, a2, a3, q0, q1, q2, q3)
    ensures MulZ(p0, p1, p2, p3, c0, c1, c2, c3) == MulZ(a0, a1, a2, a3, q0, q1, q2, q3)
  {
    assert p0 == a0 * b0 - a1 * b1 - a2 * b2 - a3 * b3;
    assert p1 == a0 * b1 + a1 * b0 + a2 * b3 - a3 * b2;
    assert p2 == a0 * b2 - a1 * b3 + a2 * b0 + a3 * b1;
    assert p3 == a0 * b3 + a1 * b2 - a2 * b1 + a3 * b0;
    assert q0 == b0 * c0 - b1 * c1 - b2 * c2 - b3 * c3;
    assert q1 == b0 * c1 + b1 * c0 + b2 * c3 - b3 * c2;
    assert q2 == b0 * c2 - b1 * c3 + b2 * c0 + b3 * c1;
    assert q3 == b0 * c3 + b1 * c2 - b2 * c1 + b3 * c0;
    hide MulW, MulX, MulY, MulZ;
    AssocWritten(a0, a1, a2, a3, b0, b1, b2, b3, c0, c1, c2, c3);
  }

  function SquareSum(a0: real, a1: real, a2: real, a3: real): real { Dot4(a0, a1, a2, a3, a0, a1, a2, a3) }

  lemma NormWritten(a0: real, a1: real, a2: real, a3: real,
                    b0: real, b1: real, b2: real, b3: real)
    ensures SquareSum(a0 * b0 - a1 * b1 - a2 * b2 - a3 * b3,
                      a0 * b1 + a1 * b0 + a2 * b3 - a3 * b2,
                      a0 * b2 - a1 * b3 + a2 * b0 + a3 * b1,
                      a0 * b3 + a1 * b2 - a2 * b1 + a3 * b0)
         == SquareSum(a0, a1, a2, a3) * SquareSum(b0, b1, b2, b3)
  {
  }

  lemma NormWith(a0: real, a1: real, a2: real, a3: real,
                 b0: real, b1: real, b2: real, b3: real,
                 p0: real, p1: real, p2: real, p3: real)
    requires p0 == MulW(a0, a1, a2, a3, b0, b1, b2, b3)
    requires p1 == MulX(a0, a1, a2, a3, b0, b1, b2, b3)
    requires p2 == MulY(a0, a1, a2, a3, b0, b1, b2, b3)
    requires p3 == MulZ(a0, a1, a2, a3, b0, b1, b2, b3)
    requires SquareSum(a0, a1, a2, a3) == 1.0 && SquareSum(b0, b1, b2, b3) == 1.0
    ensures SquareSum(p0, p1, p2, p3) == 1.0
  {
    assert p0 == a0 * b0 - a1 * b1 - a2 * b2 - a3 * b3;
    assert p1 == a0 * b1 + a1 * b0 + a2 * b3 - a3 * b2;
    assert p2 == a0 * b2 - a1 * b3 + a2 * b0 + a3 * b1;
    assert p3 == a0 * b3 + a1 * b2 - a2 * b1 + a3 * b0;
    hide MulW, MulX, MulY, MulZ, SquareSum;
    NormWritten(a0, a1, a2, a3, b0, b1, b2, b3);
    ProductOfOnes(SquareSum(a0, a1, a2, a3), SquareSum(b0, b1, b2, b3));
  }

  lemma ProductOfOnes(m: real, n: real)
    requires m == 1.0 && n == 1.0
    ensures m * n == 1.0
  {
  }

  lemma ConjugationWritten(w: real, x: real, y: real, z: real, a: real, b: real, c: real)
    requires w * w + x * x + y * y + z * z == 1.0
    ensures MulW(w, x, y, z, a * x + b * y + c * z, a * w - b * z + c * y, a * z + b * w - c * x, -a * y + b * x + c * w) == 0.0
    ensures MulX(w, x, y, z, a * x + b * y + c * z, a * w - b * z + c * y, a * z + b * w - c * x, -a * y + b * x + c * w) == TurnX(w, x, y, z, a, b, c)
    ensures MulY(w, x, y, z, a * x + b * y + c * z, a * w - b * z + c * y, a * z + b * w - c * x, -a * y + b * x + c * w) == TurnY(w, x, y, z, a, b, c)
    ensures MulZ(w, x, y, z, a * x + b * y + c * z, a * w - b * z + c * y, a * z + b * w - c * x, -a * y + b * x + c * w) == TurnZ(w, x, y, z, a, b, c)
  {
    assert a == a * (w * w + x * x + y * y + z * z);
    assert b == b * (w * w + x * x + y * y + z * z);
    assert c == c * (w * w + x * x + y * y + z * z);
  }

  lemma ConjugationWith(w: real, x: real, y: real, z: real, a: real, b: real, c: real, h0: real, h1: real, h2: real, h3: real)
    requires w * w + x * x + y * y + z * z == 1.0
    requires h0 == MulW(0.0, a, b, c, w, -x, -y, -z)
    requires h1 == MulX(0.0, a, b, c, w, -x, -y, -z)
    requires h2 == MulY(0.0, a, b, c, w, -x, -y, -z)
    requires h3 == MulZ(0.0, a, b, c, w, -x, -y, -z)
    ensures MulW(w, x, y, z, h0, h1, h2, h3) == 0.0
    ensures MulX(w, x, y, z, h0, h1, h2, h3) == TurnX(w, x, y, z, a, b, c)
    ensures MulY(w, x, y, z, h0, h1, h2, h3) == TurnY(w, x, y, z, a, b, c)
    ensures MulZ(w, x, y, z, h0, h1, h2, h3) == TurnZ(w, x, y, z, a, b, c)
  {
    assert h0 == a * x + b * y + c * z;
    assert h1 == a * w - b * z + c * y;
    assert h2 == a * z + b * w - c * x;
    assert h3 == -a * y + b * x + c * w;
    hide MulW, MulX, MulY, MulZ, TurnX, TurnY, TurnZ;
    ConjugationWritten(w, x, y, z, a, b, c);
  }

  lemma MatrixRow0(w: real, x: real, y: real, z: real, a: real, b: real, c: real, m0: real, m1: real, m2: real)
    requires w * w + x * x + y * y + z * z == 1.0
    requires m0 == 1.0 - 2.0 * (y * y + z * z)
    requires m1 == 2.0 * (x * y - w * z)
    requires m2 == 2.0 * (x * z + w * y)
    ensures m0 * a + m1 * b + m2 * c == TurnX(w, x, y, z, a, b, c)
  {
    Same3(m0, m1, m2, 1.0 - 2.0 * (y * y + z * z), 2.0 * (x * y - w * z), 2.0 * (x * z + w * y), a, b, c);
    assert a == a * (w * w + x * x + y * y + z * z);
  }

  lemma MatrixRow1(w: real, x: real, y: real, z: real, a: real, b: real, c: real, m0: real, m1: real, m2: real)
    requires w * w + x * x + y * y + z * z == 1.0
    requires m0 == 2.0 * (x * y + w * z)
    requires m1 == 1.0 - 2.0 * (x * x + z * z)
    requires m2 == 2.0 * (y * z - w * x)
    ensures m0 * a + m1 * b + m2 * c == TurnY(w, x, y, z, a, b, c)
  {
    Same3(m0, m1, m2, 2.0 * (x * y + w * z), 1.0 - 2.0 * (x * x + z * z), 2.0 * (y * z - w * x), a, b, c);
    assert b == b * (w * w + x * x + y * y + z * z);
  }

  lemma MatrixRow2(w: real, x: real, y: real, z: real, a: real, b: real, c: real, m0: real, m1: real, m2: real)
    requires w * w + x * x + y * y + z * z == 1.0
    requires m0 == 2.0 * (x * z - w * y)
    requires m1 == 2.0 * (y * z + w * x)
    requires m2 == 1.0 - 2.0 * (x * x + y * y)
    ensures m0 * a + m1 * b + m2 * c == TurnZ(w, x, y, z, a, b, c)
  {
    Same3(m0, m1, m2, 2.0 * (x * z - w * y), 2.0 * (y * z + w * x), 1.0 - 2.0 * (x * x + y * y), a, b, c);
    assert c == c * (w * w + x * x + y * y + z * z);
  }

  lemma SubX(w: real, x: real, y: real, z: real, u0: real, u1: real, u2: real, v0: real, v1: real, v2: real)
    ensures TurnX(w, x, y, z, u0 - v0, u1 - v1, u2 - v2)
         == TurnX(w, x, y, z, u0, u1, u2) - TurnX(w, x, y, z, v0, v1, v2)
  {
    var m0, m1, m2 := 2.0 * w * w - 1.0 + 2.0 * x * x, 2.0 * (x * y - w * z), 2.0 * (x * z + w * y);
    LinearX(w, x, y, z, u0, u1, u2);
    LinearX(w, x, y, z, v0, v1, v2);
    LinearX(w, x, y, z, u0 - v0, u1 - v1, u2 - v2);
    hide TurnX;
    SubDot(m0, m1, m2, u0, u1, u2, v0, v1, v2);
  }

  lemma LinearX(w: real, x: real, y: real, z: real, a: real, b: real, c: real)
    ensures TurnX(w, x, y, z, a, b, c)
         == (2.0 * w * w - 1.0 + 2.0 * x * x) * a + (2.0 * (x * y - w * z)) * b + (2.0 * (x * z + w * y)) * c
  {
  }

  lemma SubY(w: real, x: real, y: real, z: real, u0: real, u1: real, u2: real, v0: real, v1: real, v2: real)
    ensures TurnY(w, x, y, z, u0 - v0, u1 - v1, u2 - v2)
         == TurnY(w, x, y, z, u0, u1, u2) - TurnY(w, x, y, z, v0, v1, v2)
  {
    var m0, m1, m2 := 2.0 * (x * y + w * z), 2.0 * w * w - 1.0 + 2.0 * y * y, 2.0 * (y * z - w * x);
    LinearY(w, x, y, z, u0, u1, u2);
    LinearY(w, x, y, z, v0, v1, v2);
    LinearY(w, x, y, z, u0 - v0, u1 - v1, u2 - v2);
    hide TurnY;
    SubDot(m0, m1, m2, u0, u1, u2, v0, v1, v2);
  }

  lemma LinearY(w: real, x: real, y: real, z: real, a: real, b: real, c: real)
    ensures TurnY(w, x, y, z, a, b, c)
         == (2.0 * (x * y + w * z)) * a + (2.0 * w * w - 1.0 + 2.0 * y * y) * b + (2.0 * (y * z - w * x)) * c
  {
  }

  lemma SubZ(w: real, x: real, y: real, z: real, u0: real, u1: real, u2: real, v0: real, v1: real, v2: real)
    ensures TurnZ(w, x, y, z, u0 - v0, u1 - v1, u2 - v2)
         == TurnZ(w, x, y, z, u0, u1, u2) - TurnZ(w, x, y, z, v0, v1, v2)
  {
    var m0, m1, m2 := 2.0 * (x * z - w * y), 2.0 * (y * z + w * x), 2.0 * w * w - 1.0 + 2.0 * z * z;
    LinearZ(w, x, y, z, u0, u1, u2);
    LinearZ(w, x, y, z, v0, v1, v2);
    LinearZ(w, x, y, z, u0 - v0, u1 - v1, u2 - v2);
    hide TurnZ;
    SubDot(m0, m1, m2, u0, u1, u2, v0, v1, v2);
  }

  lemma LinearZ(w: real, x: real, y: real, z: real, a: real, b: real, c: real)
    ensures TurnZ(w, x, y, z, a, b, c)
         == (2.0 * (x * z - w * y)) * a + (2.0 * (y * z + w * x)) * b + (2.0 * w * w - 1.0 + 2.0 * z * z) * c
  {
  }

  lemma SubDot(m0: real, m1: real, m2: real, u0: real, u1: real, u2: real, v0: real, v1: real, v2: real)
    ensures m0 * (u0 - v0) + m1 * (u1 - v1) + m2 * (u2 - v2) == (m0 * u0 + m1 * u1 + m2 * u2) - (m0 * v0 + m1 * v1 + m2 * v2)
  {
  }

  // ── the algebra ────────────────────────────────────────────────────────────

  lemma MulIsHamilton(a: Quat, b: Quat)
    ensures QuatMul(a, b) == Hamilton(a, b)
  {
  }

  lemma HamiltonAssoc(a: Quat, b: Quat, c: Quat)
    ensures Hamilton(Hamilton(a, b), c) == Hamilton(a, Hamilton(b, c))
  {
    hide MulW, MulX, MulY, MulZ;
    var p, q := Hamilton(a, b), Hamilton(b, c);
    AssocWith(a.w, a.x, a.y, a.z, b.w, b.x, b.y, b.z, c.w, c.x, c.y, c.z, p.w, p.x, p.y, p.z, q.w, q.x, q.y, q.z);
  }

  lemma MulAssoc(a: Quat, b: Quat, c: Quat)
    ensures QuatMul(QuatMul(a, b), c) == QuatMul(a, QuatMul(b, c))
  {
    hide Hamilton, QuatMul;
    MulIsHamilton(a, b);
    MulIsHamilton(b, c);
    MulIsHamilton(Hamilton(a, b), c);
    MulIsHamilton(a, Hamilton(b, c));
    HamiltonAssoc(a, b, c);
  }

  lemma MulConj(a: Quat, b: Quat)
    ensures QuatMul(a, b).Conj() == QuatMul(b.Conj(), a.Conj())
  {
    hide QuatMul;
    MulIsHamilton(a, b);
    MulIsHamilton(b.Conj(), a.Conj());
  }

  lemma MulOne(a: Quat)
    ensures QuatMul(a, ONE) == a && QuatMul(ONE, a) == a
  {
  }

  lemma MulInverse(a: Quat)
    requires a.Unit()
    ensures QuatMul(a, a.Conj()) == ONE && QuatMul(a.Conj(), a) == ONE
  {
  }

  lemma MulUnit(a: Quat, b: Quat)
    requires a.Unit() && b.Unit()
    ensures QuatMul(a, b).Unit()
  {
    hide QuatMul, MulW, MulX, MulY, MulZ;
    MulIsHamilton(a, b);
    var p := Hamilton(a, b);
    NormWith(a.w, a.x, a.y, a.z, b.w, b.x, b.y, b.z, p.w, p.x, p.y, p.z);
  }

  lemma ConjUnit(a: Quat)
    requires a.Unit()
    ensures a.Conj().Unit()
  {
  }

  // Right-handed: i j = k and round, and a quarter turn about z takes x to y and y to -x.
  lemma RightHanded(h: real)
    requires h * h == 0.5
    ensures Hamilton(Quat(0.0, 1.0, 0.0, 0.0), Quat(0.0, 0.0, 1.0, 0.0)) == Quat(0.0, 0.0, 0.0, 1.0)
    ensures Hamilton(Quat(0.0, 0.0, 1.0, 0.0), Quat(0.0, 0.0, 0.0, 1.0)) == Quat(0.0, 1.0, 0.0, 0.0)
    ensures Hamilton(Quat(0.0, 0.0, 0.0, 1.0), Quat(0.0, 1.0, 0.0, 0.0)) == Quat(0.0, 0.0, 1.0, 0.0)
    ensures Rotate(Quat(h, 0.0, 0.0, h), Vec3(1.0, 0.0, 0.0)) == Vec3(0.0, 1.0, 0.0)
    ensures Rotate(Quat(h, 0.0, 0.0, h), Vec3(0.0, 1.0, 0.0)) == Vec3(-1.0, 0.0, 0.0)
  {
    UnitProducts();
    QuarterTurn(h, 1.0, 0.0);
    QuarterTurn(h, 0.0, 1.0);
    hide Hamilton, TurnX, TurnY, TurnZ;
  }

  lemma UnitProducts()
    ensures Hamilton(Quat(0.0, 1.0, 0.0, 0.0), Quat(0.0, 0.0, 1.0, 0.0)) == Quat(0.0, 0.0, 0.0, 1.0)
    ensures Hamilton(Quat(0.0, 0.0, 1.0, 0.0), Quat(0.0, 0.0, 0.0, 1.0)) == Quat(0.0, 1.0, 0.0, 0.0)
    ensures Hamilton(Quat(0.0, 0.0, 0.0, 1.0), Quat(0.0, 1.0, 0.0, 0.0)) == Quat(0.0, 0.0, 1.0, 0.0)
  {
  }

  lemma QuarterTurn(h: real, a: real, b: real)
    requires h * h == 0.5
    ensures TurnX(h, 0.0, 0.0, h, a, b, 0.0) == -b
    ensures TurnY(h, 0.0, 0.0, h, a, b, 0.0) == a
    ensures TurnZ(h, 0.0, 0.0, h, a, b, 0.0) == 0.0
  {
    assert 2.0 * h * h - 1.0 == 0.0;
    assert (0.0 * 0.0 - h * b) * h * 2.0 == -(h * h) * b * 2.0;
    assert (h * a - 0.0 * 0.0) * h * 2.0 == (h * h) * a * 2.0;
  }

  // Rotating by a unit quaternion is conjugating with it.
  lemma RotateIsConjugation(q: Quat, v: Vec3)
    requires q.Unit()
    ensures Pure(Rotate(q, v)) == QuatMul(q, QuatMul(Pure(v), q.Conj()))
  {
    hide QuatMul, MulW, MulX, MulY, MulZ, TurnX, TurnY, TurnZ;
    var h := Hamilton(Pure(v), q.Conj());
    MulIsHamilton(Pure(v), q.Conj());
    MulIsHamilton(q, h);
    ConjugationWith(q.w, q.x, q.y, q.z, v.x, v.y, v.z, h.w, h.x, h.y, h.z);
  }

  // On unit quaternions rotating by a product is rotating twice.
  lemma RotateTwice(a: Quat, b: Quat, v: Vec3)
    requires a.Unit() && b.Unit()
    ensures Rotate(QuatMul(a, b), v) == Rotate(a, Rotate(b, v))
  {
    hide QuatMul, Rotate, Quat.Unit;
    var p := Pure(v);
    MulUnit(a, b);
    RotateIsConjugation(QuatMul(a, b), v);
    RotateIsConjugation(b, v);
    RotateIsConjugation(a, Rotate(b, v));
    MulConj(a, b);
    var bc, ac := b.Conj(), a.Conj();
    MulAssoc(a, b, QuatMul(p, QuatMul(bc, ac)));
    MulAssoc(p, bc, ac);
    MulAssoc(b, QuatMul(p, bc), ac);
  }

  lemma RotateByOne(v: Vec3)
    ensures Rotate(ONE, v) == v
  {
  }

  lemma RotateSub(q: Quat, u: Vec3, v: Vec3)
    ensures Rotate(q, u.Sub(v)) == Rotate(q, u).Sub(Rotate(q, v))
  {
    hide TurnX, TurnY, TurnZ;
    SubX(q.w, q.x, q.y, q.z, u.x, u.y, u.z, v.x, v.y, v.z);
    SubY(q.w, q.x, q.y, q.z, u.x, u.y, u.z, v.x, v.y, v.z);
    SubZ(q.w, q.x, q.y, q.z, u.x, u.y, u.z, v.x, v.y, v.z);
  }

  lemma Row0Turns(q: Quat, v: Vec3)
    requires q.Unit()
    ensures Row0(q).Dot(v) == TurnX(q.w, q.x, q.y, q.z, v.x, v.y, v.z)
  {
    hide TurnX;
    var r := Row0(q);
    MatrixRow0(q.w, q.x, q.y, q.z, v.x, v.y, v.z, r.x, r.y, r.z);
  }

  lemma Row1Turns(q: Quat, v: Vec3)
    requires q.Unit()
    ensures Row1(q).Dot(v) == TurnY(q.w, q.x, q.y, q.z, v.x, v.y, v.z)
  {
    hide TurnY;
    var r := Row1(q);
    MatrixRow1(q.w, q.x, q.y, q.z, v.x, v.y, v.z, r.x, r.y, r.z);
  }

  lemma Row2Turns(q: Quat, v: Vec3)
    requires q.Unit()
    ensures Row2(q).Dot(v) == TurnZ(q.w, q.x, q.y, q.z, v.x, v.y, v.z)
  {
    hide TurnZ;
    var r := Row2(q);
    MatrixRow2(q.w, q.x, q.y, q.z, v.x, v.y, v.z, r.x, r.y, r.z);
  }

  // The rotation matrix of a unit quaternion is its rotation.
  lemma MatrixIsRotation(m: Math, q: Quat, v: Vec3)
    requires m.Laws() && q.Unit()
    ensures QuatToRotationMatrix(m, q).Times(v) == Rotate(q, v)
  {
    UnitIsItsOwnUnit(m, q);
    hide m.Laws, QuatUnit, TurnX, TurnY, TurnZ, Row0, Row1, Row2, Vec3.Dot, Quat.Unit;
    Row0Turns(q, v);
    Row1Turns(q, v);
    Row2Turns(q, v);
  }
}
