// The two-link arm solve from tracked wrists (src/teleop/smpl_arm_reach.cpp).
module ArmReach {
  import opened Geometry
  import opened Rotations
  import opened ThreePoint

  const SLACK := 0.000001

  function Norm(m: Math, v: Vec3): real { m.Sqrt(v.Dot(v)) }

  // The part of h across u.
  function Across(h: Vec3, u: Vec3): Vec3 { h.Sub(u.Scale(h.Dot(u))) }

  const DOWN := Vec3(0.0, 0.0, -1.0)
  const LEFT := Vec3(0.0, 1.0, 0.0)

  // The swivel direction before normalization: toward the FK elbow, else down, else back.
  function Swivel(m: Math, h: Vec3, u: Vec3): Vec3 {
    if 0.0001 <= Norm(m, Across(h, u)) then Across(h, u)
    else if 0.0001 <= Norm(m, Across(DOWN, u)) then Across(DOWN, u)
    else u.Cross(LEFT)
  }

  // ── the plane triangle ─────────────────────────────────────────────────────

  // How far along the shoulder-wrist line the elbow stands.
  function ElbowAlong(a: real, b: real, d: real): real
    requires d != 0.0
  {
    (a * a - b * b + d * d) / (2.0 * d)
  }

  // How far off it.
  function ElbowOff(m: Math, a: real, along: real): real { m.Sqrt(Max(a * a - along * along, 0.0)) }

  predicate Alongside(a: real, b: real, d: real, along: real) { along * (2.0 * d) == a * a - b * b + d * d }

  lemma ElbowAlongside(a: real, b: real, d: real)
    requires d != 0.0
    ensures Alongside(a, b, d, ElbowAlong(a, b, d))
  {
    Divide(a * a - b * b + d * d, 2.0 * d);
  }

  lemma Divide(x: real, k: real)
    requires k != 0.0
    ensures x / k * k == x
  {
  }

  // A point `along` the line and r off it is a away from one end and b from the other.
  lemma TriangleCloses(a: real, b: real, d: real, along: real, r: real)
    requires Alongside(a, b, d, along) && r * r == a * a - along * along
    ensures along * along + r * r == a * a
    ensures (d - along) * (d - along) + r * r == b * b
  {
    assert (d - along) * (d - along) == d * d - along * (2.0 * d) + along * along;
  }

  lemma SquareBound(n: real, m: real)
    requires -m < n < m
    ensures n * n < m * m
  {
    StrictProduct(m - n, m + n);
    assert (m - n) * (m + n) == m * m - n * n;
  }

  // Inside the triangle inequality the square root has a positive argument.
  lemma RootIsReal(a: real, b: real, d: real, along: real)
    requires 0.0 < a && 0.0 < b && 0.0 < d && Abs(a - b) < d < a + b && Alongside(a, b, d, along)
    ensures 0.0 < a * a - along * along
  {
    SquareBound(a - d, b);
    SquareBound(b, a + d);
    BoundsTwiceProduct(a, b, d, along * (2.0 * d));
    Divided(2.0 * d, along, a);
    SquareBound(along, a);
  }

  lemma BoundsTwiceProduct(a: real, b: real, d: real, l: real)
    requires (a - d) * (a - d) < b * b < (a + d) * (a + d) && l == a * a - b * b + d * d
    ensures -(2.0 * d * a) < l < 2.0 * d * a
  {
  }

  lemma Divided(k: real, x: real, a: real)
    requires 0.0 < k && -(k * a) < x * k < k * a
    ensures -a < x < a
  {
    if x <= -a { Product(k, -a - x); }
    if a <= x { Product(k, x - a); }
  }

  // ── directions ─────────────────────────────────────────────────────────────

  lemma NormSquared(m: Math, v: Vec3)
    requires m.Laws()
    ensures 0.0 <= Norm(m, v) && Norm(m, v) * Norm(m, v) == v.Dot(v)
  {
    DotNonNegative(v);
  }

  lemma DotNonNegative(v: Vec3)
    ensures 0.0 <= v.Dot(v)
  {
  }

  lemma Normalized(m: Math, v: Vec3)
    requires m.Laws() && 0.0 < Norm(m, v)
    ensures v.Scale(1.0 / Norm(m, v)).Dot(v.Scale(1.0 / Norm(m, v))) == 1.0
  {
    NormSquared(m, v);
    var n := Norm(m, v);
    hide Norm, m.Laws;
    var k := 1.0 / n;
    assert k * n == 1.0;
    ScaledDot(v, k);
    assert (k * k) * (n * n) == (k * n) * (k * n);
  }

  lemma ScaledDot(v: Vec3, k: real)
    ensures v.Scale(k).Dot(v.Scale(k)) == (k * k) * v.Dot(v)
  {
  }

  lemma AcrossIsOrthogonal(h: Vec3, u: Vec3)
    requires u.Dot(u) == 1.0
    ensures Across(h, u).Dot(u) == 0.0
  {
    var c := h.Dot(u);
    assert Across(h, u).Dot(u) == c - c * u.Dot(u);
  }

  // Every fallback gives a non-zero direction orthogonal to u.
  lemma SwivelIsUsable(m: Math, h: Vec3, u: Vec3)
    requires m.Laws() && u.Dot(u) == 1.0
    ensures Swivel(m, h, u).Dot(u) == 0.0
    ensures 0.0 < Norm(m, Swivel(m, h, u))
  {
    AcrossIsOrthogonal(h, u);
    AcrossIsOrthogonal(DOWN, u);
    if Norm(m, Across(h, u)) < 0.0001 && Norm(m, Across(DOWN, u)) < 0.0001 {
      VerticalLeavesBack(m, u);
    }
  }

  // Where down has no part across u, u is all but vertical and back has one.
  lemma VerticalLeavesBack(m: Math, u: Vec3)
    requires m.Laws() && u.Dot(u) == 1.0 && Norm(m, Across(DOWN, u)) < 0.0001
    ensures u.Cross(LEFT).Dot(u) == 0.0 && 0.0 < Norm(m, u.Cross(LEFT))
  {
    var down := Across(DOWN, u);
    NormSquared(m, down);
    SquareGrowsStrictly(Norm(m, down), 0.0001);
    assert down.Dot(down) == 1.0 - u.z * u.z by { DownAcross(u); }
    var back := u.Cross(LEFT);
    NormSquared(m, back);
    assert back.Dot(back) == u.z * u.z + u.x * u.x;
    assert 0.0 < back.Dot(back);
    PositiveRoot(Norm(m, back), back.Dot(back));
  }

  lemma PositiveRoot(n: real, square: real)
    requires 0.0 <= n && n * n == square && 0.0 < square
    ensures 0.0 < n
  {
    if n == 0.0 { ZeroSquare(n); }
  }

  lemma ZeroSquare(n: real)
    requires n == 0.0
    ensures n * n == 0.0
  {
  }

  lemma DownAcross(u: Vec3)
    requires u.Dot(u) == 1.0
    ensures Across(DOWN, u).Dot(Across(DOWN, u)) == 1.0 - u.z * u.z
  {
    var c := -u.z;
    assert DOWN.Dot(u) == c;
    var v := Across(DOWN, u);
    assert v.x == -(u.x * c) && v.y == -(u.y * c) && v.z == -1.0 - u.z * c;
    VerticalNorm(u.x, u.y, u.z);
  }

  lemma VerticalNorm(x: real, y: real, z: real)
    requires x * x + y * y + z * z == 1.0
    ensures (x * z) * (x * z) + (y * z) * (y * z) + (-1.0 + z * z) * (-1.0 + z * z) == 1.0 - z * z
  {
    assert (x * z) * (x * z) + (y * z) * (y * z) + (z * z) * (z * z) == (z * z) * (x * x + y * y + z * z);
  }

  // Without a side from the FK elbow the arm bends down; where it is vertical a
  // raised arm bends back, but a hanging one forward.
  lemma DefaultSwivel(m: Math, h: Vec3, u: Vec3)
    requires m.Laws() && u.Dot(u) == 1.0 && Norm(m, Across(h, u)) < 0.0001
    ensures 0.0001 <= Norm(m, Across(DOWN, u)) ==> Swivel(m, h, u).z < 0.0
    ensures Norm(m, Across(DOWN, u)) < 0.0001 ==> Swivel(m, h, u).x == -u.z && Swivel(m, h, u).y == 0.0 && u.z != 0.0
  {
    var down := Across(DOWN, u);
    DownAcross(u);
    DownBends(u);
    NormSquared(m, down);
    CrossLeft(u);
    hide Norm, Across, Vec3.Dot, Vec3.Cross, m.Laws;
    var n := Norm(m, down);
    if 0.0001 <= n { SquareGrows(0.0001, n); } else { SquareGrowsStrictly(n, 0.0001); }
  }

  lemma DownBends(u: Vec3)
    ensures Across(DOWN, u).z == -(1.0 - u.z * u.z)
  {
    assert DOWN.Dot(u) == -u.z;
  }

  lemma CrossLeft(u: Vec3)
    ensures u.Cross(LEFT) == Vec3(-u.z, 0.0, u.x)
  {
  }

  // ── the solve ──────────────────────────────────────────────────────────────

  lemma SpanDot(u: Vec3, h: Vec3, p: real, q: real)
    requires u.Dot(u) == 1.0 && h.Dot(h) == 1.0 && h.Dot(u) == 0.0
    ensures u.Scale(p).Add(h.Scale(q)).Dot(u.Scale(p).Add(h.Scale(q))) == p * p + q * q
  {
    SpanExpanded(u, h, p, q);
    assert p * p * u.Dot(u) == p * p && q * q * h.Dot(h) == q * q && 2.0 * p * q * h.Dot(u) == 0.0;
  }

  lemma SpanExpanded(u: Vec3, h: Vec3, p: real, q: real)
    ensures u.Scale(p).Add(h.Scale(q)).Dot(u.Scale(p).Add(h.Scale(q)))
         == p * p * u.Dot(u) + q * q * h.Dot(h) + 2.0 * p * q * h.Dot(u)
  {
  }

  // The squared distance of two points.
  function Gap(p: Vec3, q: Vec3): real { p.Sub(q).Dot(p.Sub(q)) }

  lemma ElbowAndWrist(a: real, b: real, d: real, along: real, r: real, u: Vec3, h: Vec3, shoulder: Vec3)
    requires u.Dot(u) == 1.0 && h.Dot(h) == 1.0 && h.Dot(u) == 0.0
    requires Alongside(a, b, d, along) && r * r == a * a - along * along
    ensures var elbow := shoulder.Add(u.Scale(along).Add(h.Scale(r))); var wrist := shoulder.Add(u.Scale(d));
      Gap(elbow, shoulder) == a * a && Gap(wrist, elbow) == b * b
  {
    TriangleCloses(a, b, d, along, r);
    SpanDot(u, h, along, r);
    SpanDot(u, h, d - along, -r);
    var elbow := shoulder.Add(u.Scale(along).Add(h.Scale(r)));
    var wrist := shoulder.Add(u.Scale(d));
    assert elbow.Sub(shoulder) == u.Scale(along).Add(h.Scale(r));
    assert wrist.Sub(elbow) == u.Scale(d - along).Add(h.Scale(-r));
    assert (-r) * (-r) == r * r;
  }

  // Shoulder to wrist, as tracked, in the operator's root frame.
  function TrackedArm(half: real, body: Body, shoulder: nat, wrist: nat): Vec3
    requires shoulder < BODY_JOINTS && wrist < BODY_JOINTS
  {
    RootRelative(half, body, wrist).Sub(RootRelative(half, body, shoulder))
  }

  // The distance to which a tracked reach is scaled, within the linkage's range.
  function ReachScaled(a: real, b: real, len: real, maxReach: real): real
    requires 0.0 < maxReach
  {
    ClampReal(Min(len / maxReach, 1.0) * (a + b), Abs(a - b) + SLACK, a + b - SLACK)
  }

  lemma ReachInRange(a: real, b: real, len: real, maxReach: real)
    requires SLACK < a && SLACK < b && 0.0 < maxReach
    ensures 0.0 < ReachScaled(a, b, len, maxReach) < a + b
    ensures Abs(a - b) < ReachScaled(a, b, len, maxReach)
  {
  }

  lemma OffIsReal(m: Math, a: real, b: real, d: real, along: real)
    requires m.Laws() && 0.0 < a && 0.0 < b && 0.0 < d && Abs(a - b) < d < a + b && Alongside(a, b, d, along)
    ensures ElbowOff(m, a, along) * ElbowOff(m, a, along) == a * a - along * along
  {
    RootIsReal(a, b, d, along);
  }

  // The solved arm: upper and fore arm keep their lengths, the wrist lies on the
  // tracked direction at the scaled reach, and the thumb keeps its offset.
  ghost predicate Solved(m: Math, a: real, b: real, v: Vec3, maxReach: real,
                         shoulder: Vec3, elbow: Vec3, wrist: Vec3, thumb: Vec3, wasWrist: Vec3, wasThumb: Vec3)
    requires 0.0 < Norm(m, v) && 0.0 < maxReach
  {
    var d := ReachScaled(a, b, Norm(m, v), maxReach);
    && Gap(elbow, shoulder) == a * a && Gap(wrist, elbow) == b * b
    && wrist == shoulder.Add(v.Scale(d / Norm(m, v))) && 0.0 < d < a + b
    && thumb.Sub(wrist) == wasThumb.Sub(wasWrist)
  }

  lemma OffIsNonNegative(m: Math, a: real, along: real)
    requires m.Laws()
    ensures 0.0 <= ElbowOff(m, a, along)
  {
  }

  lemma ArmIsSolved(m: Math, a: real, b: real, d: real, along: real, r: real, v: Vec3, h: Vec3, shoulder: Vec3)
    requires m.Laws() && 0.0 < Norm(m, v) && 0.0 < Norm(m, h) && h.Dot(v.Scale(1.0 / Norm(m, v))) == 0.0
    requires Alongside(a, b, d, along) && r * r == a * a - along * along
    ensures var u := v.Scale(1.0 / Norm(m, v)); var across := h.Scale(1.0 / Norm(m, h));
      var elbow := shoulder.Add(u.Scale(along).Add(across.Scale(r))); var wrist := shoulder.Add(u.Scale(d));
      && Gap(elbow, shoulder) == a * a && Gap(wrist, elbow) == b * b
      && wrist == shoulder.Add(v.Scale(d / Norm(m, v)))
  {
    hide Gap, Norm, Alongside, Vec3.Dot, Vec3.Scale, Vec3.Add, m.Laws;
    Normalized(m, v);
    Normalized(m, h);
    var u, across := v.Scale(1.0 / Norm(m, v)), h.Scale(1.0 / Norm(m, h));
    ScaledOrthogonal(h, u, 1.0 / Norm(m, h));
    ScaleTwice(v, d, Norm(m, v));
    ElbowAndWrist(a, b, d, along, r, u, across, shoulder);
  }

  lemma ScaledOrthogonal(h: Vec3, u: Vec3, k: real)
    requires h.Dot(u) == 0.0
    ensures h.Scale(k).Dot(u) == 0.0
  {
    assert h.Scale(k).Dot(u) == k * h.Dot(u);
  }

  lemma ScaleTwice(v: Vec3, d: real, n: real)
    requires n != 0.0
    ensures v.Scale(1.0 / n).Scale(d) == v.Scale(d / n)
  {
    assert d * (1.0 / n) == d / n;
  }

  // The elbow stands off the line on the swivel direction's side.
  ghost predicate Swivelled(m: Math, v: Vec3, shoulder: Vec3, elbow: Vec3, elbowFk: Vec3)
    requires 0.0 < Norm(m, v)
  {
    var u := v.Scale(1.0 / Norm(m, v));
    exists p: real, k: real ::
      0.0 <= k && elbow.Sub(shoulder) == u.Scale(p).Add(Swivel(m, elbowFk.Sub(shoulder), u).Scale(k))
  }

  lemma SwivelSide(m: Math, v: Vec3, shoulder: Vec3, elbow: Vec3, elbowFk: Vec3, p: real, r: real, n: real)
    requires 0.0 < Norm(m, v) && 0.0 <= r && 0.0 < n
    requires var u := v.Scale(1.0 / Norm(m, v));
      elbow == shoulder.Add(u.Scale(p).Add(Swivel(m, elbowFk.Sub(shoulder), u).Scale(1.0 / n).Scale(r)))
    ensures Swivelled(m, v, shoulder, elbow, elbowFk)
  {
    hide Swivel, Norm, Vec3.Add, Vec3.Sub, Vec3.Scale;
    var u := v.Scale(1.0 / Norm(m, v));
    var h := Swivel(m, elbowFk.Sub(shoulder), u);
    ScaleTwice(h, r, n);
    AddThenSub(shoulder, u.Scale(p).Add(h.Scale(r / n)));
    assert 0.0 <= r / n;
    assert elbow.Sub(shoulder) == u.Scale(p).Add(h.Scale(r / n));
  }

  lemma AddThenSub(v: Vec3, w: Vec3)
    ensures v.Add(w).Sub(v) == w
  {
  }

  // Two-link inverse kinematics along the tracked direction.
  method PlaceArm(m: Math, a: real, b: real, v: Vec3, maxReach: real,
                  shoulder: Vec3, elbowFk: Vec3, wristFk: Vec3, thumbFk: Vec3)
    returns (elbow: Vec3, wrist: Vec3, thumb: Vec3)
    requires m.Laws() && SLACK < a && SLACK < b && 0.0 < Norm(m, v) && 0.0 < maxReach
    ensures Solved(m, a, b, v, maxReach, shoulder, elbow, wrist, thumb, wristFk, thumbFk)
    ensures Swivelled(m, v, shoulder, elbow, elbowFk)
  {
    hide m.Laws, Swivel, Across, Norm, Gap, Vec3.Sub, Vec3.Add, Vec3.Scale, Vec3.Dot;
    hide ReachScaled, ElbowAlong, ElbowOff, Alongside;
    var len := Norm(m, v);
    var d := ReachScaled(a, b, len, maxReach);
    var u := v.Scale(1.0 / len);
    var thumbOff := thumbFk.Sub(wristFk);
    ReachInRange(a, b, len, maxReach);
    var along := ElbowAlong(a, b, d);
    ElbowAlongside(a, b, d);
    var r := ElbowOff(m, a, along);
    OffIsReal(m, a, b, d, along);
    Normalized(m, v);
    var h := Swivel(m, elbowFk.Sub(shoulder), u);
    SwivelIsUsable(m, elbowFk.Sub(shoulder), u);
    ArmIsSolved(m, a, b, d, along, r, v, h, shoulder);
    var n := Norm(m, h);
    h := h.Scale(1.0 / n);
    OffIsNonNegative(m, a, along);
    elbow := shoulder.Add(u.Scale(along).Add(h.Scale(r)));
    wrist := shoulder.Add(u.Scale(d));
    thumb := wrist.Add(thumbOff);
    AddThenSub(wrist, thumbOff);
    SwivelSide(m, v, shoulder, elbow, elbowFk, along, r, n);
  }

  // solve_arm; a and b are the lengths of the rest skeleton's upper and fore arm,
  // joints the pose's 24 local joints, t the thumb tip.
  method SolveArm(m: Math, half: real, body: Body, joints: array<Vec3>, maxReach: array<real>, side: nat,
                  a: real, b: real, s: nat, e: nat, w: nat, t: nat, tw: nat)
    requires m.Laws() && SLACK < a && SLACK < b
    requires joints.Length == BODY_JOINTS && maxReach.Length == 2 && side < 2 && 0.0 < maxReach[side]
    requires s < BODY_JOINTS && e < BODY_JOINTS && w < BODY_JOINTS && t < BODY_JOINTS && tw < BODY_JOINTS
    requires s != e && s != w && s != t && e != w && e != t && w != t
    modifies joints, maxReach
    ensures forall i :: 0 <= i < BODY_JOINTS && i != e && i != w && i != t ==> joints[i] == old(joints[i])
    ensures maxReach[1 - side] == old(maxReach[1 - side]) && old(maxReach[side]) <= maxReach[side]
    ensures var v := TrackedArm(half, body, s, tw);
      if Norm(m, v) < 0.001 then joints[..] == old(joints[..]) && maxReach[..] == old(maxReach[..])
      else
        && maxReach[side] == Max(old(maxReach[side]), Norm(m, v))
        && Solved(m, a, b, v, maxReach[side], joints[s], joints[e], joints[w], joints[t],
                  old(joints[w]), old(joints[t]))
        && Swivelled(m, v, joints[s], joints[e], old(joints[e]))
  {
    hide m.Laws, RootRelative, Solved, Swivelled, Norm, Vec3.Sub;
    var v := RootRelative(half, body, tw).Sub(RootRelative(half, body, s));
    var len := Norm(m, v);
    if len < 0.001 { return; }
    maxReach[side] := Max(maxReach[side], len);
    joints[e], joints[w], joints[t] := PlaceArm(m, a, b, v, maxReach[side], joints[s], joints[e], joints[w], joints[t]);
  }

  // An arm at its longest reach so far is straight, up to the linkage's slack.
  lemma LongestReachIsStraight(m: Math, a: real, b: real, v: Vec3, maxReach: real)
    requires SLACK < a && SLACK < b && 0.0 < maxReach == Norm(m, v)
    ensures ReachScaled(a, b, Norm(m, v), maxReach) == a + b - SLACK
  {
    assert maxReach / maxReach == 1.0;
  }

  // Turned back by the pelvis's rotation it points from the tracked shoulder to the
  // tracked wrist.
  lemma TrackedArmUndone(half: real, body: Body, shoulder: nat, wrist: nat)
    requires HalfRoot(half) && body[0].rot.Unit() && shoulder < BODY_JOINTS && wrist < BODY_JOINTS
    ensures Rotate(KeyQuat(half, body, 0), TrackedArm(half, body, shoulder, wrist)) ==
            ToRobot(body[wrist].pos).Sub(ToRobot(body[shoulder].pos))
  {
    var root := KeyQuat(half, body, 0);
    var w, s, p := ToRobot(body[wrist].pos), ToRobot(body[shoulder].pos), ToRobot(body[0].pos);
    KeyQuatUnit(half, body, 0);
    hide KeyQuat, Rotate, QuatMul, ToRobot, HalfRoot, Quat.Unit, Quat.Conj;
    Undone(root, w.Sub(p), root);
    Undone(root, s.Sub(p), root);
    RotateSub(root, RootRelative(half, body, wrist), RootRelative(half, body, shoulder));
  }

  // The solve depends on the operator only through the arm seen from the pelvis.
  lemma TrackedArmInvariant(half: real, body: Body, g: Quat, t: Vec3, shoulder: nat, wrist: nat)
    requires HalfRoot(half) && g.Unit() && body[0].rot.Unit() && shoulder < BODY_JOINTS && wrist < BODY_JOINTS
    ensures TrackedArm(half, Moved(body, g, t), shoulder, wrist) == TrackedArm(half, body, shoulder, wrist)
  {
    hide RootRelative, Moved, HalfRoot, Quat.Unit;
    RootRelativeInvariant(half, body, g, t, shoulder);
    RootRelativeInvariant(half, body, g, t, wrist);
  }

  // Within the linkage's range the solved reach is to the arm's length as the
  // tracked reach is to the longest one, outside it is held at the range's end.
  lemma ReachIsProportional(a: real, b: real, len: real, maxReach: real, want: real)
    requires SLACK < a && SLACK < b && 0.0 <= len <= maxReach && 0.0 < maxReach
    requires want * maxReach == len * (a + b)
    ensures ReachScaled(a, b, len, maxReach) == ClampReal(want, Abs(a - b) + SLACK, a + b - SLACK)
  {
    var k := a + b;
    assert want * maxReach == len * k;
    QuotientAtMostOne(len, maxReach);
    QuotientTimes(len, maxReach, k, want);
    ReachUnfolds(a, b, len, maxReach, k);
  }

  lemma ReachUnfolds(a: real, b: real, len: real, maxReach: real, k: real)
    requires 0.0 < maxReach && len / maxReach <= 1.0 && k == a + b
    ensures ReachScaled(a, b, len, maxReach) == ClampReal(len / maxReach * k, Abs(a - b) + SLACK, k - SLACK)
  {
    assert Min(len / maxReach, 1.0) == len / maxReach;
  }

  lemma QuotientTimes(len: real, m: real, k: real, want: real)
    requires 0.0 < m && want * m == len * k
    ensures len / m * k == want
  {
    var q := len / m;
    assert q * m == len;
    Regrouped(q, m, k, len);
    CancelFactor(m, q * k, want);
  }

  lemma Regrouped(q: real, m: real, k: real, len: real)
    requires q * m == len
    ensures m * (q * k) == len * k
  {
    assert m * (q * k) == (q * m) * k;
  }

  lemma QuotientAtMostOne(len: real, m: real)
    requires 0.0 <= len <= m && 0.0 < m
    ensures len / m <= 1.0
  {
    var x := len / m;
    assert x * m == len;
    if 1.0 < x { StrictProduct(x - 1.0, m); }
  }

  // ── a solved arm stays as it is ────────────────────────────────────────────

  lemma DotExpanded(u: Vec3, x: Vec3, d: real)
    ensures u.Scale(d).Sub(x).Dot(u.Scale(d).Sub(x)) == d * d * u.Dot(u) - 2.0 * d * u.Dot(x) + x.Dot(x)
  {
  }

  // Two points at distance a from the origin and b from d u lie equally far along u.
  lemma SameAlong(u: Vec3, x: Vec3, y: Vec3, d: real)
    requires u.Dot(u) == 1.0 && 0.0 < d && x.Dot(x) == y.Dot(y)
    requires u.Scale(d).Sub(x).Dot(u.Scale(d).Sub(x)) == u.Scale(d).Sub(y).Dot(u.Scale(d).Sub(y))
    ensures u.Dot(x) == u.Dot(y)
  {
    DotExpanded(u, x, d);
    DotExpanded(u, y, d);
    hide Vec3.Dot, Vec3.Scale, Vec3.Sub;
    CancelFactor(2.0 * d, u.Dot(x), u.Dot(y));
  }

  lemma CancelFactor(k: real, x: real, y: real)
    requires 0.0 < k && k * x == k * y
    ensures x == y
  {
    assert k * (x - y) == 0.0;
  }

  lemma SpanAlong(u: Vec3, h: Vec3, p: real, k: real)
    requires u.Dot(u) == 1.0 && h.Dot(u) == 0.0
    ensures u.Dot(u.Scale(p).Add(h.Scale(k))) == p
  {
    assert u.Dot(u.Scale(p).Add(h.Scale(k))) == p * u.Dot(u) + k * h.Dot(u);
  }

  lemma SpanSquare(u: Vec3, h: Vec3, p: real, k: real)
    requires u.Dot(u) == 1.0 && h.Dot(u) == 0.0
    ensures u.Scale(p).Add(h.Scale(k)).Dot(u.Scale(p).Add(h.Scale(k))) == p * p + k * k * h.Dot(h)
  {
    SpanExpanded(u, h, p, k);
    hide Vec3.Dot, Vec3.Scale, Vec3.Add;
    assert p * p * u.Dot(u) == p * p && 2.0 * p * k * h.Dot(u) == 0.0;
  }

  lemma AcrossSplits(y: Vec3, u: Vec3)
    ensures y == u.Scale(y.Dot(u)).Add(Across(y, u).Scale(1.0)) && y.Dot(u) == u.Dot(y)
  {
  }

  lemma UnitFactor(total: real, p: real, k: real, square: real)
    requires 0.0 <= k && 0.0 < square
    requires total == p * p + k * k * square && total == p * p + 1.0 * 1.0 * square
    ensures k == 1.0
  {
    assert square * (k * k) == square * 1.0;
    CancelFactor(square, k * k, 1.0);
    SameSquare(k, 1.0);
  }

  lemma SameElbow(u: Vec3, x: Vec3, y: Vec3, p: real, k: real, d: real)
    requires u.Dot(u) == 1.0 && 0.0 < d && 0.0 <= k && 0.0 < Across(y, u).Dot(Across(y, u))
    requires x == u.Scale(p).Add(Across(y, u).Scale(k)) && x.Dot(x) == y.Dot(y)
    requires u.Scale(d).Sub(x).Dot(u.Scale(d).Sub(x)) == u.Scale(d).Sub(y).Dot(u.Scale(d).Sub(y))
    ensures x == y
  {
    AcrossIsOrthogonal(y, u);
    AcrossSplits(y, u);
    hide Vec3.Dot, Vec3.Scale, Vec3.Sub, Vec3.Add, Across;
    var h := Across(y, u);
    SameAlong(u, x, y, d);
    SpanAlong(u, h, p, k);
    assert y == u.Scale(p).Add(h.Scale(1.0));
    SpanSquare(u, h, p, k);
    SpanSquare(u, h, p, 1.0);
    UnitFactor(x.Dot(x), p, k, h.Dot(h));
  }

  lemma Offsets(shoulder: Vec3, elbow: Vec3, u: Vec3, d: real)
    ensures shoulder.Add(u.Scale(d)).Sub(elbow) == u.Scale(d).Sub(elbow.Sub(shoulder))
  {
  }

  // If the FK elbow already has both bone lengths to shoulder and wrist and is off
  // the line between them, it is kept: the elbow is solved on its side, nowhere else.
  lemma SolvedElbowStays(m: Math, a: real, b: real, v: Vec3, maxReach: real, shoulder: Vec3, elbow: Vec3,
                         wrist: Vec3, thumb: Vec3, wasWrist: Vec3, wasThumb: Vec3, elbowFk: Vec3)
    requires m.Laws() && 0.0 < Norm(m, v) && 0.0 < maxReach
    requires Solved(m, a, b, v, maxReach, shoulder, elbow, wrist, thumb, wasWrist, wasThumb)
    requires Swivelled(m, v, shoulder, elbow, elbowFk)
    requires Gap(elbowFk, shoulder) == a * a && Gap(wrist, elbowFk) == b * b
    requires 0.0001 <= Norm(m, Across(elbowFk.Sub(shoulder), v.Scale(1.0 / Norm(m, v))))
    ensures elbow == elbowFk
  {
    var u := v.Scale(1.0 / Norm(m, v));
    var d := ReachScaled(a, b, Norm(m, v), maxReach);
    var x, y := elbow.Sub(shoulder), elbowFk.Sub(shoulder);
    assert Across(y, u) == Swivel(m, y, u);
    hide Norm, Across, ReachScaled, Swivel, m.Laws, Vec3.Dot, Vec3.Scale, Vec3.Add, Vec3.Sub;
    Normalized(m, v);
    NormPositive(m, Across(y, u));
    ScaleTwice(v, d, Norm(m, v));
    var p: real, k: real :| 0.0 <= k && x == u.Scale(p).Add(Swivel(m, y, u).Scale(k));
    Offsets(shoulder, elbow, u, d);
    Offsets(shoulder, elbowFk, u, d);
    SameElbow(u, x, y, p, k, d);
    SubInjective(elbow, elbowFk, shoulder);
  }

  lemma NormPositive(m: Math, v: Vec3)
    requires m.Laws() && 0.0 < Norm(m, v)
    ensures 0.0 < v.Dot(v)
  {
    NormSquared(m, v);
    hide Norm, Vec3.Dot, m.Laws;
    PositiveSquare(Norm(m, v), v.Dot(v));
  }

  lemma PositiveSquare(n: real, square: real)
    requires 0.0 < n && n * n == square
    ensures 0.0 < square
  {
    NonNegativeSquare(n);
    if square <= 0.0 { SameSquare(n, 0.0); }
  }

  lemma SubInjective(a: Vec3, b: Vec3, c: Vec3)
    requires a.Sub(c) == b.Sub(c)
    ensures a == b
  {
  }
}
