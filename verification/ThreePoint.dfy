// The 3-point extraction and its calibration (extract_raw, capture_calibration
// and apply_calibration in src/teleop/teleop_tracker.cpp; tracked_root_relative
// in src/teleop/smpl_arm_reach.cpp). half is sqrt(1/2).
module ThreePoint {
  import opened Geometry
  import opened Rotations

  const BODY_JOINTS := 24

  // A tracked joint in the headset's axes.
  datatype Joint = Joint(pos: Vec3, rot: Quat)

  type Body = b: seq<Joint> | |b| == BODY_JOINTS witness seq(BODY_JOINTS, _ => Joint(Vec3(0.0, 0.0, 0.0), ONE))

  // Keypoints: pelvis, left wrist, right wrist, neck.
  function Keypoint(k: nat): (i: nat)
    ensures i < BODY_JOINTS
  {
    if k == 0 then 0 else if k == 1 then 22 else if k == 2 then 23 else 12
  }

  predicate HalfRoot(half: real) { 0.0 <= half && half * half == 0.5 }

  function UnityToRobot(half: real): Quat { Quat(0.0, 0.0, half, half) }

  // Roll and yaw corrections: -90 yaw, +90 roll, -90 roll then 180 yaw, -90 yaw.
  function Offset(half: real, k: nat): Quat {
    if k == 1 then Quat(half, half, 0.0, 0.0)
    else if k == 2 then QuatMul(Quat(0.0, 0.0, 0.0, 1.0), Quat(half, -half, 0.0, 0.0))
    else Quat(half, 0.0, 0.0, -half)
  }

  // The axis permutation of positions.
  function ToRobot(p: Vec3): Vec3 { Vec3(-p.x, p.z, p.y) }

  function ToRobotQuat(half: real, q: Quat): Quat {
    QuatMul(UnityToRobot(half), QuatMul(q, UnityToRobot(half).Conj()))
  }

  function KeyQuat(half: real, body: Body, k: nat): Quat {
    QuatMul(ToRobotQuat(half, body[Keypoint(k)].rot), Offset(half, k))
  }

  // Joint i seen from the pelvis, in robot axes; the arm solve uses it as well.
  function RootRelative(half: real, body: Body, i: nat): Vec3
    requires i < BODY_JOINTS
  {
    Rotate(KeyQuat(half, body, 0).Conj(), ToRobot(body[i].pos).Sub(ToRobot(body[0].pos)))
  }

  function RootRelativeQuat(half: real, body: Body, k: nat): Quat {
    QuatMul(KeyQuat(half, body, 0).Conj(), KeyQuat(half, body, k))
  }

  datatype Pose = Pose(pos: Vec3, rot: Quat)
  datatype Raw = Raw(left: Pose, right: Pose, neck: Pose)

  function ExtractPose(half: real, body: Body, k: nat): Pose {
    Pose(RootRelative(half, body, Keypoint(k)), RootRelativeQuat(half, body, k))
  }

  function ExtractRaw(half: real, body: Body): Raw {
    Raw(ExtractPose(half, body, 1), ExtractPose(half, body, 2), ExtractPose(half, body, 3))
  }

  // ── what is extracted ──────────────────────────────────────────────────────

  // The keypoints are the pelvis (SMPL joint 0), the wrists 22 and 23 and the neck
  // 12: turned back by the pelvis's key rotation, a keypoint is where it was
  // tracked, and turned as it was tracked.
  lemma ExtractionUndone(half: real, body: Body)
    requires HalfRoot(half) && body[0].rot.Unit()
    ensures var raw, root := ExtractRaw(half, body), KeyQuat(half, body, 0);
      && Rotate(root, raw.left.pos) == ToRobot(body[22].pos).Sub(ToRobot(body[0].pos))
      && Rotate(root, raw.right.pos) == ToRobot(body[23].pos).Sub(ToRobot(body[0].pos))
      && Rotate(root, raw.neck.pos) == ToRobot(body[12].pos).Sub(ToRobot(body[0].pos))
      && QuatMul(root, raw.left.rot) == QuatMul(ToRobotQuat(half, body[22].rot), Offset(half, 1))
      && QuatMul(root, raw.right.rot) == QuatMul(ToRobotQuat(half, body[23].rot), Offset(half, 2))
      && QuatMul(root, raw.neck.rot) == QuatMul(ToRobotQuat(half, body[12].rot), Offset(half, 3))
      && root == QuatMul(ToRobotQuat(half, body[0].rot), Offset(half, 0))
  {
    KeypointsAre(half, body);
    hide QuatMul, Rotate, Quat.Unit, Quat.Conj, ToRobot, ToRobotQuat, HalfRoot, Vec3.Sub, Offset, KeyQuat, Keypoint;
    var root := KeyQuat(half, body, 0);
    KeyQuatUnit(half, body, 0);
    Undone(root, ToRobot(body[22].pos).Sub(ToRobot(body[0].pos)), KeyQuat(half, body, 1));
    Undone(root, ToRobot(body[23].pos).Sub(ToRobot(body[0].pos)), KeyQuat(half, body, 2));
    Undone(root, ToRobot(body[12].pos).Sub(ToRobot(body[0].pos)), KeyQuat(half, body, 3));
  }

  lemma KeypointsAre(half: real, body: Body)
    ensures Keypoint(0) == 0 && Keypoint(1) == 22 && Keypoint(2) == 23 && Keypoint(3) == 12
    ensures KeyQuat(half, body, 0) == QuatMul(ToRobotQuat(half, body[0].rot), Offset(half, 0))
    ensures KeyQuat(half, body, 1) == QuatMul(ToRobotQuat(half, body[22].rot), Offset(half, 1))
    ensures KeyQuat(half, body, 2) == QuatMul(ToRobotQuat(half, body[23].rot), Offset(half, 2))
    ensures KeyQuat(half, body, 3) == QuatMul(ToRobotQuat(half, body[12].rot), Offset(half, 3))
  {
    hide QuatMul, ToRobotQuat, Offset;
  }

  lemma Undone(root: Quat, d: Vec3, q: Quat)
    requires root.Unit()
    ensures Rotate(root, Rotate(root.Conj(), d)) == d && QuatMul(root, QuatMul(root.Conj(), q)) == q
  {
    hide QuatMul, Rotate, Quat.Unit, Quat.Conj;
    ConjUnit(root);
    MulInverse(root);
    RotateTwice(root, root.Conj(), d);
    RotateByOne(d);
    MulAssoc(root, root.Conj(), q);
    MulOne(q);
  }

  // The frame corrections as turns of the axes: -90 degrees about z for pelvis and
  // neck, +90 about x for the left wrist, -90 about x and then 180 about z for the right.
  lemma OffsetsTurnAxes(half: real)
    requires HalfRoot(half)
    ensures forall k {:trigger Offset(half, k)} :: k == 0 || k == 3 ==>
              && Rotate(Offset(half, k), Vec3(1.0, 0.0, 0.0)) == Vec3(0.0, -1.0, 0.0)
              && Rotate(Offset(half, k), Vec3(0.0, 1.0, 0.0)) == Vec3(1.0, 0.0, 0.0)
    ensures Rotate(Offset(half, 1), Vec3(1.0, 0.0, 0.0)) == Vec3(1.0, 0.0, 0.0)
    ensures Rotate(Offset(half, 1), Vec3(0.0, 1.0, 0.0)) == Vec3(0.0, 0.0, 1.0)
    ensures Rotate(Offset(half, 2), Vec3(1.0, 0.0, 0.0)) == Vec3(-1.0, 0.0, 0.0)
    ensures Rotate(Offset(half, 2), Vec3(0.0, 1.0, 0.0)) == Vec3(0.0, 0.0, -1.0)
  {
    RightOffset(half);
  }

  lemma RightOffset(half: real)
    ensures Offset(half, 2) == Quat(0.0, 0.0, -half, half)
  {
  }

  // ── invariance ─────────────────────────────────────────────────────────────

  // The operator turned by g and moved by t, every joint alike.
  function Moved(body: Body, g: Quat, t: Vec3): Body {
    seq(BODY_JOINTS, i requires 0 <= i < BODY_JOINTS =>
      Joint(Rotate(g, body[i].pos).Add(t), QuatMul(g, body[i].rot)))
  }

  lemma UnityIsUnit(half: real)
    requires HalfRoot(half)
    ensures UnityToRobot(half).Unit()
  {
  }

  // The axis permutation, which takes x, y, z to -x, z, y and so up to up, is the
  // rotation by UnityToRobot.
  lemma PermutationIsRotation(half: real, p: Vec3)
    requires HalfRoot(half)
    ensures Vec3(-p.x, p.z, p.y) == ToRobot(p) == Rotate(UnityToRobot(half), p)
  {
    PermutationX(half, p.x, p.y, p.z);
  }

  lemma PermutationX(s: real, a: real, b: real, c: real)
    requires s * s == 0.5
    ensures TurnX(0.0, 0.0, s, s, a, b, c) == -a
    ensures TurnY(0.0, 0.0, s, s, a, b, c) == c
    ensures TurnZ(0.0, 0.0, s, s, a, b, c) == b
  {
    assert s * (0.0 * a + s * b + s * c) * 2.0 == (s * s) * (b + c) * 2.0;
  }

  lemma ToRobotUnit(half: real, g: Quat)
    requires HalfRoot(half) && g.Unit()
    ensures ToRobotQuat(half, g).Unit()
  {
    hide QuatMul, Quat.Unit, HalfRoot;
    var u := UnityToRobot(half);
    UnityIsUnit(half);
    hide UnityToRobot;
    ConjUnit(u);
    MulUnit(g, u.Conj());
    MulUnit(u, QuatMul(g, u.Conj()));
  }

  // The headset-frame turn g becomes this one in robot axes.
  lemma TurnInRobotAxes(half: real, g: Quat, p: Vec3)
    requires HalfRoot(half) && g.Unit()
    ensures ToRobot(Rotate(g, p)) == Rotate(ToRobotQuat(half, g), ToRobot(p))
  {
    hide QuatMul, Rotate, Quat.Unit, ToRobot, HalfRoot;
    var u := UnityToRobot(half);
    UnityIsUnit(half);
    hide UnityToRobot;
    ConjUnit(u);
    MulUnit(g, u.Conj());
    MulUnit(u, QuatMul(g, u.Conj()));
    PermutationIsRotation(half, p);
    PermutationIsRotation(half, Rotate(g, p));
    RotateTwice(u, QuatMul(g, u.Conj()), Rotate(u, p));
    RotateTwice(g, u.Conj(), Rotate(u, p));
    RotateTwice(u.Conj(), u, p);
    MulInverse(u);
    RotateByOne(p);
  }

  lemma ProductInRobotAxes(half: real, g: Quat, q: Quat)
    requires HalfRoot(half)
    ensures ToRobotQuat(half, QuatMul(g, q)) == QuatMul(ToRobotQuat(half, g), ToRobotQuat(half, q))
  {
    hide QuatMul, Quat.Unit, HalfRoot;
    var u := UnityToRobot(half);
    UnityIsUnit(half);
    hide UnityToRobot;
    var c := u.Conj();
    MulInverse(u);
    MulAssoc(g, q, c);
    MulAssoc(u, QuatMul(g, c), QuatMul(u, QuatMul(q, c)));
    MulAssoc(g, c, QuatMul(u, QuatMul(q, c)));
    MulAssoc(c, u, QuatMul(q, c));
    MulOne(QuatMul(q, c));
  }

  lemma MovedKeyQuat(half: real, body: Body, g: Quat, t: Vec3, k: nat)
    requires HalfRoot(half)
    ensures KeyQuat(half, Moved(body, g, t), k) == QuatMul(ToRobotQuat(half, g), KeyQuat(half, body, k))
  {
    var q := body[Keypoint(k)].rot;
    assert Moved(body, g, t)[Keypoint(k)].rot == QuatMul(g, q);
    hide QuatMul, Offset, ToRobotQuat;
    ProductInRobotAxes(half, g, q);
    MulAssoc(ToRobotQuat(half, g), ToRobotQuat(half, q), Offset(half, k));
  }

  lemma KeyQuatUnit(half: real, body: Body, k: nat)
    requires HalfRoot(half) && body[Keypoint(k)].rot.Unit()
    ensures KeyQuat(half, body, k).Unit()
  {
    var q := body[Keypoint(k)].rot;
    var u := UnityToRobot(half);
    UnityIsUnit(half);
    OffsetUnit(half, k);
    hide QuatMul, Quat.Unit, UnityToRobot, Offset, HalfRoot;
    ConjUnit(u);
    MulUnit(q, u.Conj());
    MulUnit(u, QuatMul(q, u.Conj()));
    MulUnit(ToRobotQuat(half, q), Offset(half, k));
  }

  lemma OffsetUnit(half: real, k: nat)
    requires HalfRoot(half)
    ensures Offset(half, k).Unit()
  {
    hide QuatMul;
    if k == 2 { MulUnit(Quat(0.0, 0.0, 0.0, 1.0), Quat(half, -half, 0.0, 0.0)); }
  }

  lemma SubCancelsShift(a: Vec3, b: Vec3, t: Vec3)
    ensures ToRobot(a.Add(t)).Sub(ToRobot(b.Add(t))) == ToRobot(a).Sub(ToRobot(b))
  {
  }

  // Conjugating away a common left factor.
  lemma LeftFactorCancels(g: Quat, a: Quat, b: Quat)
    requires g.Unit()
    ensures QuatMul(QuatMul(g, a).Conj(), QuatMul(g, b)) == QuatMul(a.Conj(), b)
  {
    hide QuatMul, Quat.Unit, Quat.Conj;
    MulConj(g, a);
    MulAssoc(a.Conj(), g.Conj(), QuatMul(g, b));
    MulAssoc(g.Conj(), g, b);
    MulInverse(g);
    MulOne(b);
  }

  // Seen from the pelvis nothing changes when the operator turns and moves as a whole.
  lemma RootRelativeInvariant(half: real, body: Body, g: Quat, t: Vec3, i: nat)
    requires HalfRoot(half) && g.Unit() && body[0].rot.Unit() && i < BODY_JOINTS
    ensures RootRelative(half, Moved(body, g, t), i) == RootRelative(half, body, i)
  {
    var moved := Moved(body, g, t);
    var turn, root := ToRobotQuat(half, g), KeyQuat(half, body, 0);
    var a, b := body[i].pos, body[0].pos;
    assert moved[i].pos == Rotate(g, a).Add(t) && moved[0].pos == Rotate(g, b).Add(t);
    hide QuatMul, Rotate, Quat.Unit, Quat.Conj, ToRobot, KeyQuat, Moved, ToRobotQuat, HalfRoot, Vec3.Sub, Vec3.Add;
    KeyQuatUnit(half, body, 0);
    MovedKeyQuat(half, body, g, t, 0);
    SubCancelsShift(Rotate(g, a), Rotate(g, b), t);
    ToRobotUnit(half, g);
    TurnInRobotAxes(half, g, a);
    TurnInRobotAxes(half, g, b);
    var d := ToRobot(a).Sub(ToRobot(b));
    RotateSub(turn, ToRobot(a), ToRobot(b));
    MulConj(turn, root);
    ConjUnit(root);
    ConjUnit(turn);
    RotateTwice(root.Conj(), turn.Conj(), Rotate(turn, d));
    RotateTwice(turn.Conj(), turn, d);
    MulInverse(turn);
    RotateByOne(d);
  }

  lemma RootRelativeQuatInvariant(half: real, body: Body, g: Quat, t: Vec3, k: nat)
    requires HalfRoot(half) && g.Unit()
    ensures RootRelativeQuat(half, Moved(body, g, t), k) == RootRelativeQuat(half, body, k)
  {
    hide QuatMul, Quat.Unit, Quat.Conj, HalfRoot, KeyQuat, Moved, ToRobotQuat;
    ToRobotUnit(half, g);
    MovedKeyQuat(half, body, g, t, 0);
    MovedKeyQuat(half, body, g, t, k);
    LeftFactorCancels(ToRobotQuat(half, g), KeyQuat(half, body, 0), KeyQuat(half, body, k));
  }

  lemma PoseInvariant(half: real, body: Body, g: Quat, t: Vec3, k: nat)
    requires HalfRoot(half) && g.Unit() && body[0].rot.Unit()
    ensures ExtractPose(half, Moved(body, g, t), k) == ExtractPose(half, body, k)
  {
    hide RootRelative, RootRelativeQuat, HalfRoot, Moved, Quat.Unit;
    RootRelativeInvariant(half, body, g, t, Keypoint(k));
    RootRelativeQuatInvariant(half, body, g, t, k);
  }

  // The extraction does not depend on where the operator stands and faces.
  lemma ExtractionInvariant(half: real, body: Body, g: Quat, t: Vec3)
    requires HalfRoot(half) && g.Unit() && body[0].rot.Unit()
    ensures ExtractRaw(half, Moved(body, g, t)) == ExtractRaw(half, body)
  {
    hide ExtractPose, HalfRoot, Moved, Quat.Unit;
    PoseInvariant(half, body, g, t, 1);
    PoseInvariant(half, body, g, t, 2);
    PoseInvariant(half, body, g, t, 3);
  }

  lemma RawRotationsUnit(half: real, body: Body, k: nat)
    requires HalfRoot(half) && body[0].rot.Unit() && body[Keypoint(k)].rot.Unit()
    ensures ExtractPose(half, body, k).rot.Unit()
  {
    hide QuatMul, Quat.Unit, RootRelative, HalfRoot, KeyQuat;
    KeyQuatUnit(half, body, 0);
    KeyQuatUnit(half, body, k);
    ConjUnit(KeyQuat(half, body, 0));
    MulUnit(KeyQuat(half, body, 0).Conj(), KeyQuat(half, body, k));
  }

  // ── calibration ────────────────────────────────────────────────────────────

  // The captured neck, and per wrist a position offset and a rotation offset.
  datatype Calibration = Calibration(haveNeck: bool, neckInverse: Quat, left: Pose, right: Pose)

  datatype Targets = Targets(left: Pose, right: Pose, neck: Pose)

  const UP := Vec3(0.0, 0.0, 1.0)

  // A wrist seen from the calibrated neck.
  function NeckFrame(neckInverse: Quat, p: Pose): Pose {
    Pose(Rotate(neckInverse, p.pos), QuatMul(neckInverse, p.rot))
  }

  class Calibrator {
    var haveNeck: bool
    var neckInverse: Quat
    var left: Pose
    var right: Pose
    var calibrated: bool

    ghost function View(): Calibration
      reads this
    {
      Calibration(haveNeck, neckInverse, left, right)
    }

    constructor ()
      ensures !haveNeck && !calibrated
    {
      haveNeck, neckInverse, calibrated := false, ONE, false;
      left, right := Pose(Vec3(0.0, 0.0, 0.0), ONE), Pose(Vec3(0.0, 0.0, 0.0), ONE);
    }

    // The reset of the calibration gesture and of a reset request.
    method Reset()
      modifies this
      ensures !haveNeck && !calibrated && left == old(left) && right == old(right) && neckInverse == old(neckInverse)
    {
      haveNeck, calibrated := false, false;
    }

    method CaptureCalibration(raw: Raw, refLeft: Pose, refRight: Pose)
      modifies this
      ensures calibrated && View() == Captured(old(View()), raw, refLeft, refRight)
    {
      if !haveNeck {
        neckInverse := raw.neck.rot.Conj();
        haveNeck := true;
      }
      var l, r := NeckFrame(neckInverse, raw.left), NeckFrame(neckInverse, raw.right);
      left := Pose(l.pos.Sub(refLeft.pos), QuatMul(refLeft.rot, l.rot.Conj()));
      right := Pose(r.pos.Sub(refRight.pos), QuatMul(refRight.rot, r.rot.Conj()));
      calibrated := true;
    }

    method ApplyCalibration(raw: Raw) returns (out: Targets)
      ensures out == Applied(View(), raw)
    {
      var neck := QuatMul(neckInverse, raw.neck.rot);
      var l, r := NeckFrame(neckInverse, raw.left), NeckFrame(neckInverse, raw.right);
      var along := Rotate(neck, UP).Scale(0.35);
      out := Targets(Pose(l.pos.Sub(left.pos), QuatMul(left.rot, l.rot)),
                     Pose(r.pos.Sub(right.pos), QuatMul(right.rot, r.rot)),
                     Pose(Vec3(along.x, along.y, 0.05 + along.z), neck));
    }
  }

  function Offsets(p: Pose, ref: Pose): Pose { Pose(p.pos.Sub(ref.pos), QuatMul(ref.rot, p.rot.Conj())) }

  function Corrected(p: Pose, offset: Pose): Pose { Pose(p.pos.Sub(offset.pos), QuatMul(offset.rot, p.rot)) }

  function Captured(c: Calibration, raw: Raw, refLeft: Pose, refRight: Pose): Calibration {
    var inverse := if c.haveNeck then c.neckInverse else raw.neck.rot.Conj();
    Calibration(true, inverse,
                Offsets(NeckFrame(inverse, raw.left), refLeft),
                Offsets(NeckFrame(inverse, raw.right), refRight))
  }

  // The neck is synthesized: 5 cm up from the root, then 35 cm along its own z axis.
  function NeckTarget(rot: Quat): Pose {
    Pose(Vec3(0.0, 0.0, 0.05).Add(Rotate(rot, UP).Scale(0.35)), rot)
  }

  function Applied(c: Calibration, raw: Raw): Targets {
    Targets(Corrected(NeckFrame(c.neckInverse, raw.left), c.left),
            Corrected(NeckFrame(c.neckInverse, raw.right), c.right),
            NeckTarget(QuatMul(c.neckInverse, raw.neck.rot)))
  }

  lemma CorrectedGivesReference(p: Pose, ref: Pose)
    requires p.rot.Unit()
    ensures Corrected(p, Offsets(p, ref)) == ref
  {
    hide QuatMul, Quat.Unit;
    MulAssoc(ref.rot, p.rot.Conj(), p.rot);
    MulInverse(p.rot);
    MulOne(ref.rot);
  }

  // Whatever the pose in which it is captured, calibration maps that pose to the
  // wrist references; a fresh one also maps its neck upright, 40 cm above the root.
  lemma CalibrationMapsToReference(c: Calibration, raw: Raw, refLeft: Pose, refRight: Pose)
    requires raw.left.rot.Unit() && raw.right.rot.Unit() && raw.neck.rot.Unit()
    requires c.haveNeck ==> c.neckInverse.Unit()
    ensures var out := Applied(Captured(c, raw, refLeft, refRight), raw);
      && out.left == refLeft && out.right == refRight
      && (!c.haveNeck ==> out.neck == Pose(Vec3(0.0, 0.0, 0.4), ONE))
  {
    hide QuatMul, Quat.Unit, Quat.Conj, Rotate, Corrected, Offsets;
    var inverse := if c.haveNeck then c.neckInverse else raw.neck.rot.Conj();
    ConjUnit(raw.neck.rot);
    MulUnit(inverse, raw.left.rot);
    MulUnit(inverse, raw.right.rot);
    CorrectedGivesReference(NeckFrame(inverse, raw.left), refLeft);
    CorrectedGivesReference(NeckFrame(inverse, raw.right), refRight);
    MulInverse(raw.neck.rot);
    RotateByOne(UP);
  }

  // A calibration keeps a neck captured before, so that a new one does not jump.
  lemma RecalibrationKeepsNeck(c: Calibration, raw: Raw, refLeft: Pose, refRight: Pose, now: Raw)
    requires c.haveNeck
    ensures Captured(c, raw, refLeft, refRight).haveNeck
    ensures Applied(Captured(c, raw, refLeft, refRight), now).neck == Applied(c, now).neck
  {
    hide QuatMul, Rotate, Offsets, Corrected;
  }

  // A pose moved by d and turned by q in its own axes.
  function Displaced(p: Pose, d: Vec3, q: Quat): Pose { Pose(p.pos.Add(d), QuatMul(p.rot, q)) }

  // Gain one: a wrist that moves by d and turns by q in its own axes moves its
  // target by d, seen from the calibrated neck, and turns it by q; the other
  // targets stay.
  lemma WristsMoveTargets(c: Calibration, raw: Raw, d: Vec3, q: Quat)
    ensures var out, n := Applied(c, raw), Rotate(c.neckInverse, d);
      && Applied(c, raw.(left := Displaced(raw.left, d, q))) == out.(left := Displaced(out.left, n, q))
      && Applied(c, raw.(right := Displaced(raw.right, d, q))) == out.(right := Displaced(out.right, n, q))
  {
    hide QuatMul, Rotate, NeckTarget;
    MovesTarget(c.neckInverse, raw.left, c.left, d, q);
    MovesTarget(c.neckInverse, raw.right, c.right, d, q);
  }

  lemma MovesTarget(neckInverse: Quat, p: Pose, offset: Pose, d: Vec3, q: Quat)
    ensures Corrected(NeckFrame(neckInverse, Displaced(p, d, q)), offset) ==
            Displaced(Corrected(NeckFrame(neckInverse, p), offset), Rotate(neckInverse, d), q)
  {
    hide QuatMul, Rotate;
    RotateAdd(neckInverse, p.pos, d);
    MulAssoc(neckInverse, p.rot, q);
    MulAssoc(offset.rot, QuatMul(neckInverse, p.rot), q);
  }

  lemma RotateAdd(q: Quat, u: Vec3, v: Vec3)
    ensures Rotate(q, u.Add(v)) == Rotate(q, u).Add(Rotate(q, v))
  {
    hide Rotate;
    RotateSub(q, u.Add(v), v);
    assert u.Add(v).Sub(v) == u;
    var r, s := Rotate(q, u.Add(v)), Rotate(q, v);
    assert r.Sub(s).Add(s) == r;
  }

  // The neck target: 35 cm along the neck from a point 5 cm above the root, here
  // for a neck upright and one bent forward by 90 degrees.
  lemma NeckTargetPlaces(half: real)
    requires HalfRoot(half)
    ensures NeckTarget(ONE) == Pose(Vec3(0.0, 0.0, 0.4), ONE)
    ensures NeckTarget(Quat(half, 0.0, half, 0.0)).pos == Vec3(0.35, 0.0, 0.05)
  {
    hide Rotate, NeckTarget;
    RotateByOne(UP);
    BentForward(half);
    NeckAlong(ONE, UP);
    NeckAlong(Quat(half, 0.0, half, 0.0), Vec3(1.0, 0.0, 0.0));
  }

  lemma NeckAlong(rot: Quat, up: Vec3)
    requires Rotate(rot, UP) == up
    ensures NeckTarget(rot) == Pose(Vec3(0.35 * up.x, 0.35 * up.y, 0.05 + 0.35 * up.z), rot)
  {
    hide Rotate;
  }

  lemma BentForward(h: real)
    requires h * h == 0.5
    ensures Rotate(Quat(h, 0.0, h, 0.0), UP) == Vec3(1.0, 0.0, 0.0)
  {
    TurnedUp(h);
    hide TurnX, TurnY, TurnZ;
  }

  lemma TurnedUp(h: real)
    requires h * h == 0.5
    ensures TurnX(h, 0.0, h, 0.0, 0.0, 0.0, 1.0) == 1.0
    ensures TurnY(h, 0.0, h, 0.0, 0.0, 0.0, 1.0) == 0.0
    ensures TurnZ(h, 0.0, h, 0.0, 0.0, 0.0, 1.0) == 0.0
  {
    assert 2.0 * h * h - 1.0 == 0.0;
  }

  // End to end: the targets depend neither on where the operator stood and faced
  // at capture (g0, t0) nor on where they stand and face now (g1, t1).
  lemma TargetsInvariant(half: real, c: Calibration, refLeft: Pose, refRight: Pose,
                         atCapture: Body, now: Body, g0: Quat, t0: Vec3, g1: Quat, t1: Vec3)
    requires HalfRoot(half) && g0.Unit() && g1.Unit() && atCapture[0].rot.Unit() && now[0].rot.Unit()
    ensures Applied(Captured(c, ExtractRaw(half, Moved(atCapture, g0, t0)), refLeft, refRight),
                    ExtractRaw(half, Moved(now, g1, t1)))
         == Applied(Captured(c, ExtractRaw(half, atCapture), refLeft, refRight), ExtractRaw(half, now))
  {
    hide Applied, Captured, ExtractRaw, Moved, HalfRoot, Quat.Unit;
    ExtractionInvariant(half, atCapture, g0, t0);
    ExtractionInvariant(half, now, g1, t1);
  }

  // A calibrated operator who then only turns and walks keeps the robot in the reference pose.
  lemma CalibratedOperatorMayWalk(half: real, c: Calibration, refLeft: Pose, refRight: Pose, body: Body, g: Quat,
                                  t: Vec3)
    requires HalfRoot(half) && g.Unit() && !c.haveNeck
    requires forall k :: 0 <= k < 4 ==> body[Keypoint(k)].rot.Unit()
    ensures Applied(Captured(c, ExtractRaw(half, body), refLeft, refRight), ExtractRaw(half, Moved(body, g, t)))
         == Targets(refLeft, refRight, Pose(Vec3(0.0, 0.0, 0.4), ONE))
  {
    hide Applied, Captured, ExtractPose, Moved, HalfRoot, Quat.Unit;
    assert body[Keypoint(0)].rot.Unit();
    RawRotationsUnit(half, body, 1);
    RawRotationsUnit(half, body, 2);
    RawRotationsUnit(half, body, 3);
    ExtractionInvariant(half, body, g, t);
    var raw := ExtractRaw(half, body);
    CalibrationMapsToReference(c, raw, refLeft, refRight);
    AppliedFields(Captured(c, raw, refLeft, refRight), raw);
  }

  lemma AppliedFields(c: Calibration, raw: Raw)
    ensures Applied(c, raw) == Targets(Applied(c, raw).left, Applied(c, raw).right, Applied(c, raw).neck)
  {
  }
}
