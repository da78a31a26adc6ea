// The planner's 30 Hz -> 50 Hz resampler and its 50 Hz -> 30 Hz context
// (resample_30hz_to_50hz and update_context_from_motion in
// src/planner/planner_inference.cpp). Times are exact: frame f of the 50 Hz
// sequence lies at 3f/5 source frames, context entry n at 5n/3 frames past gen.
module PlannerResample {
  import opened Geometry
  import opened JointOrder
  import opened Optional
  import opened Playback

  const QPOS_DIM := 36
  const MAX_FRAMES := 64
  const CONTEXT_FRAMES := 4

  // The planner output buffer: 64 frames of 36 numbers, joints in MuJoCo order.
  type Qpos = q: seq<real> | |q| == MAX_FRAMES * QPOS_DIM witness seq(MAX_FRAMES * QPOS_DIM, _ => 0.0)

  function RawPosition(q: Qpos, k: nat): Vec3
    requires k < MAX_FRAMES
  {
    Vec3(q[k * QPOS_DIM], q[k * QPOS_DIM + 1], q[k * QPOS_DIM + 2])
  }

  function RawQuat(q: Qpos, k: nat): Quat
    requires k < MAX_FRAMES
  {
    Quat(q[k * QPOS_DIM + 3], q[k * QPOS_DIM + 4], q[k * QPOS_DIM + 5], q[k * QPOS_DIM + 6])
  }

  function RawJoint(q: Qpos, k: nat, j: nat): real
    requires k < MAX_FRAMES && j < JOINTS
  {
    q[k * QPOS_DIM + 7 + j]
  }

  // Number of 50 Hz frames for n source frames.
  function OutputLength(n: int): int { 5 * n / 3 }

  predicate Accepted(n: int) { 2 <= n <= MAX_FRAMES }

  function Below(f: nat): nat { 3 * f / 5 }

  function Above(f: nat, n: nat): int { if Below(f) + 1 < n - 1 then Below(f) + 1 else n - 1 }

  function Share(f: nat): real { (3 * f % 5) as real / 5.0 }

  // Every source frame read is one of the n the planner produced, and the share
  // is that of the output's time, 3f/5 source frames.
  lemma SourceFramesExist(n: nat, f: nat)
    requires Accepted(n) && f < OutputLength(n)
    ensures 0 <= Below(f) <= Above(f, n) < n && 0.0 <= Share(f) < 1.0
    ensures Below(f) as real + Share(f) == f as real * 3.0 / 5.0
  {
    assert 3 * f == 5 * Below(f) + 3 * f % 5;
  }

  // Joint j of output frame f, in IsaacLab order.
  function SampledJoint(q: Qpos, n: nat, f: nat, j: nat): real
    requires Accepted(n) && f < OutputLength(n) && j < JOINTS
  {
    SourceFramesExist(n, f);
    Permutations();
    Mix(RawJoint(q, Below(f), MUJOCO_OF[j]), RawJoint(q, Above(f, n), MUJOCO_OF[j]), Share(f))
  }

  predicate Sampled(m: Math, q: Qpos, n: nat, f: nat, out: Frame)
    requires Accepted(n) && f < OutputLength(n)
  {
    SourceFramesExist(n, f);
    && out.position == MixVec(RawPosition(q, Below(f)), RawPosition(q, Above(f, n)), Share(f))
    && out.quaternion == Slerp(m, RawQuat(q, Below(f)), RawQuat(q, Above(f, n)), Share(f))
    && (forall j :: 0 <= j < JOINTS ==> out.joints[j] == SampledJoint(q, n, f, j))
  }

  // The velocities that carry joints a to joints b in one 50 Hz frame.
  function Difference(a: Joints, b: Joints): Joints {
    seq(JOINTS, j requires 0 <= j < JOINTS => (b[j] - a[j]) * 50.0)
  }

  predicate LeadsOn(frames: seq<Frame>, f: int)
    requires 0 <= f < |frames| - 1
  {
    frames[f].velocities == Difference(frames[f].joints, frames[f + 1].joints)
  }

  // Forward differences, the last one repeated.
  predicate Differentiated(frames: seq<Frame>)
    requires 2 <= |frames|
  {
    && (forall f :: 0 <= f < |frames| - 1 ==> LeadsOn(frames, f))
    && frames[|frames| - 1].velocities == frames[|frames| - 2].velocities
  }

  method GatherJoints(q: Qpos, k0: nat, k1: nat, w1: real) returns (out: Joints)
    requires k0 < MAX_FRAMES && k1 < MAX_FRAMES
    ensures forall j :: 0 <= j < JOINTS ==>
              && 0 <= MUJOCO_OF[j] < JOINTS
              && out[j] == Mix(RawJoint(q, k0, MUJOCO_OF[j]), RawJoint(q, k1, MUJOCO_OF[j]), w1)
  {
    Permutations();
    var acc: seq<real> := [];
    for j := 0 to JOINTS
      invariant |acc| == j
      invariant forall i :: 0 <= i < j ==>
                  acc[i] == Mix(RawJoint(q, k0, MUJOCO_OF[i]), RawJoint(q, k1, MUJOCO_OF[i]), w1)
    {
      acc := acc + [Mix(q[k0 * QPOS_DIM + 7 + MUJOCO_OF[j]], q[k1 * QPOS_DIM + 7 + MUJOCO_OF[j]], w1)];
    }
    out := acc;
  }

  method Differentiate(sampled: seq<Frame>) returns (frames: seq<Frame>)
    requires 2 <= |sampled|
    ensures |frames| == |sampled| && Differentiated(frames)
    ensures forall i :: 0 <= i < |sampled| ==> frames[i] == sampled[i].(velocities := frames[i].velocities)
  {
    var count := |sampled|;
    frames := sampled;
    for f := 0 to count - 1
      invariant |frames| == count
      invariant forall i :: 0 <= i < count ==> frames[i] == sampled[i].(velocities := frames[i].velocities)
      invariant forall i :: 0 <= i < f ==>
                  frames[i].velocities == Difference(sampled[i].joints, sampled[i + 1].joints)
    {
      frames := frames[f := frames[f].(velocities := Difference(frames[f].joints, frames[f + 1].joints))];
    }
    frames := frames[count - 1 := frames[count - 1].(velocities := frames[count - 2].velocities)];
    forall f | 0 <= f < count - 1 ensures LeadsOn(frames, f) {
      assert frames[f].joints == sampled[f].joints && frames[f + 1].joints == sampled[f + 1].joints;
    }
  }

  method Resample(m: Math, q: Qpos, n: int) returns (frames: Option<seq<Frame>>)
    ensures frames.Some? <==> 2 <= n <= 64
    ensures frames.Some? ==> |frames.value| == OutputLength(n)
    ensures frames.Some? ==> forall f :: 0 <= f < |frames.value| ==> Sampled(m, q, n, f, frames.value[f])
    ensures frames.Some? ==> Differentiated(frames.value)
  {
    hide Slerp, MixVec;
    if n <= 0 || n > MAX_FRAMES { return None; }
    var count := 5 * n / 3;
    if count > CAPACITY { count := CAPACITY; }
    if count < 2 { return None; }
    var seq50: seq<Frame> := [];
    var zero: Joints := seq(JOINTS, _ => 0.0);
    for f := 0 to count
      invariant |seq50| == f
      invariant forall i :: 0 <= i < f ==> Sampled(m, q, n, i, seq50[i])
    {
      SourceFramesExist(n, f);
      var f0 := 3 * f / 5;
      var f1 := if f0 + 1 < n - 1 then f0 + 1 else n - 1;
      var w1 := (3 * f % 5) as real / 5.0;
      var joints := GatherJoints(q, f0, f1, w1);
      var frame := Frame(MixVec(RawPosition(q, f0), RawPosition(q, f1), w1),
                         Slerp(m, RawQuat(q, f0), RawQuat(q, f1), w1), joints, zero);
      assert Sampled(m, q, n, f, frame);
      seq50 := seq50 + [frame];
    }
    var out := Differentiate(seq50);
    frames := Some(out);
    forall f | 0 <= f < count ensures Sampled(m, q, n, f, out[f]) {
      assert Sampled(m, q, n, f, seq50[f]);
    }
  }

  // ── what resampling preserves ──────────────────────────────────────────────

  // Source frame 3k is output frame 5k.
  lemma GridPoint(m: Math, q: Qpos, n: nat, k: nat, out: Frame)
    requires m.Laws() && Accepted(n) && 5 * k < OutputLength(n) && Sampled(m, q, n, 5 * k, out)
    ensures 3 * k < n && 0 <= Above(5 * k, n) < n
    ensures out.position == RawPosition(q, 3 * k)
    ensures out.quaternion == RawQuat(q, 3 * k) <==> StartKept(RawQuat(q, 3 * k), RawQuat(q, Above(5 * k, n)))
    ensures forall j :: 0 <= j < JOINTS ==>
              0 <= MUJOCO_OF[j] < JOINTS && out.joints[j] == RawJoint(q, 3 * k, MUJOCO_OF[j])
  {
    hide Slerp, m.Laws, StartKept;
    Permutations();
    assert Below(5 * k) == 3 * k && Share(5 * k) == 0.0;
    SourceFramesExist(n, 5 * k);
    SlerpStart(m, RawQuat(q, 3 * k), RawQuat(q, Above(5 * k, n)));
  }

  // Joints lie between those of the two neighbouring source frames.
  lemma JointsInHull(m: Math, q: Qpos, n: nat, f: nat, out: Frame, j: nat)
    requires Accepted(n) && f < OutputLength(n) && Sampled(m, q, n, f, out) && j < JOINTS
    ensures 0 <= Below(f) <= Above(f, n) < n && 0 <= MUJOCO_OF[j] < JOINTS
    ensures Between(out.joints[j], RawJoint(q, Below(f), MUJOCO_OF[j]), RawJoint(q, Above(f, n), MUJOCO_OF[j]))
  {
    hide Slerp;
    SourceFramesExist(n, f);
    Permutations();
    MixBetween(RawJoint(q, Below(f), MUJOCO_OF[j]), RawJoint(q, Above(f, n), MUJOCO_OF[j]), Share(f));
  }

  // The 50 Hz frames cover the source's n / 30 seconds, but for less than one frame.
  lemma DurationKept(n: nat)
    requires Accepted(n)
    ensures var count := OutputLength(n);
      count as real / 50.0 <= n as real / 30.0 < (count + 1) as real / 50.0 && 3 <= count <= 106
  {
    assert 3 * OutputLength(n) <= 5 * n < 3 * OutputLength(n) + 3;
  }

  // The value at source frame x, of a motion with value c at frame 0 and step s.
  function OnLine(c: real, s: real, x: real): real { c + s * x }

  lemma MixOnLine(c: real, s: real, x: real, w: real)
    ensures Mix(OnLine(c, s, x), OnLine(c, s, x + 1.0), w) == OnLine(c, s, x + w)
    ensures Mix(OnLine(c, s, x), OnLine(c, s, x), w) == OnLine(c, s, x)
  {
  }

  // The output's time in source frames, held at the last of them.
  function SourceTime(f: nat, n: nat): real {
    if 3 * f < 5 * (n - 1) then f as real * 3.0 / 5.0 else (n - 1) as real
  }

  lemma LineSampled(c: real, s: real, n: nat, f: nat)
    requires Accepted(n) && f < OutputLength(n)
    ensures Mix(OnLine(c, s, Below(f) as real), OnLine(c, s, Above(f, n) as real), Share(f)) ==
            OnLine(c, s, SourceTime(f, n))
  {
    hide Mix, OnLine;
    SourceFramesExist(n, f);
    MixOnLine(c, s, Below(f) as real, Share(f));
    if 3 * f < 5 * (n - 1) { assert Above(f, n) == Below(f) + 1; } else { assert Above(f, n) == Below(f) == n - 1; }
  }

  // A joint that moves at a constant rate is resampled exactly, and has 30 times
  // its step as velocity; so are the root's coordinates.
  lemma LinearJointKept(m: Math, q: Qpos, n: nat, f: nat, out: Frame, j: nat, c: real, s: real)
    requires Accepted(n) && f < OutputLength(n) && j < JOINTS && Sampled(m, q, n, f, out)
    requires 0 <= MUJOCO_OF[j] < JOINTS
    requires forall k :: 0 <= k < n ==> RawJoint(q, k, MUJOCO_OF[j]) == OnLine(c, s, k as real)
    ensures out.joints[j] == OnLine(c, s, SourceTime(f, n))
  {
    hide Slerp, Mix, OnLine;
    Permutations();
    SourceFramesExist(n, f);
    LineSampled(c, s, n, f);
  }

  lemma LinearMotionKept(m: Math, q: Qpos, n: nat, frames: seq<Frame>, f: nat, j: nat, c: real, s: real)
    requires Accepted(n) && |frames| == OutputLength(n) && f < |frames| && j < JOINTS
    requires Differentiated(frames) && forall i :: 0 <= i < |frames| ==> Sampled(m, q, n, i, frames[i])
    requires 0 <= MUJOCO_OF[j] < JOINTS
    requires forall k :: 0 <= k < n ==> RawJoint(q, k, MUJOCO_OF[j]) == OnLine(c, s, k as real)
    ensures frames[f].joints[j] == OnLine(c, s, SourceTime(f, n))
    ensures 3 * (f + 1) <= 5 * (n - 1) ==> frames[f].velocities[j] == 30.0 * s
    ensures frames[|frames| - 1].velocities[j] == frames[|frames| - 2].velocities[j]
  {
    hide OnLine, Sampled;
    LinearJointKept(m, q, n, f, frames[f], j, c, s);
    if 3 * (f + 1) <= 5 * (n - 1) {
      assert f + 1 < |frames| && LeadsOn(frames, f);
      LinearJointKept(m, q, n, f + 1, frames[f + 1], j, c, s);
      LineStep(c, s, SourceTime(f, n));
    }
  }

  lemma LineStep(c: real, s: real, x: real)
    ensures (OnLine(c, s, x + 0.6) - OnLine(c, s, x)) * 50.0 == 30.0 * s
  {
  }

  function PointOnLine(c: Vec3, s: Vec3, x: real): Vec3 {
    Vec3(OnLine(c.x, s.x, x), OnLine(c.y, s.y, x), OnLine(c.z, s.z, x))
  }

  lemma LinearPositionKept(m: Math, q: Qpos, n: nat, f: nat, out: Frame, c: Vec3, s: Vec3)
    requires Accepted(n) && f < OutputLength(n) && Sampled(m, q, n, f, out)
    requires forall k :: 0 <= k < n ==> RawPosition(q, k) == PointOnLine(c, s, k as real)
    ensures out.position == PointOnLine(c, s, SourceTime(f, n))
  {
    hide Slerp, Mix, OnLine;
    SourceFramesExist(n, f);
    LineSampled(c.x, s.x, n, f);
    LineSampled(c.y, s.y, n, f);
    LineSampled(c.z, s.z, n, f);
  }

  function Travel(frames: seq<Frame>, j: nat, f: nat): real
    requires f <= |frames| && j < JOINTS
  {
    if f == 0 then 0.0 else Travel(frames, j, f - 1) + frames[f - 1].velocities[j] / 50.0
  }

  // Integrating the velocities at 50 Hz gives back the joint differences.
  lemma {:induction false} VelocitiesTelescope(frames: seq<Frame>, j: nat, f: nat)
    requires 2 <= |frames| && Differentiated(frames) && j < JOINTS && f < |frames|
    ensures Travel(frames, j, f) == frames[f].joints[j] - frames[0].joints[j]
    decreases f
  {
    if f > 0 {
      VelocitiesTelescope(frames, j, f - 1);
      assert LeadsOn(frames, f - 1);
      assert frames[f - 1].velocities[j] == (frames[f].joints[j] - frames[f - 1].joints[j]) * 50.0;
    }
  }

  // ── the planner context ────────────────────────────────────────────────────

  function Scatter(v: Joints): Joints {
    Permutations();
    seq(JOINTS, i requires 0 <= i < JOINTS => v[ISAACLAB_OF[i]])
  }

  function ContextBelow(motion: seq<Frame>, gen: int, n: nat): nat
    requires 0 < |motion|
  {
    Clamp((3 * gen + 5 * n) / 3, 0, |motion| - 1)
  }

  function ContextAbove(motion: seq<Frame>, gen: int, n: nat): nat
    requires 0 < |motion|
  {
    if ContextBelow(motion, gen, n) + 1 < |motion| - 1 then ContextBelow(motion, gen, n) + 1 else |motion| - 1
  }

  function ContextShare(gen: int, n: nat): real { ((3 * gen + 5 * n) % 3) as real / 3.0 }

  function ContextEntry(m: Math, motion: seq<Frame>, gen: int, n: nat): (entry: seq<real>)
    requires 0 < |motion|
    ensures |entry| == QPOS_DIM
  {
    var a := motion[ContextBelow(motion, gen, n)];
    var b := motion[ContextAbove(motion, gen, n)];
    var w := ContextShare(gen, n);
    Root(MixVec(a.position, b.position, w), Slerp(m, a.quaternion, b.quaternion, w))
      + Scatter(MixJoints(a.joints, b.joints, w))
  }

  method ScatterInto(context: array<real>, at: nat, a: Joints, b: Joints, w1: real)
    requires at + JOINTS <= context.Length
    modifies context
    ensures context[..] == old(context[..at]) + Scatter(MixJoints(a, b, w1)) + old(context[at + JOINTS..])
  {
    Permutations();
    ghost var want := Scatter(MixJoints(a, b, w1));
    for j := 0 to JOINTS
      invariant forall i :: 0 <= i < at ==> context[i] == old(context[i])
      invariant forall i :: at + JOINTS <= i < context.Length ==> context[i] == old(context[i])
      invariant forall i :: 0 <= i < JOINTS && ISAACLAB_OF[i] < j ==> context[at + i] == want[i]
    {
      context[at + MUJOCO_OF[j]] := Mix(a[j], b[j], w1);
      assert want[MUJOCO_OF[j]] == Mix(a[j], b[j], w1);
      assert forall i :: 0 <= i < JOINTS && ISAACLAB_OF[i] == j ==> i == MUJOCO_OF[j];
    }
    assert context[..at] == old(context[..at]);
    assert context[at..at + JOINTS] == want;
    assert context[at + JOINTS..] == old(context[at + JOINTS..]);
    assert context[..] == context[..at] + context[at..at + JOINTS] + context[at + JOINTS..];
  }

  function Entries(m: Math, motion: seq<Frame>, gen: int, n: nat): (r: seq<real>)
    requires 0 < |motion|
    ensures |r| == n * QPOS_DIM
  {
    if n == 0 then [] else Entries(m, motion, gen, n - 1) + ContextEntry(m, motion, gen, n - 1)
  }

  function Root(p: Vec3, q: Quat): seq<real> { [p.x, p.y, p.z, q.w, q.x, q.y, q.z] }

  method WriteRoot(context: array<real>, at: nat, p: Vec3, q: Quat)
    requires at + 7 <= context.Length
    modifies context
    ensures context[..at + 7] == old(context[..at]) + Root(p, q)
  {
    context[at], context[at + 1], context[at + 2] := p.x, p.y, p.z;
    context[at + 3], context[at + 4], context[at + 5], context[at + 6] := q.w, q.x, q.y, q.z;
    assert context[..at] == old(context[..at]);
    assert context[at..at + 7] == Root(p, q);
    assert context[..at + 7] == context[..at] + context[at..at + 7];
  }

  method WriteEntry(m: Math, context: array<real>, motion: seq<Frame>, gen: int, n: nat)
    requires 0 < |motion| && (n + 1) * QPOS_DIM <= context.Length
    modifies context
    ensures context[..(n + 1) * QPOS_DIM] == old(context[..n * QPOS_DIM]) + ContextEntry(m, motion, gen, n)
  {
    hide Slerp, Root, MixVec, MixJoints, Scatter;
    var at := n * QPOS_DIM;
    var f0 := Clamp((3 * gen + 5 * n) / 3, 0, |motion| - 1);
    var f1 := if f0 + 1 < |motion| - 1 then f0 + 1 else |motion| - 1;
    var w1 := ((3 * gen + 5 * n) % 3) as real / 3.0;
    var a, b := motion[f0], motion[f1];
    WriteRoot(context, at, MixVec(a.position, b.position, w1), Slerp(m, a.quaternion, b.quaternion, w1));
    ghost var written := context[..at + 7];
    ScatterInto(context, at + 7, a.joints, b.joints, w1);
    assert context[..(n + 1) * QPOS_DIM] == written + Scatter(MixJoints(a.joints, b.joints, w1));
  }

  method UpdateContext(m: Math, context: array<real>, motion: seq<Frame>, gen: int)
    requires 0 < |motion| && context.Length == CONTEXT_FRAMES * QPOS_DIM
    modifies context
    ensures context[..] == Entries(m, motion, gen, CONTEXT_FRAMES)
  {
    hide ContextEntry;
    for n := 0 to CONTEXT_FRAMES
      invariant context[..n * QPOS_DIM] == Entries(m, motion, gen, n)
    {
      WriteEntry(m, context, motion, gen, n);
    }
  }

  function RawEntry(q: Qpos, k: nat): seq<real>
    requires k < MAX_FRAMES
  {
    q[k * QPOS_DIM..(k + 1) * QPOS_DIM]
  }

  // All but the root rotation of a context entry.
  function Unrotated(entry: seq<real>): seq<real>
    requires |entry| == QPOS_DIM
  {
    entry[..3] + entry[7..]
  }

  // A frame that shows source frame k, written out, is that source frame.
  lemma FrameBackToRaw(q: Qpos, k: nat, out: Frame, rotation: Quat)
    requires k < MAX_FRAMES && out.position == RawPosition(q, k)
    requires forall j :: 0 <= j < JOINTS ==> 0 <= MUJOCO_OF[j] < JOINTS && out.joints[j] == RawJoint(q, k, MUJOCO_OF[j])
    ensures Unrotated(Root(out.position, rotation) + Scatter(out.joints)) == Unrotated(RawEntry(q, k))
    ensures Root(out.position, rotation) + Scatter(out.joints) == RawEntry(q, k) <==> rotation == RawQuat(q, k)
  {
    Permutations();
    var raw := RawEntry(q, k);
    forall i | 0 <= i < JOINTS ensures Scatter(out.joints)[i] == raw[7 + i] {
      assert MUJOCO_OF[ISAACLAB_OF[i]] == i;
    }
    assert Scatter(out.joints) == raw[7..];
    hide Scatter;
    var entry := Root(out.position, rotation) + Scatter(out.joints);
    assert entry[..3] == raw[..3] && entry[7..] == raw[7..];
    assert entry[3] == rotation.w && entry[4] == rotation.x && entry[5] == rotation.y && entry[6] == rotation.z;
    if rotation == RawQuat(q, k) {
      assert raw[..7] == Root(out.position, rotation);
      assert raw == raw[..7] + raw[7..];
    }
  }

  // An entry that falls on frame f shows it, its rotation once more through slerp.
  lemma WholeFrameEntry(m: Math, motion: seq<Frame>, gen: int, n: nat, f: nat)
    requires f < |motion| && n % 3 == 0 && gen + 5 * (n / 3) == f
    ensures var next := motion[NextFrame(motion, f)];
      ContextEntry(m, motion, gen, n) ==
        Root(motion[f].position, Slerp(m, motion[f].quaternion, next.quaternion, 0.0)) + Scatter(motion[f].joints)
  {
    hide Slerp, Scatter;
    assert ContextBelow(motion, gen, n) == f && ContextShare(gen, n) == 0.0;
    assert MixJoints(motion[f].joints, motion[NextFrame(motion, f)].joints, 0.0) == motion[f].joints;
  }

  // The frame after f, or the last.
  function NextFrame(motion: seq<Frame>, f: nat): nat
    requires f < |motion|
  {
    if f + 1 < |motion| then f + 1 else f
  }

  // Both samplings, to 50 Hz and back, keep the root rotation of source frame 3k.
  predicate RotationKept(q: Qpos, n: nat, frames: seq<Frame>, k: nat)
    requires Accepted(n) && 3 * k < n && 5 * k < |frames|
  {
    && StartKept(RawQuat(q, 3 * k), RawQuat(q, if 3 * k + 1 < n then 3 * k + 1 else 3 * k))
    && StartKept(RawQuat(q, 3 * k), frames[NextFrame(frames, 5 * k)].quaternion)
  }

  lemma EntryGivesBackSource(m: Math, q: Qpos, n: nat, frames: seq<Frame>, gen: int, e: nat, k: nat)
    requires m.Laws() && Accepted(n) && |frames| == OutputLength(n) && 5 * k < |frames|
    requires Sampled(m, q, n, 5 * k, frames[5 * k]) && e % 3 == 0 && gen + 5 * (e / 3) == 5 * k
    ensures 3 * k < n
    ensures Unrotated(ContextEntry(m, frames, gen, e)) == Unrotated(RawEntry(q, 3 * k))
    ensures ContextEntry(m, frames, gen, e) == RawEntry(q, 3 * k) <==> RotationKept(q, n, frames, k)
  {
    hide m.Laws, ContextEntry, RawEntry, Unrotated, Scatter, Slerp, StartKept;
    GridPoint(m, q, n, k, frames[5 * k]);
    var raw, above := RawQuat(q, 3 * k), RawQuat(q, Above(5 * k, n));
    var next := frames[NextFrame(frames, 5 * k)].quaternion;
    assert frames[5 * k].quaternion == Slerp(m, raw, above, 0.0);
    SlerpStartTwice(m, raw, above, next);
    WholeFrameEntry(m, frames, gen, e, 5 * k);
    FrameBackToRaw(q, 3 * k, frames[5 * k], Slerp(m, frames[5 * k].quaternion, next, 0.0));
  }

  // The round trip: context sampled at output frame 5k of a fresh sequence gives
  // back source frames 3k and 3k + 3 as its entries 0 and 3, in MuJoCo order, all
  // but the root rotation always, and that exactly when both samplings keep it.
  lemma ContextGivesBackSource(m: Math, q: Qpos, n: nat, frames: seq<Frame>, k: nat)
    requires m.Laws() && Accepted(n) && |frames| == OutputLength(n) && 5 * k + 5 < |frames|
    requires forall f :: 0 <= f < |frames| ==> Sampled(m, q, n, f, frames[f])
    ensures 3 * k + 3 < n
    ensures Unrotated(ContextEntry(m, frames, 5 * k, 0)) == Unrotated(RawEntry(q, 3 * k))
    ensures Unrotated(ContextEntry(m, frames, 5 * k, 3)) == Unrotated(RawEntry(q, 3 * k + 3))
    ensures ContextEntry(m, frames, 5 * k, 0) == RawEntry(q, 3 * k) <==> RotationKept(q, n, frames, k)
    ensures ContextEntry(m, frames, 5 * k, 3) == RawEntry(q, 3 * k + 3) <==> RotationKept(q, n, frames, k + 1)
  {
    hide m.Laws, ContextEntry, RawEntry, Unrotated, Scatter, Sampled, RotationKept;
    assert Sampled(m, q, n, 5 * k, frames[5 * k]) && Sampled(m, q, n, 5 * (k + 1), frames[5 * (k + 1)]);
    EntryGivesBackSource(m, q, n, frames, 5 * k, 0, k);
    EntryGivesBackSource(m, q, n, frames, 5 * k, 3, k + 1);
  }

  // Context entry n lies 5n/3 frames past gen, held at the last frame.
  lemma ContextFramesExist(motion: seq<Frame>, gen: nat, n: nat)
    requires 0 < |motion|
    ensures 0 <= ContextBelow(motion, gen, n) <= ContextAbove(motion, gen, n) < |motion|
    ensures var due := gen as real + 5.0 * n as real / 3.0; var last := (|motion| - 1) as real;
      && (due < last ==>
            && ContextBelow(motion, gen, n) as real + ContextShare(gen, n) == due
            && ContextAbove(motion, gen, n) == ContextBelow(motion, gen, n) + 1)
      && (last <= due ==> ContextBelow(motion, gen, n) == ContextAbove(motion, gen, n) == |motion| - 1)
      && 0.0 <= ContextShare(gen, n) < 1.0
  {
    var x := 3 * gen + 5 * n;
    assert x == 3 * (x / 3) + x % 3;
    assert gen as real + 5.0 * n as real / 3.0 == (x / 3) as real + (x % 3) as real / 3.0;
  }

  // Context taken from a joint that moves at a constant rate is exact, in MuJoCo order.
  lemma LinearMotionInContext(m: Math, motion: seq<Frame>, gen: nat, n: nat, j: nat, c: real, s: real)
    requires 0 < |motion| && j < JOINTS
    requires forall f :: 0 <= f < |motion| ==> motion[f].joints[j] == OnLine(c, s, f as real)
    ensures 0 <= MUJOCO_OF[j] < JOINTS
    ensures var due := gen as real + 5.0 * n as real / 3.0; var last := (|motion| - 1) as real;
      ContextEntry(m, motion, gen, n)[7 + MUJOCO_OF[j]] == OnLine(c, s, if due < last then due else last)
  {
    hide Slerp, Mix, OnLine;
    Permutations();
    ContextFramesExist(motion, gen, n);
    var below, above, w := ContextBelow(motion, gen, n), ContextAbove(motion, gen, n), ContextShare(gen, n);
    MixOnLine(c, s, below as real, w);
    var mixed := MixJoints(motion[below].joints, motion[above].joints, w);
    assert ContextEntry(m, motion, gen, n)[7 + MUJOCO_OF[j]] == Scatter(mixed)[MUJOCO_OF[j]] == mixed[j];
  }

  lemma LinearPositionInContext(m: Math, motion: seq<Frame>, gen: nat, n: nat, c: Vec3, s: Vec3)
    requires 0 < |motion| && forall f :: 0 <= f < |motion| ==> motion[f].position == PointOnLine(c, s, f as real)
    ensures var due := gen as real + 5.0 * n as real / 3.0; var last := (|motion| - 1) as real;
      var at, entry := PointOnLine(c, s, if due < last then due else last), ContextEntry(m, motion, gen, n);
      entry[0] == at.x && entry[1] == at.y && entry[2] == at.z
  {
    hide Slerp, Mix, OnLine, Scatter;
    ContextFramesExist(motion, gen, n);
    var below, w := ContextBelow(motion, gen, n), ContextShare(gen, n);
    MixOnLine(c.x, s.x, below as real, w);
    MixOnLine(c.y, s.y, below as real, w);
    MixOnLine(c.z, s.z, below as real, w);
  }

  // Positions lie between those of the two neighbouring source frames, axis by axis.
  lemma PositionsInHull(m: Math, q: Qpos, n: nat, f: nat, out: Frame)
    requires Accepted(n) && f < OutputLength(n) && Sampled(m, q, n, f, out)
    ensures 0 <= Below(f) <= Above(f, n) < n
    ensures var a := RawPosition(q, Below(f)); var b := RawPosition(q, Above(f, n));
      Between(out.position.x, a.x, b.x) && Between(out.position.y, a.y, b.y) && Between(out.position.z, a.z, b.z)
  {
    hide Slerp;
    SourceFramesExist(n, f);
    var a, b := RawPosition(q, Below(f)), RawPosition(q, Above(f, n));
    MixBetween(a.x, b.x, Share(f));
    MixBetween(a.y, b.y, Share(f));
    MixBetween(a.z, b.z, Share(f));
  }
}
