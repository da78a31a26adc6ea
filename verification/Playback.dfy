// The playback timeline of WholeBodyController (advance_playback in
// src/control/whole_body_controller.cpp; MotionSequence50Hz in
// include/planner/motion_sequence_50hz.hpp).
module Playback {
  import opened Geometry
  import opened JointOrder
  import opened Optional

  const CAPACITY := 1500
  const BLEND_FRAMES := 8

  datatype Frame = Frame(position: Vec3, quaternion: Quat, joints: Joints, velocities: Joints)

  // A published motion: genFrame is the frame of the consumer's timeline it was
  // generated at, stamp its publication time (0 is the empty time point).
  datatype Plan = Plan(frames: seq<Frame>, genFrame: int, stamp: nat)

  // The planner publishes from 2 to 106 frames, never more than the capacity.
  predicate Published(p: Plan) { 2 <= |p.frames| <= CAPACITY && 0 < p.stamp }

  // The tracked timeline; origin is the absolute tick of its frame 0.
  datatype Timeline = Timeline(frames: seq<Frame>, cursor: int, playing: bool, stamp: nat, origin: int)

  predicate ValidTimeline(tl: Timeline) {
    && |tl.frames| <= CAPACITY
    && (tl.playing <==> 0 < |tl.frames|)
    && (0 < |tl.frames| ==> 0 <= tl.cursor < |tl.frames|)
  }

  function MixVec(a: Vec3, b: Vec3, w: real): Vec3 {
    Vec3(Mix(a.x, b.x, w), Mix(a.y, b.y, w), Mix(a.z, b.z, w))
  }

  function MixJoints(a: Joints, b: Joints, w: real): Joints {
    seq(JOINTS, j requires 0 <= j < JOINTS => Mix(a[j], b[j], w))
  }

  function MixFrames(m: Math, a: Frame, b: Frame, w: real): Frame {
    Frame(MixVec(a.position, b.position, w), Slerp(m, a.quaternion, b.quaternion, w),
          MixJoints(a.joints, b.joints, w), MixJoints(a.velocities, b.velocities, w))
  }

  // Frames left when p is blended into tl at the cursor.
  function Overlap(tl: Timeline, p: Plan): int { p.genFrame - tl.cursor + |p.frames| }

  function BlendLength(tl: Timeline, p: Plan): int {
    if Overlap(tl, p) < CAPACITY then Overlap(tl, p) else CAPACITY
  }

  function BlendStart(tl: Timeline, p: Plan): nat {
    if p.genFrame - tl.cursor > 0 then p.genFrame - tl.cursor else 0
  }

  function Weight(f: int, start: int): real { Clamp01((f - start) as real / BLEND_FRAMES as real) }

  function BlendFrame(m: Math, tl: Timeline, p: Plan, f: nat): Frame
    requires 0 < |tl.frames| && 0 < |p.frames|
  {
    MixFrames(m, tl.frames[Clamp(f + tl.cursor, 0, |tl.frames| - 1)],
              p.frames[Clamp(f + tl.cursor - p.genFrame, 0, |p.frames| - 1)],
              Weight(f, BlendStart(tl, p)))
  }

  function Blend(m: Math, tl: Timeline, p: Plan): seq<Frame>
    requires 0 < |tl.frames| && 0 < |p.frames| && 0 < Overlap(tl, p)
  {
    seq(BlendLength(tl, p), f requires 0 <= f => BlendFrame(m, tl, p, f))
  }

  // What a new stamp does to the timeline.
  function Adopt(m: Math, tl: Timeline, plan: Option<Plan>): Timeline
    requires plan.Some? ==> Published(plan.value)
  {
    if plan.None? || plan.value.stamp == tl.stamp then tl
    else
      var p := plan.value;
      if |tl.frames| == 0 then Timeline(p.frames, 0, true, p.stamp, tl.origin + tl.cursor)
      else if 0 < Overlap(tl, p) then Timeline(Blend(m, tl, p), 0, tl.playing, p.stamp, tl.origin + tl.cursor)
      else tl.(stamp := p.stamp)
  }

  function Advance(tl: Timeline): Timeline {
    if tl.playing && 0 < |tl.frames| then
      tl.(cursor := if tl.cursor + 1 < |tl.frames| - 1 then tl.cursor + 1 else |tl.frames| - 1)
    else tl
  }

  function Tick(m: Math, tl: Timeline, plan: Option<Plan>): Timeline
    requires plan.Some? ==> Published(plan.value)
  {
    Advance(Adopt(m, tl, plan))
  }

  // ── the method ─────────────────────────────────────────────────────────────

  class Player {
    var motion: seq<Frame>
    var cursor: int
    var playing: bool
    var lastStamp: nat
    ghost var origin: int

    ghost function View(): Timeline
      reads this
    {
      Timeline(motion, cursor, playing, lastStamp, origin)
    }

    ghost predicate Valid()
      reads this
    {
      ValidTimeline(View())
    }

    constructor ()
      ensures Valid() && View() == Timeline([], 0, false, 0, 0)
    {
      motion, cursor, playing, lastStamp, origin := [], 0, false, 0, 0;
    }

    // The reset of both recovery paths.
    method Clear()
      modifies this
      ensures Valid() && View() == Timeline([], 0, false, 0, old(origin + cursor))
    {
      origin := origin + cursor;
      motion, cursor, playing, lastStamp := [], 0, false, 0;
    }

    method AdvancePlayback(m: Math, plan: Option<Plan>)
      requires Valid() && (plan.Some? ==> Published(plan.value))
      modifies this
      ensures Valid() && View() == Tick(m, old(View()), plan)
    {
      hide MixFrames, Slerp;
      if plan.Some? && plan.value.stamp != lastStamp {
        var gen := plan.value;
        lastStamp := gen.stamp;
        if |motion| == 0 {
          motion := gen.frames;
          origin := origin + cursor;
          cursor := 0;
          playing := true;
        } else {
          var newLen := gen.genFrame - cursor + |gen.frames|;
          if newLen > 0 {
            if newLen > CAPACITY { newLen := CAPACITY; }
            var blendStart := if gen.genFrame - cursor > 0 then gen.genFrame - cursor else 0;
            var out: seq<Frame> := [];
            var f: nat := 0;
            while f < newLen
              invariant 0 <= f <= newLen && |out| == f
              invariant forall i :: 0 <= i < f ==> out[i] == BlendFrame(m, old(View()), gen, i)
            {
              var fOld := Clamp(f + cursor, 0, |motion| - 1);
              var fNew := Clamp(f + cursor - gen.genFrame, 0, |gen.frames| - 1);
              var w := Clamp01((f - blendStart) as real / BLEND_FRAMES as real);
              out := out + [MixFrames(m, motion[fOld], gen.frames[fNew], w)];
              f := f + 1;
            }
            assert out == Blend(m, old(View()), gen);
            motion := out;
            origin := origin + cursor;
            cursor := 0;
          }
        }
      }
      if playing && |motion| > 0 {
        cursor := if cursor + 1 < |motion| - 1 then cursor + 1 else |motion| - 1;
      }
    }
  }

  // ── every adoption is an aligned crossfade ─────────────────────────────────

  // What a sequence shows at absolute tick t, holding its ends.
  function Held(frames: seq<Frame>, origin: int, t: int): Frame
    requires 0 < |frames|
  {
    frames[Clamp(t - origin, 0, |frames| - 1)]
  }

  function Now(tl: Timeline): int { tl.origin + tl.cursor }

  function UpToSign(a: Frame, b: Frame): bool {
    a == b || a == b.(quaternion := b.quaternion.Neg())
  }

  // v is k eighths of the way from a to b.
  predicate Eighth(v: real, a: real, b: real, k: int) {
    8.0 * v == (8 - k) as real * a + k as real * b
  }

  predicate Eighths(v: Joints, a: Joints, b: Joints, k: int) {
    forall j :: 0 <= j < JOINTS ==> Eighth(v[j], a[j], b[j], k)
  }

  predicate EighthsVec(v: Vec3, a: Vec3, b: Vec3, k: int) {
    Eighth(v.x, a.x, b.x, k) && Eighth(v.y, a.y, b.y, k) && Eighth(v.z, a.z, b.z, k)
  }

  lemma MixEnds(m: Math, a: Frame, b: Frame)
    requires m.Laws()
    ensures MixFrames(m, a, b, 0.0) == a <==> StartKept(a.quaternion, b.quaternion)
    ensures UpToSign(MixFrames(m, a, b, 1.0), b) <==> EndKept(a.quaternion, b.quaternion)
  {
    hide Slerp, m.Laws, StartKept, EndKept;
    assert MixJoints(a.joints, b.joints, 0.0) == a.joints;
    assert MixJoints(a.velocities, b.velocities, 0.0) == a.velocities;
    assert MixJoints(a.joints, b.joints, 1.0) == b.joints;
    assert MixJoints(a.velocities, b.velocities, 1.0) == b.velocities;
    SlerpStart(m, a.quaternion, b.quaternion);
    SlerpEnd(m, a.quaternion, b.quaternion);
  }

  lemma MixEighth(a: real, b: real, k: int)
    requires 0 <= k <= BLEND_FRAMES
    ensures Eighth(Mix(a, b, Weight(k, 0)), a, b, k)
  {
    var w := Weight(k, 0);
    assert w == k as real / 8.0;
    assert 8.0 * Mix(a, b, w) == (8.0 - 8.0 * w) * a + (8.0 * w) * b;
    assert 8.0 * w == k as real;
  }

  lemma MixMovesOver(m: Math, a: Frame, b: Frame, k: int)
    requires 0 <= k <= BLEND_FRAMES
    ensures var out := MixFrames(m, a, b, Weight(k, 0));
      && Eighths(out.joints, a.joints, b.joints, k) && Eighths(out.velocities, a.velocities, b.velocities, k)
      && EighthsVec(out.position, a.position, b.position, k)
  {
    hide Slerp, Eighth, Mix, Weight;
    var w := Weight(k, 0);
    forall j | 0 <= j < JOINTS
      ensures Eighth(Mix(a.joints[j], b.joints[j], w), a.joints[j], b.joints[j], k)
      ensures Eighth(Mix(a.velocities[j], b.velocities[j], w), a.velocities[j], b.velocities[j], k)
    {
      MixEighth(a.joints[j], b.joints[j], k);
      MixEighth(a.velocities[j], b.velocities[j], k);
    }
    MixEighth(a.position.x, b.position.x, k);
    MixEighth(a.position.y, b.position.y, k);
    MixEighth(a.position.z, b.position.z, k);
  }

  // What blending p into tl shows at absolute tick t is read at t in both.
  lemma BlendReadsAlike(m: Math, tl: Timeline, p: Plan, t: int)
    requires ValidTimeline(tl) && 0 < |tl.frames| && Published(p) && 0 < Overlap(tl, p)
    requires Now(tl) <= t < Now(tl) + BlendLength(tl, p)
    ensures Held(Blend(m, tl, p), Now(tl), t) ==
            MixFrames(m, Held(tl.frames, tl.origin, t), Held(p.frames, PlacedAt(tl, p), t),
                      Weight(t - Now(tl), BlendStart(tl, p)))
  {
    hide MixFrames, Weight;
  }

  // The absolute tick of p's first frame when it is blended into tl.
  function PlacedAt(tl: Timeline, p: Plan): int { tl.origin + p.genFrame }

  // Both sources are read at the same absolute tick: the old timeline up to the
  // blend point, the new plan from 8 frames later on, and between them all but
  // the rotation moves over in eighths.
  lemma BlendIsAligned(m: Math, tl: Timeline, p: Plan, t: int)
    requires m.Laws() && ValidTimeline(tl) && 0 < |tl.frames| && Published(p) && 0 < Overlap(tl, p)
    requires Now(tl) <= t < Now(tl) + BlendLength(tl, p)
    ensures var out := Held(Blend(m, tl, p), Now(tl), t);
      var before := Held(tl.frames, tl.origin, t);
      var after := Held(p.frames, PlacedAt(tl, p), t);
      var start := if Now(tl) < PlacedAt(tl, p) then PlacedAt(tl, p) else Now(tl);
      && (t <= start ==> (out == before <==> StartKept(before.quaternion, after.quaternion)))
      && (start + BLEND_FRAMES <= t ==> (UpToSign(out, after) <==> EndKept(before.quaternion, after.quaternion)))
      && (start <= t <= start + BLEND_FRAMES ==>
            && Eighths(out.joints, before.joints, after.joints, t - start)
            && Eighths(out.velocities, before.velocities, after.velocities, t - start)
            && EighthsVec(out.position, before.position, after.position, t - start))
  {
    BlendReadsAlike(m, tl, p, t);
    hide m.Laws, StartKept, EndKept, MixFrames, UpToSign, Blend, Held, Eighths, EighthsVec;
    var f, start := t - Now(tl), BlendStart(tl, p);
    var before := Held(tl.frames, tl.origin, t);
    var after := Held(p.frames, PlacedAt(tl, p), t);
    MixEnds(m, before, after);
    if start <= f <= start + BLEND_FRAMES {
      assert Weight(f, start) == Weight(f - start, 0);
      MixMovesOver(m, before, after, f - start);
    }
  }

  // ── whole runs ─────────────────────────────────────────────────────────────

  datatype Input = Cleared | Ticked(plan: Option<Plan>)

  // Every motion on offer is a published one.
  predicate Offered(inputs: seq<Input>) {
    forall i :: 0 <= i < |inputs| && inputs[i].Ticked? && inputs[i].plan.Some? ==> Published(inputs[i].plan.value)
  }

  predicate AllUnit(frames: seq<Frame>) { forall i :: 0 <= i < |frames| ==> frames[i].quaternion.Unit() }

  // Every one has unit quaternions.
  predicate UnitOffered(inputs: seq<Input>) {
    forall i :: 0 <= i < |inputs| && inputs[i].Ticked? && inputs[i].plan.Some? ==> AllUnit(inputs[i].plan.value.frames)
  }

  function RunTicks(m: Math, inputs: seq<Input>): Timeline
    requires Offered(inputs)
  {
    if |inputs| == 0 then Timeline([], 0, false, 0, 0)
    else
      var tl := RunTicks(m, inputs[..|inputs| - 1]);
      match inputs[|inputs| - 1]
      case Cleared => Timeline([], 0, false, 0, Now(tl))
      case Ticked(plan) => Tick(m, tl, plan)
  }

  lemma BlendIsUnit(m: Math, tl: Timeline, p: Plan)
    requires m.Laws() && 0 < |tl.frames| && 0 < |p.frames| && 0 < Overlap(tl, p)
    requires AllUnit(tl.frames) && AllUnit(p.frames)
    ensures AllUnit(Blend(m, tl, p))
  {
    hide Slerp, m.Laws, Quat.Unit;
    var out := Blend(m, tl, p);
    forall f | 0 <= f < |out| ensures out[f].quaternion.Unit() {
      SlerpIsUnit(m, tl.frames[Clamp(f + tl.cursor, 0, |tl.frames| - 1)].quaternion,
                  p.frames[Clamp(f + tl.cursor - p.genFrame, 0, |p.frames| - 1)].quaternion,
                  Weight(f, BlendStart(tl, p)));
    }
  }

  // Cursor and length stay in bounds.
  lemma {:induction false} RunStaysValid(m: Math, inputs: seq<Input>)
    requires Offered(inputs)
    ensures ValidTimeline(RunTicks(m, inputs))
    ensures |RunTicks(m, inputs).frames| == 0 ==> RunTicks(m, inputs).cursor == 0 && RunTicks(m, inputs).stamp == 0
    decreases |inputs|
  {
    hide BlendFrame;
    if |inputs| > 0 { RunStaysValid(m, inputs[..|inputs| - 1]); }
  }

  // Unit quaternions in, unit quaternions tracked.
  lemma {:induction false} RunStaysUnit(m: Math, inputs: seq<Input>)
    requires m.Laws() && Offered(inputs) && UnitOffered(inputs)
    ensures AllUnit(RunTicks(m, inputs).frames)
    decreases |inputs|
  {
    hide m.Laws, BlendFrame, Quat.Unit;
    if |inputs| > 0 {
      RunStaysUnit(m, inputs[..|inputs| - 1]);
      var tl := RunTicks(m, inputs[..|inputs| - 1]);
      match inputs[|inputs| - 1] {
        case Cleared =>
        case Ticked(plan) =>
          if plan.Some? && 0 < |tl.frames| && 0 < Overlap(tl, plan.value) { BlendIsUnit(m, tl, plan.value); }
      }
    }
  }

  // plan is blended into tl, which shows something already.
  predicate Blends(tl: Timeline, plan: Option<Plan>) {
    0 < |tl.frames| && plan.Some? && plan.value.stamp != tl.stamp && 0 < Overlap(tl, plan.value)
  }

  // After any run an adoption onto a timeline shows the frame that was due at
  // the cursor, whatever the plan and its genFrame; its rotation exactly when
  // slerp keeps it, which it does when only unit quaternions were offered.
  lemma AdoptionDoesNotJump(m: Math, inputs: seq<Input>, plan: Option<Plan>)
    requires m.Laws() && Offered(inputs) && (plan.Some? ==> Published(plan.value))
    ensures var tl := RunTicks(m, inputs);
      0 < |tl.frames| ==>
        var next := Adopt(m, tl, plan);
        && 0 <= tl.cursor < |tl.frames| && 0 <= next.cursor < |next.frames| && Now(next) == Now(tl)
        && var due, shown := tl.frames[tl.cursor], next.frames[next.cursor];
          && shown == due.(quaternion := shown.quaternion)
          && (shown == due <==>
                !Blends(tl, plan) ||
                StartKept(due.quaternion, Held(plan.value.frames, PlacedAt(tl, plan.value), Now(tl)).quaternion))
          && (UnitOffered(inputs) ==> shown == due)
  {
    RunStaysValid(m, inputs);
    if UnitOffered(inputs) { RunStaysUnit(m, inputs); }
    hide m.Laws, RunTicks, BlendFrame, Quat.Dot;
    var tl := RunTicks(m, inputs);
    if Blends(tl, plan) { BlendStartsThere(m, tl, plan.value); }
  }

  lemma BlendStartsThere(m: Math, tl: Timeline, p: Plan)
    requires m.Laws() && ValidTimeline(tl) && 0 < |tl.frames| && Published(p) && 0 < Overlap(tl, p)
    ensures var due, shown := tl.frames[tl.cursor], Blend(m, tl, p)[0];
      && shown == due.(quaternion := shown.quaternion)
      && (shown == due <==> StartKept(due.quaternion, Held(p.frames, PlacedAt(tl, p), Now(tl)).quaternion))
  {
    BlendReadsAlike(m, tl, p, Now(tl));
    var due, after := tl.frames[tl.cursor], Held(p.frames, PlacedAt(tl, p), Now(tl));
    assert Weight(0, BlendStart(tl, p)) == 0.0;
    assert Blend(m, tl, p)[0] == MixFrames(m, due, after, 0.0);
    hide m.Laws, Blend, Held, Slerp, StartKept, EndKept;
    MixEnds(m, due, after);
    assert MixJoints(due.joints, after.joints, 0.0) == due.joints;
    assert MixJoints(due.velocities, after.velocities, 0.0) == due.velocities;
  }

  // A tick moves one frame on in absolute time, or holds the last frame.
  lemma TickAdvancesTime(m: Math, tl: Timeline, plan: Option<Plan>)
    requires ValidTimeline(tl) && 0 < |tl.frames| && (plan.Some? ==> Published(plan.value))
    ensures var next := Tick(m, tl, plan);
      && ValidTimeline(next)
      && (Now(next) == Now(tl) + 1 || (Now(next) == Now(tl) && next.cursor == |next.frames| - 1))
  {
  }

  // ── what is adopted ────────────────────────────────────────────────────────

  // A first adoption shows the whole plan from now on.
  lemma FirstAdoptionShowsPlan(m: Math, inputs: seq<Input>, p: Plan)
    requires Offered(inputs) && Published(p) && |RunTicks(m, inputs).frames| == 0
    ensures var tl := RunTicks(m, inputs); var next := Adopt(m, tl, Some(p));
      && |next.frames| == |p.frames| && next.playing && Now(next) == Now(tl)
      && forall t :: Now(tl) <= t ==> Held(next.frames, next.origin, t) == Held(p.frames, Now(tl), t)
  {
    RunStaysValid(m, inputs);
  }

  function Repeated(plan: Plan, n: nat): (r: seq<Input>)
    ensures |r| == n
  {
    seq(n, _ => Ticked(Some(plan)))
  }

  lemma RepeatedIsOffered(inputs: seq<Input>, p: Plan, n: nat)
    requires Offered(inputs) && Published(p)
    ensures Offered(inputs + Repeated(p, n))
  {
    var all := inputs + Repeated(p, n);
    forall i | 0 <= i < |all| && all[i].Ticked? && all[i].plan.Some? ensures Published(all[i].plan.value) {
      if |inputs| <= i { assert all[i] == Repeated(p, n)[i - |inputs|]; }
    }
  }

  lemma OneMoreTick(m: Math, inputs: seq<Input>, p: Plan, n: nat)
    requires 0 < n && Published(p) && Offered(inputs + Repeated(p, n)) && Offered(inputs + Repeated(p, n - 1))
    ensures RunTicks(m, inputs + Repeated(p, n)) == Tick(m, RunTicks(m, inputs + Repeated(p, n - 1)), Some(p))
    ensures inputs + Repeated(p, 0) == inputs
  {
    hide Tick, Offered;
    var all := inputs + Repeated(p, n);
    assert all[..|all| - 1] == inputs + Repeated(p, n - 1);
  }

  // From no timeline on, while p stays in the buffer: tick n shows p's frame n, or
  // its last one.
  lemma {:induction false} FirstAdoptionPlays(m: Math, inputs: seq<Input>, p: Plan, n: nat)
    requires Offered(inputs) && Published(p) && |RunTicks(m, inputs).frames| == 0 && 0 < n
    ensures Offered(inputs + Repeated(p, n))
    ensures var tl, k := RunTicks(m, inputs + Repeated(p, n)), if n < |p.frames| then n else |p.frames| - 1;
      && tl.frames == p.frames && tl.cursor == k && tl.stamp == p.stamp && tl.playing
      && Now(tl) == Now(RunTicks(m, inputs)) + k
  {
    hide Repeated, Offered, RunTicks;
    RepeatedIsOffered(inputs, p, n);
    RepeatedIsOffered(inputs, p, n - 1);
    OneMoreTick(m, inputs, p, n);
    if n == 1 { RunStaysValid(m, inputs); } else { FirstAdoptionPlays(m, inputs, p, n - 1); }
  }

  // A new plan wholly in the past changes nothing but the stamp; any other one
  // gives a timeline from now to the end of the plan, at most 1500 frames.
  lemma AdoptionCovers(m: Math, tl: Timeline, p: Plan)
    requires ValidTimeline(tl) && 0 < |tl.frames| && Published(p) && p.stamp != tl.stamp
    ensures var next, end := Adopt(m, tl, Some(p)), PlacedAt(tl, p) + |p.frames|;
      if end <= Now(tl) then next == tl.(stamp := p.stamp)
      else
        && next.origin == Now(next) == Now(tl) && next.playing && next.stamp == p.stamp
        && next.origin + |next.frames| == if end < Now(tl) + 1500 then end else Now(tl) + 1500
  {
    hide BlendFrame;
  }

  // A plan is adopted once.
  lemma AdoptedOnce(m: Math, tl: Timeline, p: Plan)
    requires ValidTimeline(tl) && Published(p)
    ensures Adopt(m, Adopt(m, tl, Some(p)), Some(p)) == Adopt(m, tl, Some(p))
  {
    hide Blend;
  }

  // ── a plan made for an earlier timeline ────────────────────────────────────

  // The timeline is replaced: cleared, adopted or blended.
  predicate Replaces(tl: Timeline, input: Input) {
    input.Cleared? ||
    (input.plan.Some? && input.plan.value.stamp != tl.stamp && (|tl.frames| == 0 || 0 < Overlap(tl, input.plan.value)))
  }

  function At(m: Math, inputs: seq<Input>, k: nat): Timeline
    requires Offered(inputs) && k <= |inputs|
  {
    RunTicks(m, inputs[..k])
  }

  // The cursor at step k when it replaces the timeline.
  function Jump(m: Math, inputs: seq<Input>, k: nat): int
    requires Offered(inputs) && k < |inputs|
  {
    if Replaces(At(m, inputs, k), inputs[k]) then At(m, inputs, k).cursor else 0
  }

  function Jumps(m: Math, inputs: seq<Input>, i: nat, k: nat): int
    requires Offered(inputs) && i <= k <= |inputs|
    decreases k
  {
    if k == i then 0 else Jumps(m, inputs, i, k - 1) + Jump(m, inputs, k - 1)
  }

  lemma OriginStep(m: Math, inputs: seq<Input>, k: nat)
    requires Offered(inputs) && k < |inputs|
    ensures At(m, inputs, k + 1).origin == At(m, inputs, k).origin + Jump(m, inputs, k)
    ensures 0 <= Jump(m, inputs, k)
  {
    hide BlendFrame;
    assert inputs[..k + 1][..k] == inputs[..k];
    RunStaysValid(m, inputs[..k]);
  }

  // A plan generated at step i and blended in at step k lies where the origin has
  // moved to in between: at the absolute tick it was generated for exactly when
  // every replacement of the timeline in between was at cursor 0.
  lemma {:induction false} PlacementShift(m: Math, inputs: seq<Input>, p: Plan, i: nat, k: nat)
    requires Offered(inputs) && i <= k <= |inputs|
    ensures var shift := PlacedAt(At(m, inputs, k), p) - PlacedAt(At(m, inputs, i), p);
      && 0 <= shift == Jumps(m, inputs, i, k)
      && (shift == 0 <==> forall j :: i <= j < k ==> Jump(m, inputs, j) == 0)
    decreases k
  {
    if i < k {
      hide At, Jump;
      PlacementShift(m, inputs, p, i, k - 1);
      OriginStep(m, inputs, k - 1);
    }
  }
}
