// What the 50 Hz loop writes: LowState loss and emergency stop (loop,
// publish_base_hold and publish_damping in src/control/whole_body_controller.cpp;
// the e-stop latch of src/motion/input_handler.cpp).
module LossPolicy {
  import opened Geometry
  import opened JointOrder
  import opened Optional

  const GRACE := 25
  const RAMP := 50

  datatype Command = Command(q: Joints, kp: Joints, kd: Joints)

  // The standing pose and the policy gains (include/common/robot_params.hpp).
  datatype Robot = Robot(base: Joints, kps: Joints, kds: Joints)

  // The policy gains are not those of damping.
  predicate Stiff(r: Robot) { exists i :: 0 <= i < JOINTS && r.kps[i] != 0.0 }

  function Constant(v: real): Joints { seq(JOINTS, _ => v) }

  function Damping(): Command { Command(Constant(0.0), Constant(0.0), Constant(8.0)) }

  function Toward(a: Joints, b: Joints, w: real): Joints {
    seq(JOINTS, i requires 0 <= i < JOINTS => Mix(a[i], b[i], w))
  }

  function RampRatio(missing: int): real { Clamp01((missing - GRACE) as real / RAMP as real) }

  function BaseHold(r: Robot, from: Joints, missing: int): Command {
    Command(Toward(from, r.base, RampRatio(missing)), r.kps, r.kds)
  }

  datatype Phase = Init | WaitForControl | Control | Estop

  // buffer is motor_command_buf, rampFrom the pose the base ramp starts from.
  datatype Loop = Loop(phase: Phase, missing: nat, buffer: Option<Command>, rampFrom: Joints)

  // One tick: the e-stop latch and the state gate as read, the phase afterwards
  // and what the phase's own tick writes, if anything.
  datatype Input = Input(estop: bool, stateOk: bool, nextPhase: Phase, own: Option<Joints>)

  function Written(r: Robot, l: Loop, i: Input): Option<Command> {
    if i.estop then Some(Damping())
    else if !i.stateOk then
      if l.missing + 1 <= GRACE then None else Some(BaseHold(r, RampFrom(l), l.missing + 1))
    else if l.phase.Estop? || i.own.None? then None
    else Some(Command(i.own.value, r.kps, r.kds))
  }

  function RampFrom(l: Loop): Joints {
    if l.missing + 1 == GRACE + 1 && l.buffer.Some? then l.buffer.value.q else l.rampFrom
  }

  function Tick(r: Robot, l: Loop, i: Input): Loop {
    var written := Written(r, l, i);
    var buffer := if written.Some? then written else l.buffer;
    if i.estop then Loop(Estop, l.missing, buffer, l.rampFrom)
    else if !i.stateOk then
      Loop(l.phase, l.missing + 1, buffer, if l.missing + 1 <= GRACE then l.rampFrom else RampFrom(l))
    else Loop(if l.phase.Estop? then Estop else i.nextPhase, 0, buffer, l.rampFrom)
  }

  class Controller {
    const r: Robot
    var phase: Phase
    var missing: nat
    var buffer: Option<Command>
    var rampFrom: Joints

    ghost function View(): Loop
      reads this
    {
      Loop(phase, missing, buffer, rampFrom)
    }

    constructor (r: Robot)
      ensures this.r == r && View() == Loop(Init, 0, None, Constant(0.0))
    {
      this.r := r;
      phase, missing, buffer, rampFrom := Init, 0, None, Constant(0.0);
    }

    method PublishDamping()
      modifies this
      ensures View() == old(View()).(buffer := Some(Damping()))
    {
      buffer := Some(Command(Constant(0.0), Constant(0.0), Constant(8.0)));
    }

    method PublishBaseHold()
      modifies this
      ensures View() == old(View()).(buffer := Some(BaseHold(r, rampFrom, missing)))
    {
      var ratio := RampRatio(missing);
      hide RampRatio;
      var q: seq<real> := [];
      for i := 0 to JOINTS
        invariant |q| == i && forall k :: 0 <= k < i ==> q[k] == Mix(rampFrom[k], r.base[k], ratio)
      {
        q := q + [rampFrom[i] * (1.0 - ratio) + r.base[i] * ratio];
      }
      assert q == Toward(rampFrom, r.base, ratio);
      buffer := Some(Command(q, r.kps, r.kds));
    }

    method LoopOnce(i: Input)
      modifies this
      ensures View() == Tick(r, old(View()), i)
    {
      hide Toward, BaseHold, Damping;
      if i.estop {
        phase := Estop;
        PublishDamping();
        return;
      }
      if !i.stateOk {
        missing := missing + 1;
        if missing > GRACE {
          if missing == GRACE + 1 {
            if buffer.Some? { rampFrom := buffer.value.q; }
          }
          PublishBaseHold();
        }
        return;
      }
      missing := 0;
      if phase == Estop { return; }
      phase := i.nextPhase;
      if i.own.Some? { buffer := Some(Command(i.own.value, r.kps, r.kds)); }
    }
  }

  // ── damping ────────────────────────────────────────────────────────────────

  lemma OnlyEstopDamps(r: Robot, l: Loop, i: Input)
    requires Stiff(r)
    ensures Written(r, l, i) == Some(Damping()) <==> i.estop
  {
    var j :| 0 <= j < JOINTS && r.kps[j] != 0.0;
    assert Damping().kp[j] == 0.0;
  }

  function After(r: Robot, inputs: seq<Input>): Loop {
    if |inputs| == 0 then Loop(Init, 0, None, Constant(0.0))
    else Tick(r, After(r, inputs[..|inputs| - 1]), inputs[|inputs| - 1])
  }

  // ── a LowState loss ────────────────────────────────────────────────────────

  predicate Lost(i: Input) { !i.estop && !i.stateOk }

  // n ticks of loss from l.
  function LostFor(r: Robot, l: Loop, n: nat): Loop {
    if n == 0 then l else Tick(r, LostFor(r, l, n - 1), Input(false, false, Init, None))
  }

  lemma {:induction false} LossIsLostFor(r: Robot, l: Loop, inputs: seq<Input>, n: nat)
    requires n <= |inputs| && After(r, inputs[..|inputs| - n]) == l
    requires forall k :: |inputs| - n <= k < |inputs| ==> Lost(inputs[k])
    ensures After(r, inputs) == LostFor(r, l, n)
    decreases n
  {
    if n == 0 {
      assert inputs[..|inputs|] == inputs;
    } else {
      var fewer := inputs[..|inputs| - 1];
      assert fewer[..|fewer| - (n - 1)] == inputs[..|inputs| - n];
      assert forall k :: |fewer| - (n - 1) <= k < |fewer| ==> fewer[k] == inputs[k];
      LossIsLostFor(r, l, fewer, n - 1);
    }
  }

  // The n-th tick of a loss writes nothing within the grace, then the pose n - 25
  // fiftieths of the way from the last command to the base pose, and the base
  // pose itself from tick 75 on.
  function LossPose(r: Robot, from: Joints, n: nat): Joints {
    if n < GRACE + RAMP then Toward(from, r.base, (n - GRACE) as real / RAMP as real) else r.base
  }

  lemma FullRamp(from: Joints, base: Joints)
    ensures Toward(from, base, 1.0) == base
  {
  }

  lemma {:induction false} LossWrites(r: Robot, l: Loop, n: nat)
    requires l.missing == 0 && 0 < n
    ensures var from := if l.buffer.Some? then l.buffer.value.q else l.rampFrom;
      && LostFor(r, l, n).missing == n && LostFor(r, l, n).phase == l.phase
      && (n <= GRACE ==> LostFor(r, l, n).buffer == l.buffer && LostFor(r, l, n).rampFrom == l.rampFrom)
      && (GRACE < n ==>
            && LostFor(r, l, n).buffer == Some(Command(LossPose(r, from, n), r.kps, r.kds))
            && LostFor(r, l, n).rampFrom == from)
    decreases n
  {
    hide Toward;
    if 1 < n { LossWrites(r, l, n - 1); }
    if GRACE + RAMP <= n {
      FullRamp(if l.buffer.Some? then l.buffer.value.q else l.rampFrom, r.base);
    }
  }

  // Per tick each joint moves by exactly a fiftieth of its gap, toward the base pose.
  lemma RampPace(r: Robot, from: Joints, n: nat, i: nat)
    requires GRACE <= n < GRACE + RAMP && i < JOINTS
    ensures LossPose(r, from, n + 1)[i] - LossPose(r, from, n)[i] == (r.base[i] - from[i]) / 50.0
    ensures LossPose(r, from, GRACE)[i] == from[i]
  {
    var w := (n - GRACE) as real / 50.0;
    RampAt(r, from, n, i);
    RampAt(r, from, n + 1, i);
    RampAt(r, from, GRACE, i);
    hide LossPose;
    assert (n + 1 - GRACE) as real / 50.0 == w + 0.02;
    assert Mix(from[i], r.base[i], w + 0.02) - Mix(from[i], r.base[i], w) == (r.base[i] - from[i]) * 0.02;
  }

  lemma RampAt(r: Robot, from: Joints, n: nat, i: nat)
    requires GRACE <= n <= GRACE + RAMP && i < JOINTS
    ensures var w := (n - GRACE) as real / 50.0;
      LossPose(r, from, n)[i] == Mix(from[i], r.base[i], w)
  {
    if n == GRACE + RAMP { FullRamp(from, r.base); }
  }

  // The ticks without a state since the last one with; e-stop ticks do not count.
  function LostSince(inputs: seq<Input>): nat {
    if |inputs| == 0 then 0
    else
      var last := inputs[|inputs| - 1];
      if last.estop then LostSince(inputs[..|inputs| - 1])
      else if last.stateOk then 0
      else LostSince(inputs[..|inputs| - 1]) + 1
  }

  lemma {:induction false} MissingIsLostSince(r: Robot, inputs: seq<Input>)
    ensures After(r, inputs).missing == LostSince(inputs)
    decreases |inputs|
  {
    hide Written, RampFrom;
    if |inputs| > 0 { MissingIsLostSince(r, inputs[..|inputs| - 1]); }
  }

  // In every run what a tick writes: damping, positions and gains zero but
  // kd = 8, under the e-stop; nothing in the first 25 ticks of a loss, a base hold
  // with the policy's gains after that; with a state the phase's own command, if
  // any, until an e-stop has ended the control.
  lemma TickWrites(r: Robot, inputs: seq<Input>, i: Input, j: nat)
    requires j < JOINTS
    ensures var l := After(r, inputs); var w, lost := Written(r, l, i), LostSince(inputs) + 1;
      && (i.estop ==> w.Some? && w.value.q[j] == w.value.kp[j] == 0.0 && w.value.kd[j] == 8.0)
      && (!i.estop && !i.stateOk ==> (w.None? <==> lost <= 25))
      && (!i.estop && !i.stateOk && w.Some? ==> w.value.kp == r.kps && w.value.kd == r.kds)
      && (!i.estop && i.stateOk ==>
            (w.Some? <==> i.own.Some? && l.phase != Estop)
            && (w.Some? ==> w.value == Command(i.own.value, r.kps, r.kds)))
      && After(r, inputs + [i]).buffer == if w.Some? then w else l.buffer
  {
    MissingIsLostSince(r, inputs);
    assert (inputs + [i])[..|inputs|] == inputs;
    hide After, LostSince, Toward, RampRatio;
  }

  // An e-stop ends the control for good.
  lemma {:induction false} EstopEndsControl(r: Robot, inputs: seq<Input>, k: nat)
    requires k < |inputs| && inputs[k].estop
    ensures After(r, inputs).phase == Estop
    decreases |inputs|
  {
    hide Written, RampFrom;
    if k < |inputs| - 1 { EstopEndsControl(r, inputs[..|inputs| - 1], k); }
  }

  // ── the latch ──────────────────────────────────────────────────────────────

  const HOLD := 500

  // One 500 Hz tick: None while the controller link is down, else whether all
  // four face buttons are down.
  type Pad = Option<bool>

  datatype Latch = Latch(hold: nat, estop: bool)

  function NextLatch(l: Latch, pad: Pad): Latch {
    match pad
    case None => l
    case Some(all) =>
      if all then Latch(l.hold + 1, l.estop || l.hold + 1 >= HOLD) else Latch(0, l.estop)
  }

  class EstopLatch {
    var hold: nat
    var estop: bool

    constructor ()
      ensures !estop && hold == 0
    {
      hold, estop := 0, false;
    }

    method Update(pad: Pad)
      modifies this
      ensures Latch(hold, estop) == NextLatch(old(Latch(hold, estop)), pad)
    {
      if pad.Some? {
        if pad.value {
          hold := hold + 1;
          if hold >= HOLD && !estop { estop := true; }
        } else {
          hold := 0;
        }
      }
    }
  }

  function LatchAfter(pads: seq<Pad>): Latch {
    if |pads| == 0 then Latch(0, false) else NextLatch(LatchAfter(pads[..|pads| - 1]), pads[|pads| - 1])
  }

  // The ticks with the link up.
  function Present(pads: seq<Pad>): seq<bool> {
    if |pads| == 0 then []
    else Present(pads[..|pads| - 1]) + (if pads[|pads| - 1].Some? then [pads[|pads| - 1].value] else [])
  }

  // The last n of them are all four buttons.
  predicate HeldFor(s: seq<bool>, n: nat) { n <= |s| && forall k :: |s| - n <= k < |s| ==> s[k] }

  // Some 500 successive ones are.
  predicate EverHeld(s: seq<bool>) {
    exists end :: HOLD <= end <= |s| && HeldFor(s[..end], HOLD)
  }

  lemma EverHeldGrows(s: seq<bool>, b: bool)
    ensures EverHeld(s + [b]) <==> EverHeld(s) || HeldFor(s + [b], HOLD)
  {
    var t := s + [b];
    assert t[..|t|] == t;
    assert forall end :: 0 <= end <= |s| ==> t[..end] == s[..end];
    if EverHeld(s) {
      var end :| HOLD <= end <= |s| && HeldFor(s[..end], HOLD);
      assert HeldFor(t[..end], HOLD);
    }
    if HeldFor(t, HOLD) { assert HeldFor(t[..|t|], HOLD); }
    if EverHeld(t) && !HeldFor(t, HOLD) {
      var end :| HOLD <= end <= |t| && HeldFor(t[..end], HOLD);
      assert end <= |s| && HeldFor(s[..end], HOLD);
    }
  }

  // With n the length of the last run of true.
  lemma HeldGrows(s: seq<bool>, n: nat, b: bool)
    requires HeldFor(s, n) && (n < |s| ==> !s[|s| - 1 - n])
    ensures var t := s + [b]; var m := if b then n + 1 else 0;
      && HeldFor(t, m) && (m < |t| ==> !t[|t| - 1 - m])
      && (HeldFor(t, HOLD) <==> HOLD <= m)
  {
    var t := s + [b];
    var m := if b then n + 1 else 0;
    if m < HOLD && HOLD <= |t| {
      assert !t[|t| - 1 - m] && |t| - HOLD <= |t| - 1 - m < |t|;
    }
  }

  // The latch is set exactly when 500 successive ticks among those with the link
  // up had all four buttons down. A link drop in between does not interrupt them.
  lemma {:induction false} LatchedIffHeld(pads: seq<Pad>)
    ensures var s := Present(pads); var l := LatchAfter(pads);
      && l.hold <= |s| && HeldFor(s, l.hold) && (l.hold < |s| ==> !s[|s| - 1 - l.hold])
      && (l.estop <==> EverHeld(s))
    decreases |pads|
  {
    if 0 < |pads| {
      var fewer, pad := pads[..|pads| - 1], pads[|pads| - 1];
      LatchedIffHeld(fewer);
      var s := Present(fewer);
      if pad.Some? {
        EverHeldGrows(s, pad.value);
        hide EverHeld, HeldFor;
        var l := LatchAfter(fewer);
        HeldGrows(s, l.hold, pad.value);
      } else {
        assert s + [] == s;
      }
    }
  }

  // Once set it stays set.
  lemma {:induction false} LatchIsAbsorbing(pads: seq<Pad>, more: seq<Pad>)
    requires LatchAfter(pads).estop
    ensures LatchAfter(pads + more).estop
    decreases |more|
  {
    if |more| == 0 {
      assert pads + more == pads;
    } else {
      assert (pads + more)[..|pads + more| - 1] == pads + more[..|more| - 1];
      LatchIsAbsorbing(pads, more[..|more| - 1]);
    }
  }

  // ── damping and the latch ──────────────────────────────────────────────────

  // The 500 Hz ticks of the input thread and the 50 Hz ticks of the loop, in any
  // order.
  datatype Moment =
    | PadTick(pad: Pad)
    | LoopTick(stateOk: bool, nextPhase: Phase, own: Option<Joints>)

  function Pads(ms: seq<Moment>): seq<Pad> {
    if |ms| == 0 then []
    else Pads(ms[..|ms| - 1]) + (if ms[|ms| - 1].PadTick? then [ms[|ms| - 1].pad] else [])
  }

  // What a loop tick after ms reads.
  function Read(ms: seq<Moment>, tick: Moment): Input
    requires tick.LoopTick?
  {
    Input(LatchAfter(Pads(ms)).estop, tick.stateOk, tick.nextPhase, tick.own)
  }

  // What the loop's ticks in ms have read.
  function Inputs(ms: seq<Moment>): seq<Input> {
    if |ms| == 0 then []
    else
      var before, last := ms[..|ms| - 1], ms[|ms| - 1];
      Inputs(before) + (if last.LoopTick? then [Read(before, last)] else [])
  }

  // What moment k writes.
  function WrittenAt(r: Robot, ms: seq<Moment>, k: nat): Option<Command>
    requires k < |ms| && ms[k].LoopTick?
  {
    Written(r, After(r, Inputs(ms[..k])), Read(ms[..k], ms[k]))
  }

  predicate HeldBefore(ms: seq<Moment>, k: nat)
    requires k <= |ms|
  {
    EverHeld(Present(Pads(ms[..k])))
  }

  // In every interleaving a loop tick writes damping exactly when the buttons
  // were held down for 500 successive link-up ticks before it.
  lemma DampingIffHeld(r: Robot, ms: seq<Moment>, k: nat)
    requires Stiff(r) && k < |ms| && ms[k].LoopTick?
    ensures WrittenAt(r, ms, k) == Some(Damping()) <==> HeldBefore(ms, k)
  {
    OnlyEstopDamps(r, After(r, Inputs(ms[..k])), Read(ms[..k], ms[k]));
    LatchedIffHeld(Pads(ms[..k]));
  }

  lemma {:induction false} PadsGrow(ms: seq<Moment>, more: seq<Moment>)
    ensures Pads(ms) <= Pads(ms + more)
    decreases |more|
  {
    if |more| == 0 {
      assert ms + more == ms;
    } else {
      assert (ms + more)[..|ms + more| - 1] == ms + more[..|more| - 1];
      PadsGrow(ms, more[..|more| - 1]);
    }
  }

  // It does so from the first tick after the hold on, for ever, and never before.
  lemma DampingFromEstopOn(r: Robot, ms: seq<Moment>, j: nat, k: nat)
    requires Stiff(r) && j <= k < |ms| && ms[j].LoopTick? && ms[k].LoopTick?
    ensures WrittenAt(r, ms, j) == Some(Damping()) ==> WrittenAt(r, ms, k) == Some(Damping())
    ensures WrittenAt(r, ms, k) == Some(Damping()) ==>
              exists i :: 0 <= i < k && ms[i].PadTick? && HeldBefore(ms, i + 1) && !HeldBefore(ms, i)
  {
    DampingIffHeld(r, ms, j);
    DampingIffHeld(r, ms, k);
    if HeldBefore(ms, j) { HeldStays(ms, j, k); }
    if HeldBefore(ms, k) { var i := HeldSince(ms, k); }
  }

  lemma HeldStays(ms: seq<Moment>, j: nat, k: nat)
    requires j <= k <= |ms| && HeldBefore(ms, j)
    ensures HeldBefore(ms, k)
  {
    var before, now := Pads(ms[..j]), Pads(ms[..k]);
    PadsGrow(ms[..j], ms[j..k]);
    assert ms[..j] + ms[j..k] == ms[..k];
    LatchedIffHeld(before);
    LatchedIffHeld(now);
    LatchIsAbsorbing(before, now[|before|..]);
    assert before + now[|before|..] == now;
  }

  // The tick that completed the hold.
  lemma {:induction false} HeldSince(ms: seq<Moment>, k: nat) returns (i: nat)
    requires k <= |ms| && HeldBefore(ms, k)
    ensures i < k && ms[i].PadTick? && HeldBefore(ms, i + 1) && !HeldBefore(ms, i)
    decreases k
  {
    assert k > 0;
    if HeldBefore(ms, k - 1) {
      i := HeldSince(ms, k - 1);
    } else {
      i := k - 1;
      assert ms[..k][..i] == ms[..i];
      assert Pads(ms[..i]) + [] == Pads(ms[..i]);
    }
  }

  // ── a hold the link interrupts ─────────────────────────────────────────────

  function Held(n: nat): (pads: seq<Pad>)
    ensures |pads| == n
  {
    seq(n, _ => Some(true))
  }

  lemma {:induction false} HoldCounts(pads: seq<Pad>, n: nat)
    ensures var l := LatchAfter(pads + Held(n));
      l.hold == LatchAfter(pads).hold + n && (0 < n && HOLD <= l.hold ==> l.estop)
  {
    if n == 0 {
      assert pads + Held(0) == pads;
    } else {
      assert (pads + Held(n))[..|pads| + n - 1] == pads + Held(n - 1);
      HoldCounts(pads, n - 1);
    }
  }

  // 499 ticks do not.
  lemma ShortHoldDoesNotLatch()
    ensures !LatchAfter(Held(499)).estop && LatchAfter(Held(500)).estop
  {
    assert [] + Held(500) == Held(500);
    HoldCounts([], 500);
    LatchedIffHeld(Held(499));
    PresentIsShorter(Held(499));
    hide Held;
  }

  lemma {:induction false} PresentIsShorter(pads: seq<Pad>)
    ensures |Present(pads)| <= |pads|
    decreases |pads|
  {
    if 0 < |pads| { PresentIsShorter(pads[..|pads| - 1]); }
  }

  // Half a second, a dropped link and another half second set the latch.
  lemma InterruptedHoldLatches()
    ensures LatchAfter(Held(250) + [None] + Held(250)).estop
  {
    hide Held;
    HoldCounts([], 250);
    assert [] + Held(250) == Held(250);
    var dropped := Held(250) + [None];
    assert dropped[..|dropped| - 1] == Held(250);
    HoldCounts(dropped, 250);
  }
}
