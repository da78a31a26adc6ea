// The per-motor stall guard of the hands (include/unitree/hand_guard.hpp).
module HandGuard {
  import opened Geometry
  import opened Optional

  const MOTORS := 7

  datatype Params = Params(
    enabled: bool, kp: real, kd: real, tauMax: real, errTh: real, velTh: real, stallTime: real,
    stallOffset: real, kpHold: real, tempMax: int)

  type Seven = s: seq<real> | |s| == MOTORS witness seq(MOTORS, _ => 0.0)

  datatype Command = Command(enabled: bool, q: Seven, kp: Seven, kd: Seven)

  datatype Motor = Motor(q: real, dq: real, temp: int)

  type Measured = s: seq<Motor> | |s| == MOTORS witness seq(MOTORS, _ => Motor(0.0, 0.0, 0))

  function Sign(e: real): real { if e > 0.0 then 1.0 else if e < 0.0 then -1.0 else 0.0 }

  function Reach(p: Params): real { p.tauMax / Max(p.kp, 0.001) }

  // What one motor's detector sees in one tick.
  datatype Seen = Seen(e: real, dq: real, temp: int, dt: real)

  predicate Stalled(p: Params, s: Seen) { Abs(s.e) > p.errTh && Abs(s.dq) < p.velTh }

  predicate Hot(p: Params, s: Seen) { p.tempMax > 0 && s.temp >= p.tempMax }

  predicate Releases(p: Params, s: Seen) { !Hot(p, s) && Abs(s.e) <= p.errTh }

  datatype Latch = Latch(stall: real, latched: bool)

  function NextLatch(p: Params, l: Latch, s: Seen): Latch {
    var stall := if Stalled(p, s) then l.stall + s.dt else 0.0;
    var tripped := l.latched || Hot(p, s) || stall >= p.stallTime;
    Latch(stall, tripped && !Releases(p, s))
  }

  // The guarded command of one motor.
  function Guarded(p: Params, latched: bool, e: real, qMeas: real, lo: real, hi: real): real {
    var q := if latched then qMeas + p.stallOffset * Sign(e) else qMeas + ClampReal(e, -Reach(p), Reach(p));
    ClampReal(q, lo, hi)
  }

  function SeenBy(desired: Command, meas: Measured, dt: real, i: nat): Seen
    requires i < MOTORS
  {
    Seen(desired.q[i] - meas[i].q, meas[i].dq, meas[i].temp, dt)
  }

  class Guard {
    const p: Params
    const lo: Seven
    const hi: Seven
    const stall: array<real>
    const latched: array<bool>

    ghost predicate Valid()
      reads this
    {
      stall.Length == MOTORS && latched.Length == MOTORS
    }

    ghost function LatchOf(i: nat): Latch
      requires Valid() && i < MOTORS
      reads this, stall, latched
    {
      Latch(stall[i], latched[i])
    }

    constructor (p: Params, lo: Seven, hi: Seven)
      ensures Valid() && this.p == p && this.lo == lo && this.hi == hi && fresh(stall) && fresh(latched)
      ensures forall i :: 0 <= i < MOTORS ==> LatchOf(i) == Latch(0.0, false)
    {
      this.p, this.lo, this.hi := p, lo, hi;
      stall := new real[MOTORS](_ => 0.0);
      latched := new bool[MOTORS](_ => false);
    }

    method Reset()
      requires Valid()
      modifies stall, latched
      ensures forall i :: 0 <= i < MOTORS ==> LatchOf(i) == Latch(0.0, false)
    {
      for i := 0 to MOTORS
        invariant forall k :: 0 <= k < i ==> stall[k] == 0.0 && !latched[k]
      {
        stall[i], latched[i] := 0.0, false;
      }
    }

    // Without a fresh measurement the command passes through and the detector is reset.
    method Apply(desired: Command, meas: Option<Measured>, dt: real) returns (out: Command)
      requires Valid()
      modifies stall, latched
      ensures out.enabled == desired.enabled
      ensures !p.enabled || !desired.enabled || meas.None? ==>
                out == desired && forall i :: 0 <= i < MOTORS ==> LatchOf(i) == Latch(0.0, false)
      ensures p.enabled && desired.enabled && meas.Some? ==>
                forall i :: 0 <= i < MOTORS ==>
                  && LatchOf(i) == NextLatch(p, old(LatchOf(i)), SeenBy(desired, meas.value, dt, i))
                  && out.q[i] == Guarded(p, latched[i], desired.q[i] - meas.value[i].q, meas.value[i].q, lo[i], hi[i])
                  && out.kp[i] == (if latched[i] then p.kpHold else p.kp) && out.kd[i] == p.kd
    {
      if !p.enabled || !desired.enabled || meas.None? {
        Reset();
        return desired;
      }
      hide Guarded, NextLatch, Reach;
      var q, kp, kd: seq<real> := [], [], [];
      for i := 0 to MOTORS
        invariant |q| == |kp| == |kd| == i
        invariant forall k :: i <= k < MOTORS ==> LatchOf(k) == old(LatchOf(k))
        invariant forall k :: 0 <= k < i ==>
                    && LatchOf(k) == NextLatch(p, old(LatchOf(k)), SeenBy(desired, meas.value, dt, k))
                    && q[k] == Guarded(p, latched[k], desired.q[k] - meas.value[k].q, meas.value[k].q, lo[k], hi[k])
                    && kp[k] == (if latched[k] then p.kpHold else p.kp) && kd[k] == p.kd
      {
        var m := meas.value[i];
        var qi, kpi := Drive(i, desired.q[i] - m.q, m, dt);
        q, kp, kd := q + [qi], kp + [kpi], kd + [p.kd];
      }
      out := Command(desired.enabled, q, kp, kd);
    }

    method Drive(i: nat, e: real, m: Motor, dt: real) returns (q: real, kp: real)
      requires Valid() && i < MOTORS
      modifies stall, latched
      ensures LatchOf(i) == NextLatch(p, old(LatchOf(i)), Seen(e, m.dq, m.temp, dt))
      ensures forall k :: 0 <= k < MOTORS && k != i ==> LatchOf(k) == old(LatchOf(k))
      ensures q == Guarded(p, latched[i], e, m.q, lo[i], hi[i]) && kp == if latched[i] then p.kpHold else p.kp
    {
      var eMax := p.tauMax / Max(p.kp, 0.001);
      var cond := Abs(e) > p.errTh && Abs(m.dq) < p.velTh;
      var hot := p.tempMax > 0 && m.temp >= p.tempMax;
      stall[i] := if cond then stall[i] + dt else 0.0;
      var on := latched[i];
      if !on && (hot || stall[i] >= p.stallTime) { on := true; }
      if on && !hot && Abs(e) <= p.errTh { on := false; }
      latched[i] := on;
      if on {
        q := m.q + p.stallOffset * Sign(e);
        kp := p.kpHold;
      } else {
        q := m.q + ClampReal(e, -eMax, eMax);
        kp := p.kp;
      }
      q := ClampReal(q, lo[i], hi[i]);
    }
  }

  // ── the command ────────────────────────────────────────────────────────────

  predicate Sensible(p: Params) { 0.0 < p.tauMax && 0.001 <= p.kp && 0.0 <= p.stallOffset && 0.0 <= p.kpHold }

  // In range, on the target's side of the finger, and within the stall torque.
  lemma CommandIsBounded(p: Params, latched: bool, e: real, qMeas: real, lo: real, hi: real)
    requires Sensible(p) && lo <= qMeas <= hi
    ensures var q := Guarded(p, latched, e, qMeas, lo, hi);
      && lo <= q <= hi
      && (0.0 <= e ==> qMeas <= q) && (e <= 0.0 ==> q <= qMeas)
      && (if latched then p.kpHold * Abs(q - qMeas) <= p.kpHold * p.stallOffset else p.kp * Abs(q - qMeas) <= p.tauMax)
  {
    var q := Guarded(p, latched, e, qMeas, lo, hi);
    if latched {
      SignedOffset(p.stallOffset, e);
      assert Abs(q - qMeas) <= p.stallOffset;
      Product(p.kpHold, p.stallOffset - Abs(q - qMeas));
    } else {
      ReachTimesGain(p);
      assert Abs(q - qMeas) <= Reach(p);
      Product(p.kp, Reach(p) - Abs(q - qMeas));
    }
  }

  lemma SignedOffset(offset: real, e: real)
    requires 0.0 <= offset
    ensures var d := offset * Sign(e);
      Abs(d) <= offset && (0.0 <= e ==> 0.0 <= d) && (e <= 0.0 ==> d <= 0.0) && (e != 0.0 ==> Abs(d) == offset)
  {
  }

  lemma ReachTimesGain(p: Params)
    requires Sensible(p)
    ensures 0.0 < Reach(p) && p.kp * Reach(p) == p.tauMax
  {
    assert Reach(p) == p.tauMax / p.kp;
  }

  // The command passes the target exactly when the motor is latched (which it is
  // while hot, however near the target) and the target is nearer than the offset
  // and than the joint limit on that side.
  lemma PassesTargetIff(p: Params, latched: bool, e: real, qMeas: real, lo: real, hi: real)
    requires Sensible(p) && lo <= qMeas <= hi
    ensures Abs(Guarded(p, latched, e, qMeas, lo, hi) - qMeas) > Abs(e) <==>
            latched && e != 0.0 && Abs(e) < p.stallOffset && lo < qMeas + e < hi
  {
    ReachTimesGain(p);
    hide Reach;
    if latched { SignedOffset(p.stallOffset, e); }
  }

  // An unlatched motor gets its target, or the nearest point it may ask for with
  // the stall torque, unless the joint's limit comes first.
  lemma UnlatchedReaches(p: Params, e: real, qMeas: real, lo: real, hi: real, reach: real)
    requires Sensible(p) && lo <= qMeas <= hi && p.kp * reach == p.tauMax
    ensures var q := Guarded(p, false, e, qMeas, lo, hi);
      && (Abs(e) <= reach && lo <= qMeas + e <= hi ==> q == qMeas + e)
      && (reach < Abs(e) && lo < q < hi ==> Abs(q - qMeas) == reach)
  {
    ReachTimesGain(p);
    SameFactor(p.kp, Reach(p), reach);
    hide Reach;
  }

  lemma SameFactor(k: real, x: real, y: real)
    requires 0.0 < k && k * x == k * y
    ensures x == y
  {
    assert k * (x - y) == 0.0;
  }

  // A latched one exactly the offset toward its target.
  lemma LatchedKeepsOffset(p: Params, e: real, qMeas: real, lo: real, hi: real)
    requires Sensible(p) && lo <= qMeas <= hi && e != 0.0
    ensures var q := Guarded(p, true, e, qMeas, lo, hi);
      lo < q < hi ==> q - qMeas == if e > 0.0 then p.stallOffset else -p.stallOffset
  {
    hide Reach;
  }

  // ── the latch ──────────────────────────────────────────────────────────────

  function LatchAfter(p: Params, trace: seq<Seen>): Latch {
    if |trace| == 0 then Latch(0.0, false) else NextLatch(p, LatchAfter(p, trace[..|trace| - 1]), trace[|trace| - 1])
  }

  // The time of the unbroken run of stalled ticks that ends at tick s.
  function StallTime(p: Params, trace: seq<Seen>, s: nat): real
    requires s < |trace|
  {
    if !Stalled(p, trace[s]) then 0.0
    else (if s == 0 then 0.0 else StallTime(p, trace, s - 1)) + trace[s].dt
  }

  predicate Trips(p: Params, trace: seq<Seen>, s: nat)
    requires s < |trace|
  {
    Hot(p, trace[s]) || StallTime(p, trace, s) >= p.stallTime
  }

  predicate HeldSince(p: Params, trace: seq<Seen>, s: nat)
    requires s <= |trace|
  {
    forall k :: s <= k < |trace| ==> !Releases(p, trace[k])
  }

  lemma {:induction false} StallTimeOfPrefix(p: Params, trace: seq<Seen>, s: nat)
    requires 0 < |trace| && s < |trace| - 1
    ensures StallTime(p, trace[..|trace| - 1], s) == StallTime(p, trace, s)
    decreases s
  {
    if s > 0 { StallTimeOfPrefix(p, trace, s - 1); }
  }

  lemma {:induction false} StallIsRunTime(p: Params, trace: seq<Seen>)
    requires 0 < |trace|
    ensures LatchAfter(p, trace).stall == StallTime(p, trace, |trace| - 1)
    decreases |trace|
  {
    if 1 < |trace| {
      StallIsRunTime(p, trace[..|trace| - 1]);
      StallTimeOfPrefix(p, trace, |trace| - 2);
    }
  }

  // Since the last reset: latched exactly when at some tick the motor was hot or
  // had been stalled for the stall time without a break, and from that tick on
  // the target was never near while the motor was not hot.
  lemma {:induction false} LatchExplained(p: Params, trace: seq<Seen>)
    ensures LatchAfter(p, trace).latched <==>
            exists s :: 0 <= s < |trace| && Trips(p, trace, s) && HeldSince(p, trace, s)
    decreases |trace|
  {
    if 0 < |trace| {
      var n := |trace| - 1;
      var fewer := trace[..n];
      LatchExplained(p, fewer);
      StallIsRunTime(p, trace);
      var after := LatchAfter(p, trace).latched;
      if after {
        if Trips(p, trace, n) {
          assert HeldSince(p, trace, n);
        } else {
          var s :| 0 <= s < |fewer| && Trips(p, fewer, s) && HeldSince(p, fewer, s);
          StallTimeOfPrefix(p, trace, s);
          assert Trips(p, trace, s) && HeldSince(p, trace, s);
        }
      } else {
        forall s | 0 <= s < |trace| ensures !(Trips(p, trace, s) && HeldSince(p, trace, s)) {
          if Trips(p, trace, s) && HeldSince(p, trace, s) {
            assert !Releases(p, trace[n]);
            if s < n {
              StallTimeOfPrefix(p, trace, s);
              assert Trips(p, fewer, s) && HeldSince(p, fewer, s);
            }
          }
        }
      }
    }
  }

  // A motor that moves or is near its target at every tick, and never hot, is
  // never latched; a hot one is, at once.
  lemma {:induction false} OnlyStallLatches(p: Params, trace: seq<Seen>)
    requires 0.0 < p.stallTime
    requires forall k :: 0 <= k < |trace| ==>
               && (Abs(trace[k].e) <= p.errTh || p.velTh <= Abs(trace[k].dq))
               && (p.tempMax <= 0 || trace[k].temp < p.tempMax)
    ensures !LatchAfter(p, trace).latched
    decreases |trace|
  {
    if 0 < |trace| { OnlyStallLatches(p, trace[..|trace| - 1]); }
  }

  lemma HotLatches(p: Params, trace: seq<Seen>)
    requires 0 < |trace| && 0 < p.tempMax <= trace[|trace| - 1].temp
    ensures LatchAfter(p, trace).latched
  {
  }

  // ── a cool motor past its target ───────────────────────────────────────────

  lemma CoolLatchIsFar(p: Params, trace: seq<Seen>)
    requires 0 < |trace| && LatchAfter(p, trace).latched && !Hot(p, trace[|trace| - 1])
    ensures p.errTh < Abs(trace[|trace| - 1].e)
  {
  }

  function Steady(s: Seen, n: nat): (trace: seq<Seen>)
    ensures |trace| == n
  {
    seq(n, _ => s)
  }

  lemma {:induction false} SteadyStallLatches(p: Params, s: Seen, n: nat)
    requires Stalled(p, s)
    ensures LatchAfter(p, Steady(s, n)).stall == n as real * s.dt
    ensures 0 < n && p.stallTime <= n as real * s.dt ==> LatchAfter(p, Steady(s, n)).latched
  {
    if 0 < n {
      assert Steady(s, n)[..n - 1] == Steady(s, n - 1);
      SteadyStallLatches(p, s, n - 1);
    }
  }

  // After these ticks of dt seconds a motor that is not hot is latched nearer its
  // target than the offset.
  predicate PassesCool(p: Params, dt: real, trace: seq<Seen>) {
    && 0 < |trace| && LatchAfter(p, trace).latched
    && (forall k :: 0 <= k < |trace| ==> trace[k].dt == dt)
    && var last := trace[|trace| - 1];
      !Hot(p, last) && 0.0 < Abs(last.e) < p.stallOffset
  }

  // Whatever the tick, such a trace exists exactly when the stall threshold is
  // below the offset.
  lemma CoolMotorPassesIff(p: Params, dt: real)
    requires 0.0 <= p.errTh && 0.0 < p.velTh && 0.0 < dt
    ensures (exists trace :: PassesCool(p, dt, trace)) <==> p.errTh < p.stallOffset
  {
    if p.errTh < p.stallOffset {
      var s := Seen((p.errTh + p.stallOffset) / 2.0, 0.0, p.tempMax - 1, dt);
      var n := EnoughTicks(p.stallTime, dt);
      SteadyStallLatches(p, s, n);
      assert PassesCool(p, dt, Steady(s, n));
    } else {
      forall trace | PassesCool(p, dt, trace) ensures false { CoolLatchIsFar(p, trace); }
    }
  }

  lemma EnoughTicks(time: real, dt: real) returns (n: nat)
    requires 0.0 < dt
    ensures 0 < n && time <= n as real * dt
  {
    n := if time <= 0.0 then 1 else (time / dt).Floor + 1;
    if 0.0 < time {
      assert time / dt <= n as real;
      Product(dt, n as real - time / dt);
      assert dt * (n as real - time / dt) == n as real * dt - time;
    }
  }

  // The defaults of the source.
  const DEFAULTS := Params(true, 1.5, 0.1, 0.6, 0.15, 0.05, 0.3, 0.25, 1.5, 0)

  // 15 ticks of 20 ms stalled 0.2 short of the target: the command goes 0.05 past it.
  lemma DefaultsPassTarget(qMeas: real, lo: real, hi: real)
    requires lo <= qMeas && qMeas + 0.25 <= hi
    ensures LatchAfter(DEFAULTS, Steady(Seen(0.2, 0.0, 30, 0.02), 15)).latched
    ensures Guarded(DEFAULTS, true, 0.2, qMeas, lo, hi) == qMeas + 0.2 + 0.05
  {
    SteadyStallLatches(DEFAULTS, Seen(0.2, 0.0, 30, 0.02), 15);
  }
}
