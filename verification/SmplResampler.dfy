// The irregular body stream on a 50 Hz grid (include/teleop/smpl_resampler.hpp).
// Times are nanoseconds of the steady clock.
module SmplResampler {
  import opened Geometry
  import opened Optional

  const RING := 8

  type Locals = s: seq<Vec3> | |s| == 24 witness seq(24, _ => Vec3(0.0, 0.0, 0.0))
  type Wrists = s: seq<real> | |s| == 6 witness seq(6, _ => 0.0)

  datatype SmplPose = SmplPose(joints: Locals, wrists: Wrists, anchor: Quat)

  datatype Sample = Sample(pose: SmplPose, t: int)

  datatype Params = Params(delayFactor: real, minDelay: real, maxDelay: real, ema: real, seed: real) {
    predicate Sensible() { 0.0 <= ema <= 1.0 && 0.0 <= minDelay <= maxDelay }
  }

  function Seconds(ns: int): real { ns as real / 1000000000.0 }

  function LerpReal(a: real, b: real, alpha: real): real { a + alpha * (b - a) }

  function LerpPose(m: Math, a: SmplPose, b: SmplPose, alpha: real): SmplPose {
    SmplPose(
      seq(24, j requires 0 <= j < 24 =>
        Vec3(LerpReal(a.joints[j].x, b.joints[j].x, alpha), LerpReal(a.joints[j].y, b.joints[j].y, alpha),
             LerpReal(a.joints[j].z, b.joints[j].z, alpha))),
      seq(6, i requires 0 <= i < 6 => LerpReal(a.wrists[i], b.wrists[i], alpha)),
      Slerp(m, a.anchor, b.anchor, alpha))
  }

  function AlphaFor(t0: int, t1: int, target: int): real {
    var span := Seconds(t1 - t0);
    if span <= 0.0 then 1.0 else Clamp01(Seconds(target - t0) / span)
  }

  // ── the specification: the log of samples accepted since the last reset ────

  predicate Increasing(log: seq<Sample>) {
    forall i, j :: 0 <= i < j < |log| ==> log[i].t < log[j].t
  }

  predicate Accepts(log: seq<Sample>, t: int) { |log| == 0 || log[|log| - 1].t < t }

  function Pushed(log: seq<Sample>, s: Sample): seq<Sample> {
    if Accepts(log, s.t) then log + [s] else log
  }

  function Recent(log: seq<Sample>): (r: seq<Sample>)
    ensures |r| <= RING && |r| <= |log| && (|log| > 0 ==> |r| > 0 && r[|r| - 1] == log[|log| - 1])
  {
    if |log| <= RING then log else log[|log| - RING..]
  }

  // Piecewise interpolation: hold beyond the ends, and between two neighbours
  // split their distance as the target splits their times.
  ghost predicate Interpolates(m: Math, s: seq<Sample>, target: int, out: SmplPose)
    requires 0 < |s|
  {
    && (s[|s| - 1].t <= target ==> out == s[|s| - 1].pose)
    && (target < s[0].t ==> out == s[0].pose)
    && (forall i {:trigger s[i]} :: 0 <= i < |s| - 1 && s[i].t <= target < s[i + 1].t ==>
          out == LerpPose(m, s[i].pose, s[i + 1].pose, Ratio(s[i].t, s[i + 1].t, target)))
  }

  function Ratio(t0: int, t1: int, target: int): real
    requires t0 < t1
  {
    (target - t0) as real / (t1 - t0) as real
  }

  // The smoothed inter-arrival interval.
  function Interval(p: Params, log: seq<Sample>): real {
    if |log| <= 1 then p.seed
    else
      var dt := Seconds(log[|log| - 1].t - log[|log| - 2].t);
      if |log| == 2 then dt else Mix(Interval(p, log[..|log| - 1]), dt, p.ema)
  }

  function Delay(p: Params, interval: real): real {
    var d := p.delayFactor * interval;
    if d < p.minDelay then p.minDelay else if p.maxDelay < d then p.maxDelay else d
  }

  // duration_cast truncates; the delay is not negative.
  function Target(p: Params, interval: real, now: int): int {
    now - (Delay(p, interval) * 1000000000.0).Floor
  }

  // ── the ring ───────────────────────────────────────────────────────────────

  // The slot k samples behind the newest.
  function Slot(head: nat, k: nat): (r: nat)
    requires head < RING && k < RING
    ensures r < RING && r == (head + RING - k) % RING
  {
    if k <= head then head - k else head + RING - k
  }

  predicate Held(poses: seq<SmplPose>, times: seq<int>, head: nat, log: seq<Sample>, k: nat)
    requires |poses| == |times| == RING && head < RING && k < RING && k < |log|
  {
    poses[Slot(head, k)] == log[|log| - 1 - k].pose && times[Slot(head, k)] == log[|log| - 1 - k].t
  }

  predicate Mirrors(poses: seq<SmplPose>, times: seq<int>, head: nat, log: seq<Sample>) {
    && |poses| == |times| == RING && head < RING
    && forall k :: 0 <= k < RING && k < |log| ==> Held(poses, times, head, log, k)
  }

  lemma PushMirrors(poses: seq<SmplPose>, times: seq<int>, head: nat, log: seq<Sample>, s: Sample, next: nat)
    requires Mirrors(poses, times, head, log) && next == (if |log| == 0 then head else (head + 1) % RING)
    ensures Mirrors(poses[next := s.pose], times[next := s.t], next, log + [s])
  {
    var poses', times', log' := poses[next := s.pose], times[next := s.t], log + [s];
    forall k | 0 <= k < RING && k < |log'| ensures Held(poses', times', next, log', k) {
      if k > 0 {
        assert Held(poses, times, head, log, k - 1);
        assert Slot(next, k) == Slot(head, k - 1) != next;
      }
    }
  }

  lemma PushKeepsOrder(log: seq<Sample>, s: Sample)
    requires Increasing(log)
    ensures |log| > 0 ==> (Accepts(log, s.t) <==> 0.0 < Seconds(s.t - log[|log| - 1].t))
    ensures Accepts(log, s.t) ==> Increasing(log + [s])
  {
  }

  lemma IntervalStep(p: Params, log: seq<Sample>, s: Sample)
    ensures Interval(p, []) == p.seed && (|log| == 0 ==> Interval(p, log + [s]) == p.seed)
    ensures |log| > 0 ==>
              var dt := Seconds(s.t - log[|log| - 1].t);
              Interval(p, log + [s]) == if |log| == 1 then dt else Mix(Interval(p, log), dt, p.ema)
  {
    hide Seconds, Mix;
    assert (log + [s])[..|log + [s]| - 1] == log;
  }

  class Resampler {
    const p: Params
    const poses: array<SmplPose>
    const times: array<int>
    var head: nat
    var count: nat
    var interval: real
    ghost var log: seq<Sample>

    ghost predicate Valid()
      reads this, poses, times
    {
      && Increasing(log) && Mirrors(poses[..], times[..], head, log)
      && count == (if |log| < RING then |log| else RING)
      && interval == Interval(p, log)
    }

    constructor (p: Params)
      ensures Valid() && this.p == p && log == [] && fresh(poses) && fresh(times)
    {
      this.p := p;
      var idle := SmplPose(seq(24, _ => Vec3(0.0, 0.0, 0.0)), seq(6, _ => 0.0), Quat(1.0, 0.0, 0.0, 0.0));
      poses := new SmplPose[RING](_ => idle);
      times := new int[RING](_ => 0);
      head, count, interval, log := 0, 0, p.seed, [];
    }

    method Reset()
      requires Valid()
      modifies this
      ensures Valid() && log == []
    {
      head, count, interval, log := 0, 0, p.seed, [];
    }

    method Push(pose: SmplPose, t: int)
      requires Valid()
      modifies this, poses, times
      ensures Valid() && log == Pushed(old(log), Sample(pose, t))
    {
      hide Mirrors, Interval, Increasing, Seconds, Mix;
      ghost var s := Sample(pose, t);
      NewestMirrored(poses[..], times[..], head, log);
      PushKeepsOrder(log, s);
      IntervalStep(p, log, s);
      var next := head;
      if count > 0 {
        var dt := Seconds(t - times[head]);
        if dt <= 0.0 { return; }
        interval := if count == 1 then dt else Mix(interval, dt, p.ema);
        next := (head + 1) % RING;
      }
      PushMirrors(poses[..], times[..], head, log, s, next);
      ghost var poses1, times1 := poses[..][next := pose], times[..][next := t];
      head := next;
      poses[head], times[head] := pose, t;
      if count < RING { count := count + 1; }
      log := log + [s];
      assert poses[..] == poses1 && times[..] == times1;
    }

    // The value on the grid at now minus the delay; none before the first sample.
    method SampleAt(m: Math, now: int) returns (out: Option<SmplPose>)
      requires Valid()
      ensures out.Some? <==> |log| > 0
      ensures out.Some? ==> Interpolates(m, Recent(log), Target(p, Interval(p, log), now), out.value)
    {
      hide LerpPose, Interval, Target, AlphaFor, Interpolates, Increasing, Mirrors;
      NewestMirrored(poses[..], times[..], head, log);
      if count == 0 { return None; }
      var target := Target(p, interval, now);
      var newer := head;
      if target >= times[newer] {
        HoldsNewest(m, log, target);
        return Some(poses[newer]);
      }
      var k: nat := 1;
      while k < count
        invariant 1 <= k <= count && newer == Slot(head, k - 1)
        invariant target < log[|log| - k].t
      {
        var older := (head + RING - k) % RING;
        MirroredAt(poses[..], times[..], head, log, k);
        MirroredAt(poses[..], times[..], head, log, k - 1);
        if times[older] <= target {
          out := Some(LerpPose(m, poses[older], poses[newer], AlphaFor(times[older], times[newer], target)));
          SplitsBetween(m, log, target, k);
          return;
        }
        newer := older;
        k := k + 1;
      }
      MirroredAt(poses[..], times[..], head, log, k - 1);
      HoldsOldest(m, log, target);
      out := Some(poses[newer]);
    }
  }

  lemma NewestMirrored(poses: seq<SmplPose>, times: seq<int>, head: nat, log: seq<Sample>)
    requires Mirrors(poses, times, head, log)
    ensures |poses| == |times| == RING && head < RING
    ensures |log| > 0 ==> poses[head] == log[|log| - 1].pose && times[head] == log[|log| - 1].t
  {
    if |log| > 0 { assert Held(poses, times, head, log, 0); }
  }

  lemma MirroredAt(poses: seq<SmplPose>, times: seq<int>, head: nat, log: seq<Sample>, k: nat)
    requires Mirrors(poses, times, head, log) && k < RING && k < |log|
    ensures |poses| == |times| == RING && head < RING
    ensures poses[Slot(head, k)] == log[|log| - 1 - k].pose && times[Slot(head, k)] == log[|log| - 1 - k].t
  {
    assert Held(poses, times, head, log, k);
  }

  lemma HoldsNewest(m: Math, log: seq<Sample>, target: int)
    requires Increasing(log) && |log| > 0 && log[|log| - 1].t <= target
    ensures Interpolates(m, Recent(log), target, log[|log| - 1].pose)
  {
    hide LerpPose;
  }

  lemma HoldsOldest(m: Math, log: seq<Sample>, target: int)
    requires Increasing(log) && |log| > 0
    requires target < Recent(log)[0].t
    ensures Interpolates(m, Recent(log), target, Recent(log)[0].pose)
  {
    hide LerpPose;
  }

  lemma SplitsBetween(m: Math, log: seq<Sample>, target: int, k: nat)
    requires Increasing(log) && 1 <= k < RING && k < |log|
    requires log[|log| - 1 - k].t <= target < log[|log| - k].t
    ensures var a, b := log[|log| - 1 - k], log[|log| - k];
      Interpolates(m, Recent(log), target, LerpPose(m, a.pose, b.pose, AlphaFor(a.t, b.t, target)))
  {
    hide LerpPose, AlphaFor, Ratio, Interpolates;
    var a, b := log[|log| - 1 - k], log[|log| - k];
    AlphaIsRatio(a.t, b.t, target);
    var s := Recent(log);
    assert s[|s| - 1 - k] == a && s[|s| - k] == b;
    assert Increasing(s);
    BracketInterpolates(m, s, target, |s| - 1 - k);
  }

  lemma BracketInterpolates(m: Math, s: seq<Sample>, target: int, j: nat)
    requires Increasing(s) && j + 1 < |s| && s[j].t <= target < s[j + 1].t
    ensures Interpolates(m, s, target, LerpPose(m, s[j].pose, s[j + 1].pose, Ratio(s[j].t, s[j + 1].t, target)))
  {
    hide LerpPose, Ratio;
    forall i | 0 <= i < |s| - 1 && s[i].t <= target < s[i + 1].t ensures i == j {
      if i < j { LaterStarts(s, target, i, j); }
      if j < i { LaterStarts(s, target, j, i); }
    }
  }

  lemma LaterStarts(s: seq<Sample>, target: int, i: nat, j: nat)
    requires Increasing(s) && i < j < |s| && target < s[i + 1].t
    ensures target < s[j].t
  {
    if i + 1 < j { assert s[i + 1].t < s[j].t; }
  }

  // Between its neighbours the clamped quotient of seconds is the plain one of nanoseconds.
  lemma AlphaIsRatio(t0: int, t1: int, target: int)
    requires t0 <= target < t1
    ensures AlphaFor(t0, t1, target) == Ratio(t0, t1, target)
  {
    var x, y := (target - t0) as real, (t1 - t0) as real;
    assert Seconds(target - t0) / Seconds(t1 - t0) == x / y;
    assert 0.0 <= x / y <= 1.0;
  }

  // ── the measured interval ──────────────────────────────────────────────────

  predicate GapsWithin(log: seq<Sample>, lo: real, hi: real) {
    forall i :: 0 < i < |log| ==> lo <= Seconds(log[i].t - log[i - 1].t) <= hi
  }

  // From two samples on the interval stays within the gaps accepted since the
  // reset; before that it is the seed.
  lemma {:induction false} IntervalWithinGaps(p: Params, log: seq<Sample>, lo: real, hi: real)
    requires p.Sensible() && GapsWithin(log, lo, hi)
    ensures |log| <= 1 ==> Interval(p, log) == p.seed
    ensures 2 <= |log| ==> lo <= Interval(p, log) <= hi
    decreases |log|
  {
    if 2 < |log| {
      var fewer := log[..|log| - 1];
      assert GapsWithin(fewer, lo, hi);
      hide Seconds, Mix;
      IntervalWithinGaps(p, fewer, lo, hi);
      var dt := Seconds(log[|log| - 1].t - log[|log| - 2].t);
      BlendWithin(Interval(p, fewer), dt, p.ema, lo, hi);
    }
  }

  lemma BlendWithin(a: real, b: real, w: real, lo: real, hi: real)
    requires 0.0 <= w <= 1.0 && lo <= a <= hi && lo <= b <= hi
    ensures lo <= Mix(a, b, w) <= hi
  {
    MixBetween(a, b, w);
  }

  // Every pushed sample is kept unless it is not later than the newest, so the
  // log stays strictly increasing and is the fold of Pushed over all arrivals.
  function Logged(arrivals: seq<Sample>): seq<Sample> {
    if |arrivals| == 0 then [] else Pushed(Logged(arrivals[..|arrivals| - 1]), arrivals[|arrivals| - 1])
  }

  lemma {:induction false} LoggedIncreases(arrivals: seq<Sample>)
    ensures Increasing(Logged(arrivals))
    ensures |arrivals| > 0 ==>
              |Logged(arrivals)| > 0 && arrivals[|arrivals| - 1].t <= Logged(arrivals)[|Logged(arrivals)| - 1].t
    decreases |arrivals|
  {
    if |arrivals| > 0 { LoggedIncreases(arrivals[..|arrivals| - 1]); }
  }

  // In particular nothing of a stream in order is dropped.
  lemma {:induction false} InOrderAllLogged(arrivals: seq<Sample>)
    requires Increasing(arrivals)
    ensures Logged(arrivals) == arrivals
    decreases |arrivals|
  {
    if |arrivals| > 0 {
      InOrderAllLogged(arrivals[..|arrivals| - 1]);
      assert arrivals[..|arrivals| - 1] + [arrivals[|arrivals| - 1]] == arrivals;
    }
  }

  // The last eight samples are at hand.
  lemma RecentEight(log: seq<Sample>, k: nat)
    requires k < 8 && k < |log|
    ensures k < |Recent(log)| && Recent(log)[|Recent(log)| - 1 - k] == log[|log| - 1 - k]
  {
  }

  // The grid lies the measured interval times the factor behind now, within the
  // delay's bounds, and to the nanosecond.
  lemma GridDelay(p: Params, interval: real, now: int)
    requires p.Sensible()
    ensures var d, behind := p.delayFactor * interval, (now - Target(p, interval, now)) as real / 1000000000.0;
      && p.minDelay - 0.000000001 < behind <= p.maxDelay
      && (p.minDelay <= d <= p.maxDelay ==> d - 0.000000001 < behind <= d)
      && (d < p.minDelay ==> behind <= p.minDelay) && (p.maxDelay < d ==> p.maxDelay - 0.000000001 < behind)
  {
    var delay := Delay(p, interval);
    var behind := now - Target(p, interval, now);
    assert behind as real <= delay * 1000000000.0 < behind as real + 1.0;
  }

  // With the factor n more samples at the new interval leave of the old one.
  function Fading(p: Params, n: nat): real {
    if n == 0 then 1.0 else (1.0 - p.ema) * Fading(p, n - 1)
  }

  function Left(share: real, gap: real): real { share * gap }

  lemma FadingStep(p: Params, n: nat)
    ensures Fading(p, 0) == 1.0 && (0 < n ==> Fading(p, n) == Left(1.0 - p.ema, Fading(p, n - 1)))
  {
  }

  lemma AllLeft(gap: real)
    ensures Left(1.0, gap) == gap
  {
  }

  lemma IntervalStepsOn(p: Params, log: seq<Sample>)
    requires 3 <= |log|
    ensures Interval(p, log) ==
            Mix(Interval(p, log[..|log| - 1]), Seconds(log[|log| - 1].t - log[|log| - 2].t), p.ema)
  {
    hide Seconds, Mix;
  }

  lemma {:induction false} IntervalFades(p: Params, log: seq<Sample>, n: nat, dt: real)
    requires 2 <= |log| - n && forall i :: |log| - n <= i < |log| ==> Seconds(log[i].t - log[i - 1].t) == dt
    ensures Interval(p, log) - dt == Left(Fading(p, n), Interval(p, log[..|log| - n]) - dt)
    decreases n
  {
    hide Seconds, Mix, Left, Fading, Interval;
    FadingStep(p, n);
    if n == 0 {
      assert log[..|log|] == log;
      AllLeft(Interval(p, log) - dt);
    } else {
      var fewer := log[..|log| - 1];
      assert fewer[..|fewer| - (n - 1)] == log[..|log| - n];
      IntervalFades(p, fewer, n - 1, dt);
      IntervalStepsOn(p, log);
      ShareTaken(Interval(p, fewer), dt, p.ema, Fading(p, n - 1), Interval(p, log[..|log| - n]) - dt, Fading(p, n));
    }
  }

  // When the stream's interval changes to dt, each further sample takes the share
  // ema of what is left of the difference.
  lemma IntervalSettles(p: Params, log: seq<Sample>, n: nat, dt: real)
    requires 2 <= |log| - n && forall i :: |log| - n <= i < |log| ==> Seconds(log[i].t - log[i - 1].t) == dt
    ensures Interval(p, log) - dt == Fading(p, n) * (Interval(p, log[..|log| - n]) - dt)
  {
    hide Seconds, Interval, Fading;
    IntervalFades(p, log, n, dt);
  }

  lemma ShareTaken(before: real, dt: real, ema: real, fading: real, gap: real, next: real)
    requires before - dt == Left(fading, gap) && next == Left(1.0 - ema, fading)
    ensures Mix(before, dt, ema) - dt == Left(next, gap)
  {
    assert Mix(before, dt, ema) - dt == (1.0 - ema) * (before - dt);
    Regrouped(1.0 - ema, fading, gap, before - dt, next);
  }

  lemma Regrouped(k: real, x: real, y: real, z: real, next: real)
    requires z == x * y && next == k * x
    ensures k * z == next * y
  {
    assert k * (x * y) == (k * x) * y;
  }

  // A coordinate that moves at a constant rate comes out exactly.
  lemma LinearMotionSampled(m: Math, a: SmplPose, b: SmplPose, t0: int, t1: int, target: int, j: nat, i: nat,
                            c: real, s: real)
    requires t0 <= target < t1 && j < 24 && i < 6
    ensures var out := LerpPose(m, a, b, Ratio(t0, t1, target)); var at := (t: int) => c + s * t as real;
      && (a.joints[j].x == at(t0) && b.joints[j].x == at(t1) ==> out.joints[j].x == at(target))
      && (a.joints[j].y == at(t0) && b.joints[j].y == at(t1) ==> out.joints[j].y == at(target))
      && (a.joints[j].z == at(t0) && b.joints[j].z == at(t1) ==> out.joints[j].z == at(target))
      && (a.wrists[i] == at(t0) && b.wrists[i] == at(t1) ==> out.wrists[i] == at(target))
      && out.anchor == Slerp(m, a.anchor, b.anchor, Ratio(t0, t1, target))
  {
    hide Slerp;
    LineKept(c, s, t0, t1, target);
  }

  lemma LineKept(c: real, s: real, t0: int, t1: int, target: int)
    requires t0 < t1
    ensures LerpReal(c + s * t0 as real, c + s * t1 as real, Ratio(t0, t1, target)) == c + s * target as real
  {
    var span := t1 as real - t0 as real;
    var r := Ratio(t0, t1, target);
    assert r * span == target as real - t0 as real;
    assert LerpReal(c + s * t0 as real, c + s * t1 as real, r) == c + s * t0 as real + s * (r * span);
  }
}
