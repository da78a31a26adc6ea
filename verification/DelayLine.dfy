// The full-body delay line (process_fullbody in src/teleop/teleop_tracker.cpp):
// a ring of 16 grid poses and the ten-frame window read from it, five ticks late.
module DelayLine {
  import Resampler = SmplResampler

  type SmplPose = Resampler.SmplPose

  const HISTORY := 16
  const FRAMES := 10
  const LOOKAHEAD := 5

  // Ticks behind the newest pose that frame f is, of count poses.
  function Depth(f: nat, count: nat): (d: nat)
    requires f < FRAMES && 0 < count
    ensures d < count && d <= LOOKAHEAD
  {
    var d := LOOKAHEAD - f;
    var held := if d < count - 1 then d else count - 1;
    if held < 0 then 0 else held
  }

  // The window over all poses since the engage.
  function Window(log: seq<SmplPose>): (w: seq<SmplPose>)
    requires 0 < |log|
    ensures |w| == FRAMES
  {
    seq(FRAMES, f requires 0 <= f < FRAMES => log[|log| - 1 - Depth(f, |log|)])
  }

  function Behind(head: nat, d: nat): (r: nat)
    requires head < HISTORY && d < HISTORY
    ensures r < HISTORY && r == (head + HISTORY - d) % HISTORY
  {
    if d <= head then head - d else head + HISTORY - d
  }

  predicate Mirrors(ring: seq<SmplPose>, head: nat, log: seq<SmplPose>) {
    && |ring| == HISTORY && head < HISTORY
    && forall d :: 0 <= d < HISTORY && d < |log| ==> ring[Behind(head, d)] == log[|log| - 1 - d]
  }

  lemma PushMirrors(ring: seq<SmplPose>, head: nat, log: seq<SmplPose>, p: SmplPose, next: nat)
    requires Mirrors(ring, head, log) && next == if |log| == 0 then 0 else (head + 1) % HISTORY
    ensures Mirrors(ring[next := p], next, log + [p])
  {
    var after, log' := ring[next := p], log + [p];
    forall d | 0 <= d < HISTORY && d < |log'| ensures after[Behind(next, d)] == log'[|log'| - 1 - d] {
      if d > 0 {
        assert Behind(next, d) == Behind(head, d - 1) != next;
        assert ring[Behind(head, d - 1)] == log[|log| - 1 - (d - 1)];
      }
    }
  }

  class Line {
    const history: array<SmplPose>
    var count: nat
    var head: nat
    ghost var log: seq<SmplPose>

    ghost predicate Valid()
      reads this, history
    {
      && history.Length == HISTORY && Mirrors(history[..], head, log)
      && count == if |log| < HISTORY then |log| else HISTORY
    }

    constructor (idle: SmplPose)
      ensures Valid() && log == [] && fresh(history)
    {
      history := new SmplPose[HISTORY](_ => idle);
      count, head, log := 0, 0, [];
    }

    // Both an engage and a disengage drop the history.
    method Drop()
      requires Valid()
      modifies this
      ensures Valid() && log == []
    {
      count := 0;
      log := [];
    }

    method Process(pose: SmplPose) returns (w: seq<SmplPose>)
      requires Valid()
      modifies this, history
      ensures Valid() && log == old(log) + [pose] && w == Window(log)
    {
      hide Mirrors;
      HeadInRange(history[..], head, log);
      var next: nat := if count == 0 then 0 else (head + 1) % HISTORY;
      PushMirrors(history[..], head, log, pose, next);
      ghost var after := history[..][next := pose];
      head := next;
      history[head] := pose;
      assert history[..] == after;
      if count < HISTORY { count := count + 1; }
      log := log + [pose];
      w := ReadWindow();
    }

    method ReadWindow() returns (w: seq<SmplPose>)
      requires Valid() && 0 < count
      ensures w == Window(log)
    {
      hide Mirrors;
      w := [];
      for f := 0 to FRAMES
        invariant |w| == f && forall i :: 0 <= i < f ==> w[i] == Window(log)[i]
      {
        var depth := LOOKAHEAD - f;
        if count - 1 < depth { depth := count - 1; }
        if depth < 0 { depth := 0; }
        MirroredAt(history[..], head, log, depth);
        w := w + [history[(head + HISTORY - depth) % HISTORY]];
      }
    }
  }

  lemma HeadInRange(ring: seq<SmplPose>, head: nat, log: seq<SmplPose>)
    requires Mirrors(ring, head, log)
    ensures head < HISTORY
  {
  }

  lemma MirroredAt(ring: seq<SmplPose>, head: nat, log: seq<SmplPose>, d: nat)
    requires Mirrors(ring, head, log) && d < HISTORY && d < |log|
    ensures head < HISTORY && (head + HISTORY - d) % HISTORY < |ring|
    ensures ring[(head + HISTORY - d) % HISTORY] == log[|log| - 1 - d]
  {
    assert ring[Behind(head, d)] == log[|log| - 1 - d];
  }

  // From tick to tick the tracked frames move up by one, warm-up included, so
  // that the window is a 50 Hz trajectory; the frames past them hold the newest.
  lemma WindowShifts(log: seq<SmplPose>, next: SmplPose, f: nat)
    requires 0 < |log| && f < FRAMES
    ensures f < LOOKAHEAD ==> Window(log + [next])[f] == Window(log)[f + 1]
    ensures LOOKAHEAD <= f ==> Window(log + [next])[f] == next
  {
  }

  // Frame f is the pose 5 - f ticks old, the newest from frame 5 on, and during
  // warm-up at most the oldest pose there is.
  lemma WindowAges(log: seq<SmplPose>, f: nat)
    requires 0 < |log| && f < 10
    ensures var age := if f < 5 then 5 - f else 0;
      |Window(log)| == 10 && Window(log)[f] == if age < |log| then log[|log| - 1 - age] else log[0]
  {
  }
}
