// The policy's state history: the ring of include/control/state_logger.hpp and
// the observation blocks of fill_obs in src/control/policy_decoder.cpp.
module StateHistory {
  import opened Geometry
  import opened Numbers
  import opened Rotations
  import opened JointOrder

  datatype Entry = Entry(baseQuat: Quat, angVel: Vec3, bodyQ: Joints, bodyDq: Joints, lastAction: Joints)

  // The padding entry; its quaternion is all zero.
  function Zero(): Entry {
    var none: Joints := seq(JOINTS, _ => 0.0);
    Entry(Quat(0.0, 0.0, 0.0, 0.0), Vec3(0.0, 0.0, 0.0), none, none, none)
  }

  // The last n of an unbounded log, oldest first, padded with zero entries in front.
  function Latest(log: seq<Entry>, n: nat): (r: seq<Entry>)
    ensures |r| == n
  {
    var have := MinNat(n, |log|);
    seq(n - have, _ => Zero()) + log[|log| - have..]
  }

  // The slot of the j-th oldest entry.
  function Slot(start: nat, j: nat, capacity: nat): nat
    requires start < capacity && j <= capacity
  {
    if start + j < capacity then start + j else start + j - capacity
  }

  lemma SlotIsModulo(start: nat, j: nat, capacity: nat)
    requires start < capacity && j <= capacity
    ensures (start + j) % capacity == Slot(start, j, capacity) < capacity
  {
    if start + j < capacity { Remainder(start + j, capacity, 0); } else { Remainder(start + j, capacity, 1); }
  }

  lemma Remainder(i: nat, capacity: nat, q: nat)
    requires 0 < capacity && q * capacity <= i < q * capacity + capacity
    ensures i % capacity == i - q * capacity
  {
    var r := i - q * capacity;
    var e := i / capacity - q;
    assert i == capacity * (i / capacity) + i % capacity;
    assert capacity * e == r - i % capacity;
    if 0 < e { AtLeastOnce(capacity, e); }
    if e < 0 { AtLeastOnce(capacity, -e); }
  }

  lemma AtLeastOnce(c: nat, e: nat)
    requires 0 < e
    ensures c <= c * e
  {
  }

  predicate Mirrors(ring: seq<Entry>, start: nat, size: nat, log: seq<Entry>) {
    && start < |ring| && size == MinNat(|log|, |ring|) && (size < |ring| ==> start == 0)
    && forall j :: 0 <= j < size ==> ring[Slot(start, j, |ring|)] == log[|log| - size + j]
  }

  lemma LogMirrors(ring: seq<Entry>, start: nat, size: nat, log: seq<Entry>, e: Entry, next: nat)
    requires Mirrors(ring, start, size, log)
    requires next == if size < |ring| then start else Slot(start, 1, |ring|)
    ensures Mirrors(ring[Slot(start, size, |ring|) := e], next, MinNat(|log| + 1, |ring|), log + [e])
  {
    var after, size', log' := ring[Slot(start, size, |ring|) := e], MinNat(|log| + 1, |ring|), log + [e];
    forall j | 0 <= j < size' ensures after[Slot(next, j, |ring|)] == log'[|log'| - size' + j] {
      if j < size' - 1 {
        var j0 := if size < |ring| then j else j + 1;
        assert Slot(next, j, |ring|) == Slot(start, j0, |ring|) != Slot(start, size, |ring|);
      } else {
        assert Slot(next, j, |ring|) == Slot(start, size, |ring|);
      }
    }
  }

  class StateLogger {
    const capacity: nat
    const ring: array<Entry>
    var start: nat
    var size: nat
    ghost var log: seq<Entry>

    ghost predicate Valid()
      reads this, ring
    {
      capacity == ring.Length && Mirrors(ring[..], start, size, log)
    }

    constructor (capacity: nat)
      requires 0 < capacity
      ensures Valid() && log == [] && this.capacity == capacity && fresh(ring)
    {
      this.capacity := capacity;
      ring := new Entry[capacity](_ => Zero());
      start, size, log := 0, 0, [];
    }

    method Log(e: Entry)
      requires Valid()
      modifies this, ring
      ensures Valid() && log == old(log) + [e]
    {
      ghost var after := ring[..][Slot(start, size, capacity) := e];
      SlotIsModulo(start, size, capacity);
      SlotIsModulo(start, 1, capacity);
      LogMirrors(ring[..], start, size, log, e, if size < capacity then start else Slot(start, 1, capacity));
      ring[(start + size) % capacity] := e;
      assert ring[..] == after;
      if size < capacity { size := size + 1; } else { start := (start + 1) % capacity; }
      log := log + [e];
    }

    // Up to the capacity this is the unbounded log's answer; beyond it the answer
    // for what the ring still holds.
    method GetLatest(n: nat) returns (out: seq<Entry>)
      requires Valid()
      ensures out == Latest(log[|log| - MinNat(|log|, capacity)..], n)
      ensures n <= capacity ==> out == Latest(log, n)
    {
      hide Latest, Zero;
      out := seq(n, _ => Zero());
      var have := if n < size then n else size;
      for j := 0 to have
        invariant |out| == n
        invariant forall i :: 0 <= i < n - have ==> out[i] == Zero()
        invariant forall i :: n - have <= i < n - have + j ==> out[i] == log[|log| - n + i]
      {
        var idx := (start + size - have + j) % capacity;
        RingAt(ring[..], start, size, log, size - have + j);
        out := out[n - have + j := ring[idx]];
      }
      LatestHeld(log, capacity, n, out);
    }
  }

  lemma RingAt(ring: seq<Entry>, start: nat, size: nat, log: seq<Entry>, j: nat)
    requires Mirrors(ring, start, size, log) && j < size
    ensures 0 <= (start + j) % |ring| < |ring| && ring[(start + j) % |ring|] == log[|log| - size + j]
  {
    SlotIsModulo(start, j, |ring|);
    assert ring[Slot(start, j, |ring|)] == log[|log| - size + j];
  }

  lemma LatestHeld(log: seq<Entry>, capacity: nat, n: nat, out: seq<Entry>)
    requires |out| == n
    requires var size := MinNat(|log|, capacity); var have := MinNat(n, size);
      && (forall i :: 0 <= i < n - have ==> out[i] == Zero())
      && (forall i :: n - have <= i < n ==> out[i] == log[|log| - n + i])
    ensures out == Latest(log[|log| - MinNat(|log|, capacity)..], n)
    ensures n <= capacity ==> out == Latest(log, n)
  {
  }

  // ── the policy observation ─────────────────────────────────────────────────

  const FRAMES := 10
  const INPUT_DIM := 994

  datatype Block = AngVel | BodyQ | BodyDq | LastAction | Gravity

  function Width(b: Block): nat { if b.AngVel? || b.Gravity? then 3 else JOINTS }

  function Offset(b: Block): nat {
    match b
    case AngVel => 64
    case BodyQ => 94
    case BodyDq => 384
    case LastAction => 674
    case Gravity => 964
  }

  function Components(v: Vec3): seq<real> { [v.x, v.y, v.z] }

  // What one history frame contributes to a block.
  function Part(b: Block, e: Entry): (r: seq<real>)
    ensures |r| == Width(b)
  {
    match b
    case AngVel => Components(e.angVel)
    case BodyQ => e.bodyQ
    case BodyDq => e.bodyDq
    case LastAction => e.lastAction
    case Gravity => Components(Down(e.baseQuat))
  }

  // A block of the first f frames, oldest first.
  function Flat(b: Block, hist: seq<Entry>, f: nat): (r: seq<real>)
    requires f <= |hist|
    ensures |r| == f * Width(b)
  {
    if f == 0 then [] else Flat(b, hist, f - 1) + Part(b, hist[f - 1])
  }

  // The 930 inputs after the token.
  function Observation(hist: seq<Entry>): seq<real>
    requires |hist| == FRAMES
  {
    Flat(AngVel, hist, FRAMES) + Flat(BodyQ, hist, FRAMES) + Flat(BodyDq, hist, FRAMES)
      + Flat(LastAction, hist, FRAMES) + Flat(Gravity, hist, FRAMES)
  }

  predicate Filled(dst: seq<real>, b: Block, hist: seq<Entry>, f: nat)
    requires f <= |hist| && f <= FRAMES && |dst| == INPUT_DIM
  {
    dst[Offset(b)..Offset(b) + f * Width(b)] == Flat(b, hist, f)
  }

  predicate SameOutside(before: seq<real>, after: seq<real>, at: nat, n: nat) {
    && |before| == |after|
    && (forall i :: 0 <= i < at && i < |before| ==> before[i] == after[i])
    && (forall i :: at + n <= i < |before| ==> before[i] == after[i])
  }

  method WriteAt(dst: array<real>, at: nat, values: seq<real>)
    requires at + |values| <= dst.Length
    modifies dst
    ensures SameOutside(old(dst[..]), dst[..], at, |values|) && dst[at..at + |values|] == values
  {
    for i := 0 to |values|
      invariant forall k :: 0 <= k < at ==> dst[k] == old(dst[k])
      invariant forall k :: at + |values| <= k < dst.Length ==> dst[k] == old(dst[k])
      invariant dst[at..at + i] == values[..i]
    {
      dst[at + i] := values[i];
    }
  }

  lemma PartExtends(before: seq<real>, after: seq<real>, b: Block, hist: seq<Entry>, f: nat)
    requires f < |hist| && f < FRAMES && |before| == |after| == INPUT_DIM && Filled(before, b, hist, f)
    requires SameOutside(before, after, Offset(b) + f * Width(b), Width(b))
    requires after[Offset(b) + f * Width(b)..Offset(b) + f * Width(b) + Width(b)] == Part(b, hist[f])
    ensures Filled(after, b, hist, f + 1)
  {
    hide Part;
    var o, w := Offset(b), Width(b);
    BlockFits(b, f);
    NextMultiple(f, w);
    SliceExtends(before, after, o, f * w, w);
    assert Flat(b, hist, f + 1) == Flat(b, hist, f) + Part(b, hist[f]);
  }

  lemma BlockFits(b: Block, f: nat)
    requires f < FRAMES
    ensures Offset(b) + f * Width(b) + Width(b) <= INPUT_DIM
  {
  }

  lemma NextMultiple(f: nat, w: nat)
    ensures (f + 1) * w == f * w + w
  {
  }

  lemma SliceExtends(before: seq<real>, after: seq<real>, o: nat, n: nat, w: nat)
    requires o + n + w <= |before| && SameOutside(before, after, o + n, w)
    ensures |after| == |before| && after[o..o + (n + w)] == before[o..o + n] + after[o + n..o + n + w]
  {
  }

  // Writing into block c leaves what block b holds alone.
  lemma OtherBlockKept(before: seq<real>, after: seq<real>, b: Block, c: Block, hist: seq<Entry>, f: nat, g: nat)
    requires b != c && f <= |hist| && f <= FRAMES && g < FRAMES && |before| == |after| == INPUT_DIM
    requires Filled(before, b, hist, f) && SameOutside(before, after, Offset(c) + g * Width(c), Width(c))
    ensures Filled(after, b, hist, f)
  {
    BlocksApart(b, c, f, g);
    SliceKept(before, after, Offset(b), f * Width(b), Offset(c) + g * Width(c), Width(c));
  }

  lemma BlocksApart(b: Block, c: Block, f: nat, g: nat)
    requires b != c && f <= FRAMES && g < FRAMES
    ensures Offset(b) + f * Width(b) <= INPUT_DIM
    ensures Offset(b) + f * Width(b) <= Offset(c) + g * Width(c) || Offset(c) + g * Width(c) + Width(c) <= Offset(b)
  {
  }

  lemma SliceKept(before: seq<real>, after: seq<real>, o: nat, n: nat, at: nat, w: nat)
    requires o + n <= |before| && SameOutside(before, after, at, w) && (o + n <= at || at + w <= o)
    ensures |after| == |before| && after[o..o + n] == before[o..o + n]
  {
  }

  function Order(b: Block): nat {
    match b
    case AngVel => 0
    case BodyQ => 1
    case BodyDq => 2
    case LastAction => 3
    case Gravity => 4
  }

  function Level(b: Block, f: nat, k: nat): nat { if Order(b) < k then f + 1 else f }

  // Frames before f are in all blocks, frame f in the first k of them.
  predicate AllFilled(dst: seq<real>, hist: seq<Entry>, f: nat, k: nat)
    requires f < |hist| && f < FRAMES && |dst| == INPUT_DIM
  {
    forall b: Block :: Filled(dst, b, hist, Level(b, f, k))
  }

  lemma BlockStep(before: seq<real>, after: seq<real>, c: Block, hist: seq<Entry>, f: nat)
    requires f < |hist| && f < FRAMES && |before| == |after| == INPUT_DIM
    requires AllFilled(before, hist, f, Order(c))
    requires SameOutside(before, after, Offset(c) + f * Width(c), Width(c))
    requires after[Offset(c) + f * Width(c)..Offset(c) + f * Width(c) + Width(c)] == Part(c, hist[f])
    ensures AllFilled(after, hist, f, Order(c) + 1)
  {
    hide Filled, SameOutside, Part;
    var k := Order(c) + 1;
    forall b: Block ensures Filled(after, b, hist, Level(b, f, k)) {
      assert Filled(before, b, hist, Level(b, f, Order(c)));
      if b == c {
        PartExtends(before, after, b, hist, f);
      } else {
        OtherBlockKept(before, after, b, c, hist, Level(b, f, Order(c)), f);
      }
    }
  }

  method WritePart(dst: array<real>, c: Block, hist: seq<Entry>, f: nat)
    requires dst.Length == INPUT_DIM && |hist| == FRAMES && f < FRAMES && AllFilled(dst[..], hist, f, Order(c))
    modifies dst
    ensures AllFilled(dst[..], hist, f, Order(c) + 1) && dst[..64] == old(dst[..64])
  {
    hide AllFilled, Part;
    ghost var before := dst[..];
    WriteAt(dst, Offset(c) + f * Width(c), Part(c, hist[f]));
    BlockStep(before, dst[..], c, hist, f);
  }

  // fill_obs: the ten frames of the history into their five blocks.
  method FillObs(dst: array<real>, hist: seq<Entry>)
    requires dst.Length == INPUT_DIM && |hist| == FRAMES
    modifies dst
    ensures dst[..] == old(dst[..64]) + Observation(hist)
  {
    hide Filled, Part;
    NothingFilled(dst[..], hist);
    for f := 0 to FRAMES
      invariant dst[..64] == old(dst[..64])
      invariant forall b: Block :: Filled(dst[..], b, hist, f)
    {
      WritePart(dst, AngVel, hist, f);
      WritePart(dst, BodyQ, hist, f);
      WritePart(dst, BodyDq, hist, f);
      WritePart(dst, LastAction, hist, f);
      WritePart(dst, Gravity, hist, f);
      FrameDone(dst[..], hist, f, f + 1);
    }
    BlocksTile(dst[..], hist);
  }

  lemma FrameDone(dst: seq<real>, hist: seq<Entry>, f: nat, next: nat)
    requires f < |hist| && f < FRAMES && |dst| == INPUT_DIM && AllFilled(dst, hist, f, 5) && next == f + 1
    ensures forall b: Block :: Filled(dst, b, hist, next)
  {
    hide Filled;
    forall b: Block ensures Filled(dst, b, hist, next) {
      assert Filled(dst, b, hist, Level(b, f, 5));
    }
  }

  lemma NothingFilled(dst: seq<real>, hist: seq<Entry>)
    requires |dst| == INPUT_DIM
    ensures forall b: Block :: Filled(dst, b, hist, 0)
  {
  }

  // The five blocks tile the inputs after the token, so every one of them is
  // determined by the history.
  lemma BlocksTile(dst: seq<real>, hist: seq<Entry>)
    requires |dst| == INPUT_DIM && |hist| == FRAMES
    requires forall b: Block :: Filled(dst, b, hist, FRAMES)
    ensures dst == dst[..64] + Observation(hist)
  {
    hide Flat;
    assert Filled(dst, AngVel, hist, FRAMES) && Filled(dst, BodyQ, hist, FRAMES) && Filled(dst, BodyDq, hist, FRAMES);
    assert Filled(dst, LastAction, hist, FRAMES) && Filled(dst, Gravity, hist, FRAMES);
    assert dst == dst[..64] + dst[64..94] + dst[94..384] + dst[384..674] + dst[674..964] + dst[964..994];
  }

  // Entry f of block b is component i of the f-th oldest of the last ten logged
  // entries, or of the zero entry where fewer were logged.
  lemma {:induction false} FlatAt(b: Block, hist: seq<Entry>, n: nat, f: nat, i: nat)
    requires f < n <= |hist| && i < Width(b)
    ensures f * Width(b) + i < n * Width(b) && Flat(b, hist, n)[f * Width(b) + i] == Part(b, hist[f])[i]
    decreases n
  {
    hide Part;
    if f < n - 1 { FlatAt(b, hist, n - 1, f, i); }
  }

  lemma LatestAt(log: seq<Entry>, n: nat, f: nat)
    requires f < n
    ensures Latest(log, n)[f] == if f + |log| < n then Zero() else log[|log| + f - n]
  {
  }

  // Where each quantity of history frame f lies in the policy's 994 inputs.
  lemma InputsAre(token: seq<real>, hist: seq<Entry>, f: nat, i: nat, j: nat)
    requires |token| == 64 && |hist| == FRAMES && f < FRAMES && i < 3 && j < JOINTS
    ensures |token + Observation(hist)| == 994
    ensures var dst, e := token + Observation(hist), hist[f];
      && dst[64 + f * 3 + i] == Components(e.angVel)[i]
      && dst[94 + f * 29 + j] == e.bodyQ[j]
      && dst[384 + f * 29 + j] == e.bodyDq[j]
      && dst[674 + f * 29 + j] == e.lastAction[j]
      && dst[964 + f * 3 + i] == Components(Down(e.baseQuat))[i]
  {
    FlatAt(AngVel, hist, FRAMES, f, i);
    FlatAt(BodyQ, hist, FRAMES, f, j);
    FlatAt(BodyDq, hist, FRAMES, f, j);
    FlatAt(LastAction, hist, FRAMES, f, j);
    FlatAt(Gravity, hist, FRAMES, f, i);
    hide Flat, Components;
    var a, b, c := Flat(AngVel, hist, FRAMES), Flat(BodyQ, hist, FRAMES), Flat(BodyDq, hist, FRAMES);
    var d, g := Flat(LastAction, hist, FRAMES), Flat(Gravity, hist, FRAMES);
    FiveParts(token, a, b, c, d, g, f * 3 + i, f * 29 + j);
  }

  // Gravity's direction as the tilted body sees it.
  function Down(q: Quat): Vec3 { Rotate(q.Conj(), Vec3(0.0, 0.0, -1.0)) }

  lemma FiveParts(t: seq<real>, a: seq<real>, b: seq<real>, c: seq<real>, d: seq<real>, g: seq<real>, i: nat, j: nat)
    requires |t| == 64 && |a| == |g| == 30 && |b| == |c| == |d| == 290 && i < 30 && j < 290
    ensures var s := t + (a + b + c + d + g);
      |s| == 994 && s[64 + i] == a[i] && s[94 + j] == b[j] && s[384 + j] == c[j] && s[674 + j] == d[j]
      && s[964 + i] == g[i]
  {
  }

  // Turned back into the world it points down.
  lemma DownIsDown(q: Quat)
    requires q.Unit()
    ensures Rotate(q, Down(q)) == Vec3(0.0, 0.0, -1.0)
  {
    hide QuatMul, Rotate, Quat.Unit, Quat.Conj;
    ConjUnit(q);
    RotateTwice(q, q.Conj(), Vec3(0.0, 0.0, -1.0));
    MulInverse(q);
    RotateByOne(Vec3(0.0, 0.0, -1.0));
  }

  // ── the action remap ───────────────────────────────────────────────────────

  function MotorTarget(action: Joints, defaults: Joints, scale: Joints, i: nat): real
    requires i < JOINTS
  {
    Permutations();
    defaults[i] + action[ISAACLAB_OF[i]] * scale[i]
  }

  // gather_robot_state's joint i for measured motor positions q.
  function LoggedJoint(q: Joints, defaults: Joints, i: nat): real
    requires i < JOINTS
  {
    Permutations();
    q[MUJOCO_OF[i]] - defaults[MUJOCO_OF[i]]
  }

  // Without an action the targets are the default pose, which is logged as zero.
  lemma DefaultPoseIsZero(action: Joints, defaults: Joints, scale: Joints, i: nat)
    requires i < JOINTS && forall k :: 0 <= k < JOINTS ==> action[k] == 0.0
    ensures MotorTarget(action, defaults, scale, i) == defaults[i] && LoggedJoint(defaults, defaults, i) == 0.0
  {
    Permutations();
  }

  // Motors that reach their targets are logged as the scaled action, in the policy's own order.
  lemma ReachedTargetsLogTheAction(action: Joints, defaults: Joints, scale: Joints, q: Joints, i: nat)
    requires i < JOINTS
    requires forall k: nat :: k < JOINTS ==> q[k] == MotorTarget(action, defaults, scale, k)
    ensures 0 <= MUJOCO_OF[i] < JOINTS
    ensures LoggedJoint(q, defaults, i) == action[i] * scale[MUJOCO_OF[i]]
  {
    Permutations();
    assert q[MUJOCO_OF[i]] == MotorTarget(action, defaults, scale, MUJOCO_OF[i]);
    assert ISAACLAB_OF[MUJOCO_OF[i]] == i;
  }
}
