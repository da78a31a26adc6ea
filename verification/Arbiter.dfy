// The control-source arbitration stage (include/control/control_arbiter.hpp).
module Arbiter {
  import opened Geometry
  import opened Optional

  datatype Mode = Normal | Teleop | Vla | Recovering

  const RECOVERY_TICKS := 50
  const HANDOFF_TICKS := 35
  const DIM := 64

  type Token = t: seq<real> | |t| == DIM witness seq(DIM, _ => 0.0)

  // The transition function.
  function Decide(current: Mode, vlaFresh: bool, vlaAlive: bool, calibrated: bool, recoveryDone: bool): Mode {
    match current
    case Normal => if vlaFresh then Vla else if calibrated then Teleop else Normal
    case Teleop => if calibrated then Teleop else Normal
    case Vla => if vlaAlive then Vla else Recovering
    case Recovering => if recoveryDone then Normal else Recovering
  }

  function MixToken(a: Token, b: Token, w: real): Token {
    seq(DIM, i requires 0 <= i < DIM => Mix(a[i], b[i], w))
  }

  // held is the last commanded token, blend the recovery's tick, handoff the
  // outputs left of an armed crossfade.
  datatype Stage = Stage(mode: Mode, held: Token, blend: nat, handoff: nat)

  function Start(standing: Token): Stage { Stage(Normal, standing, 0, 0) }

  function Transition(s: Stage, vlaFresh: bool, vlaAlive: bool, calibrated: bool, recoveryDone: bool): Stage {
    var next := Decide(s.mode, vlaFresh, vlaAlive, calibrated, recoveryDone);
    if next == s.mode then s
    else
      Stage(next, s.held, if next.Recovering? then 0 else s.blend,
            if (s.mode.Recovering? && next.Normal?) || next.Vla? then HANDOFF_TICKS else s.handoff)
  }

  // A fed token passes through, or is crossfaded in while a handoff is armed.
  function Feed(s: Stage, fed: Token): Stage {
    if s.handoff > 0 then
      s.(held := MixToken(s.held, fed, 1.0 - s.handoff as real / HANDOFF_TICKS as real), handoff := s.handoff - 1)
    else s.(held := fed)
  }

  function Settle(s: Stage, standing: Token): Stage {
    var tick := if s.blend < RECOVERY_TICKS then s.blend + 1 else s.blend;
    s.(blend := tick, held := MixToken(s.held, standing, tick as real / RECOVERY_TICKS as real))
  }

  // The token the mode needs is there: the stream's in kVla, the encoder's in kNormal and kTeleop.
  predicate Supplied(s: Stage, encoder: Option<Token>, vla: Option<Token>) {
    match s.mode
    case Vla => vla.Some?
    case Recovering => true
    case _ => encoder.Some?
  }

  // After a select the output is the held token.
  function Select(s: Stage, standing: Token, encoder: Option<Token>, vla: Option<Token>): Stage
    requires Supplied(s, encoder, vla)
  {
    match s.mode
    case Vla => Feed(s, vla.value)
    case Recovering => Settle(s, standing)
    case _ => Feed(s, encoder.value)
  }

  class ControlArbiter {
    const standing: Token
    var mode: Mode
    var held: Token
    var blend: nat
    var handoff: nat

    ghost function View(): Stage
      reads this
    {
      Stage(mode, held, blend, handoff)
    }

    constructor (standing: Token)
      ensures this.standing == standing && View() == Start(standing)
    {
      this.standing := standing;
      mode, held, blend, handoff := Normal, standing, 0, 0;
    }

    method StepMode(vlaFresh: bool, vlaAlive: bool, calibrated: bool, recoveryDone: bool) returns (next: Mode)
      modifies this
      ensures View() == Transition(old(View()), vlaFresh, vlaAlive, calibrated, recoveryDone)
      ensures next == mode
    {
      var cur := mode;
      next := Decide(cur, vlaFresh, vlaAlive, calibrated, recoveryDone);
      if next != cur {
        if next == Recovering { blend := 0; }
        if (cur == Recovering && next == Normal) || next == Vla { handoff := HANDOFF_TICKS; }
        mode := next;
      }
    }

    method ArmHandoff()
      modifies this
      ensures View() == old(View()).(handoff := HANDOFF_TICKS)
    {
      handoff := HANDOFF_TICKS;
    }

    method MixHeld(other: Token, w: real) returns (out: Token)
      ensures out == MixToken(held, other, w)
    {
      var acc: seq<real> := [];
      for i := 0 to DIM
        invariant |acc| == i && forall k :: 0 <= k < i ==> acc[k] == Mix(held[k], other[k], w)
      {
        acc := acc + [(1.0 - w) * held[i] + w * other[i]];
      }
      out := acc;
    }

    method SelectToken(encoder: Option<Token>, vla: Option<Token>) returns (out: Token)
      requires Supplied(View(), encoder, vla)
      modifies this
      ensures View() == Select(old(View()), standing, encoder, vla) && out == held
    {
      if mode == Recovering {
        if blend < RECOVERY_TICKS { blend := blend + 1; }
        held := MixHeld(standing, blend as real / RECOVERY_TICKS as real);
        return held;
      }
      out := if mode == Vla then vla.value else encoder.value;
      if handoff > 0 {
        out := MixHeld(out, 1.0 - handoff as real / HANDOFF_TICKS as real);
        handoff := handoff - 1;
      }
      held := out;
    }
  }

  // ── runs ───────────────────────────────────────────────────────────────────

  datatype Act =
    | Stepped(vlaFresh: bool, vlaAlive: bool, calibrated: bool, recoveryDone: bool)
    | Armed
    | Selected(encoder: Option<Token>, vla: Option<Token>)

  predicate CanAct(s: Stage, a: Act) { a.Selected? ==> Supplied(s, a.encoder, a.vla) }

  function Perform(s: Stage, standing: Token, a: Act): Stage
    requires CanAct(s, a)
  {
    match a
    case Stepped(f, l, c, d) => Transition(s, f, l, c, d)
    case Armed => s.(handoff := HANDOFF_TICKS)
    case Selected(encoder, vla) => Select(s, standing, encoder, vla)
  }

  predicate CanPerform(standing: Token, acts: seq<Act>)
    decreases |acts|, 0
  {
    |acts| == 0 ||
    (CanPerform(standing, acts[..|acts| - 1]) && CanAct(After(standing, acts[..|acts| - 1]), acts[|acts| - 1]))
  }

  function After(standing: Token, acts: seq<Act>): Stage
    requires CanPerform(standing, acts)
    decreases |acts|, 1
  {
    if |acts| == 0 then Start(standing) else Perform(After(standing, acts[..|acts| - 1]), standing, acts[|acts| - 1])
  }

  predicate Within(t: Token, lo: Token, hi: Token) { forall i :: 0 <= i < DIM ==> lo[i] <= t[i] <= hi[i] }

  predicate FedWithin(a: Act, lo: Token, hi: Token) {
    a.Selected? ==>
      && (a.encoder.Some? ==> Within(a.encoder.value, lo, hi))
      && (a.vla.Some? ==> Within(a.vla.value, lo, hi))
  }

  lemma MixWithin(a: Token, b: Token, w: real, lo: Token, hi: Token)
    requires 0.0 <= w <= 1.0 && Within(a, lo, hi) && Within(b, lo, hi)
    ensures Within(MixToken(a, b, w), lo, hi)
  {
    forall i | 0 <= i < DIM ensures lo[i] <= MixToken(a, b, w)[i] <= hi[i] {
      MixBetween(a[i], b[i], w);
    }
  }

  // Every commanded token lies, coordinate by coordinate, in every box that
  // holds the standing token and all tokens fed so far; the counters stay in range.
  lemma {:induction false} CommandsStayInHull(standing: Token, acts: seq<Act>, lo: Token, hi: Token)
    requires CanPerform(standing, acts) && Within(standing, lo, hi)
    requires forall k :: 0 <= k < |acts| ==> FedWithin(acts[k], lo, hi)
    ensures var s := After(standing, acts);
      Within(s.held, lo, hi) && s.blend <= RECOVERY_TICKS && s.handoff <= HANDOFF_TICKS
    decreases |acts|
  {
    if |acts| > 0 {
      hide Within, MixToken;
      CommandsStayInHull(standing, acts[..|acts| - 1], lo, hi);
      var s := After(standing, acts[..|acts| - 1]);
      match acts[|acts| - 1] {
        case Selected(encoder, vla) =>
          assert FedWithin(Selected(encoder, vla), lo, hi);
          if s.mode.Recovering? {
            MixWithin(s.held, standing, Settle(s, standing).blend as real / 50.0, lo, hi);
          } else if s.handoff > 0 {
            MixWithin(s.held, if s.mode.Vla? then vla.value else encoder.value, 1.0 - s.handoff as real / 35.0, lo, hi);
          }
        case _ =>
      }
    }
  }

  // ── handoffs ───────────────────────────────────────────────────────────────

  // The acts after which a handoff is armed: a claim by the stream, the exit of
  // a recovery, and the controller's own arming.
  predicate Arms(s: Stage, a: Act) {
    match a
    case Armed => true
    case Selected(_, _) => false
    case Stepped(f, l, c, d) =>
      var next := Decide(s.mode, f, l, c, d);
      next != s.mode && (next.Vla? || s.mode.Recovering?)
  }

  // Nothing else arms one.
  lemma OnlyArmsArm(s: Stage, standing: Token, a: Act)
    requires CanAct(s, a)
    ensures var t := Perform(s, standing, a);
      && (Arms(s, a) ==> t.handoff == 35)
      && (!Arms(s, a) ==> t.handoff == s.handoff || (a.Selected? && t.handoff == s.handoff - 1))
  {
  }

  // With none armed the output is the owner's own token: the stream's in kVla,
  // the encoder's in kNormal and kTeleop.
  lemma OwnerSpeaks(standing: Token, acts: seq<Act>, encoder: Option<Token>, vla: Option<Token>)
    requires CanPerform(standing, acts) && After(standing, acts).handoff == 0
    ensures var s := After(standing, acts);
      && (s.mode.Vla? ==> (CanAct(s, Selected(encoder, vla)) <==> vla.Some?))
      && (s.mode.Normal? || s.mode.Teleop? ==> (CanAct(s, Selected(encoder, vla)) <==> encoder.Some?))
      && (CanAct(s, Selected(encoder, vla)) ==>
            && CanPerform(standing, acts + [Selected(encoder, vla)])
            && var t := After(standing, acts + [Selected(encoder, vla)]);
              && (s.mode.Vla? ==> Some(t.held) == vla)
              && (s.mode.Normal? || s.mode.Teleop? ==> Some(t.held) == encoder))
  {
    hide MixToken;
    var s, a := After(standing, acts), Selected(encoder, vla);
    if CanAct(s, a) { RunSnoc(standing, acts, a); }
  }

  // The first output of an armed handoff is the last commanded token, whatever
  // token is fed and whatever steps and armings lie between.
  lemma {:induction false} HandoffStartsAtLastOutput(
      standing: Token, acts: seq<Act>, arming: Act, steps: seq<Act>, select: Act)
    requires CanPerform(standing, acts) && CanAct(After(standing, acts), arming)
    requires Arms(After(standing, acts), arming)
    requires forall k :: 0 <= k < |steps| ==> !steps[k].Selected?
    requires select.Selected? && CanPerform(standing, acts + [arming] + steps + [select])
    requires !After(standing, acts + [arming] + steps + [select]).mode.Recovering?
    ensures After(standing, acts + [arming] + steps + [select]).held == After(standing, acts).held
  {
    var run := acts + [arming] + steps + [select];
    assert run[..|run| - 1] == acts + [arming] + steps;
    assert (acts + [arming])[..|acts + [arming]| - 1] == acts;
    hide Decide, CanPerform, After;
    RunSnoc(standing, acts, arming);
    RunSnoc(standing, acts + [arming] + steps, select);
    StepsKeepHandoff(standing, acts + [arming], steps);
    var s := After(standing, acts + [arming] + steps);
    assert s.held == After(standing, acts).held;
    assert forall fed: Token :: MixToken(s.held, fed, 0.0) == s.held;
  }

  lemma RunSnoc(standing: Token, acts: seq<Act>, a: Act)
    requires CanPerform(standing, acts + [a]) || (CanPerform(standing, acts) && CanAct(After(standing, acts), a))
    ensures CanPerform(standing, acts + [a]) && CanPerform(standing, acts) && CanAct(After(standing, acts), a)
    ensures After(standing, acts + [a]) == Perform(After(standing, acts), standing, a)
  {
    hide Perform;
    assert (acts + [a])[..|acts + [a]| - 1] == acts;
  }

  lemma {:induction false} StepsKeepHandoff(standing: Token, acts: seq<Act>, steps: seq<Act>)
    requires CanPerform(standing, acts + steps)
    requires forall k :: 0 <= k < |steps| ==> !steps[k].Selected?
    ensures CanPerform(standing, acts)
    ensures After(standing, acts + steps).held == After(standing, acts).held
    ensures After(standing, acts).handoff == HANDOFF_TICKS ==> After(standing, acts + steps).handoff == HANDOFF_TICKS
    decreases |steps|
  {
    hide CanPerform, After, Decide;
    if |steps| == 0 {
      assert acts + steps == acts;
    } else {
      var fewer, last := steps[..|steps| - 1], steps[|steps| - 1];
      assert acts + steps == (acts + fewer) + [last];
      RunSnoc(standing, acts + fewer, last);
      StepsKeepHandoff(standing, acts, fewer);
    }
  }

  // ── blends ─────────────────────────────────────────────────────────────────

  // The share of the initial gap left after k ticks of a blend whose weight at
  // tick j is j / n.
  function Residual(n: nat, k: nat): real
    requires 0 < n
  {
    if k == 0 then 1.0 else (1.0 - k as real / n as real) * Residual(n, k - 1)
  }

  // The share of the initial gap that tick k covers.
  function Covered(n: nat, k: nat): real
    requires 0 < k <= n
  {
    Residual(n, k - 1) - Residual(n, k)
  }

  lemma {:induction false} ResidualStep(n: nat, k: nat, w: real)
    requires 0 < n && w == k as real / n as real
    ensures Residual(n, 0) == 1.0
    ensures 0 < k ==> Residual(n, k) == Kept(w, Residual(n, k - 1))
  {
  }

  function Kept(w: real, residual: real): real { (1.0 - w) * residual }

  function SettledFor(s: Stage, standing: Token, k: nat): Stage {
    if k == 0 then s else Settle(SettledFor(s, standing, k - 1), standing)
  }

  lemma SettleAt(s: Stage, standing: Token, i: nat)
    requires s.blend < RECOVERY_TICKS && i < DIM
    ensures Settle(s, standing).blend == s.blend + 1
    ensures Settle(s, standing).held[i] == Mix(s.held[i], standing[i], (s.blend + 1) as real / 50.0)
  {
  }

  function Portion(residual: real, gap: real): real { residual * gap }

  lemma {:induction false} RecoveryPortion(s: Stage, standing: Token, k: nat, i: nat)
    requires s.blend == 0 && k <= RECOVERY_TICKS && i < DIM
    ensures SettledFor(s, standing, k).blend == k
    ensures SettledFor(s, standing, k).held[i] - standing[i] == Portion(Residual(50, k), s.held[i] - standing[i])
    decreases k
  {
    hide Settle, Mix, Residual, Portion, Kept;
    var w := k as real / 50.0;
    ResidualStep(50, k, w);
    if k > 0 {
      var before := SettledFor(s, standing, k - 1);
      assert SettledFor(s, standing, k) == Settle(before, standing);
      hide SettledFor;
      RecoveryPortion(s, standing, k - 1, i);
      SettleAt(before, standing, i);
      NextPortion(before.held[i], standing[i], w, Residual(50, k - 1), s.held[i] - standing[i],
                  Residual(50, k));
    } else {
      WholePortion(s.held[i] - standing[i]);
    }
  }

  lemma WholePortion(gap: real)
    ensures Portion(1.0, gap) == gap
  {
  }

  lemma NothingCovered(residual: real)
    ensures Kept(0.0, residual) == residual
  {
  }

  lemma NextPortion(a: real, b: real, w: real, residual: real, gap: real, next: real)
    requires a - b == Portion(residual, gap) && next == Kept(w, residual)
    ensures Mix(a, b, w) - b == Portion(next, gap)
  {
    NextResidual(a, b, w, residual, gap, next);
    hide Mix;
  }

  // After k ticks of a recovery the distance to the standing token is exactly
  // the product of (1 - j/50) for j <= k times the initial one.
  lemma RecoveryResidual(s: Stage, standing: Token, k: nat, i: nat)
    requires s.blend == 0 && k <= RECOVERY_TICKS && i < DIM
    ensures SettledFor(s, standing, k).blend == k
    ensures SettledFor(s, standing, k).held[i] - standing[i] == Residual(RECOVERY_TICKS, k) * (s.held[i] - standing[i])
  {
    hide SettledFor, Residual;
    RecoveryPortion(s, standing, k, i);
  }

  lemma NextResidual(a: real, b: real, w: real, residual: real, gap: real, next: real)
    requires a - b == residual * gap && next == (1.0 - w) * residual
    ensures Mix(a, b, w) - b == next * gap
  {
    MixGap(a, b, w);
    hide Mix;
    SameProduct(1.0 - w, a - b, residual * gap);
    Regroup(1.0 - w, residual, gap);
    SameProduct(gap, next, (1.0 - w) * residual);
  }

  lemma SameProduct(k: real, x: real, y: real)
    requires x == y
    ensures k * x == k * y && x * k == y * k
  {
  }

  lemma MixGap(a: real, b: real, w: real)
    ensures Mix(a, b, w) - b == (1.0 - w) * (a - b)
  {
  }

  lemma Regroup(a: real, b: real, c: real)
    ensures a * (b * c) == (a * b) * c
  {
  }

  // So a recovery lands on the standing token, exactly, at its 50th tick and stays.
  lemma {:induction false} RecoveryLands(s: Stage, standing: Token, k: nat)
    requires s.blend == 0 && RECOVERY_TICKS <= k
    ensures SettledFor(s, standing, k).held == standing && SettledFor(s, standing, k).blend == RECOVERY_TICKS
    decreases k
  {
    if k == RECOVERY_TICKS {
      hide SettledFor;
      assert Residual(50, 50) == 0.0;
      forall i | 0 <= i < DIM ensures SettledFor(s, standing, k).held[i] == standing[i] {
        RecoveryResidual(s, standing, k, i);
        assert 0.0 * (s.held[i] - standing[i]) == 0.0;
      }
      RecoveryResidual(s, standing, k, 0);
    } else {
      RecoveryLands(s, standing, k - 1);
      assert MixToken(standing, standing, 1.0) == standing;
    }
  }

  // ── a stay in kRecovering, in a run ────────────────────────────────────────

  function Selections(acts: seq<Act>): nat {
    if |acts| == 0 then 0 else Selections(acts[..|acts| - 1]) + (if acts[|acts| - 1].Selected? then 1 else 0)
  }

  // The mode is kRecovering after acts and after every act of more.
  predicate Stays(standing: Token, acts: seq<Act>, more: seq<Act>) {
    forall k :: 0 <= k <= |more| ==>
      CanPerform(standing, acts + more[..k]) && After(standing, acts + more[..k]).mode.Recovering?
  }

  lemma {:induction false} StayIsSettling(standing: Token, acts: seq<Act>, more: seq<Act>)
    requires Stays(standing, acts, more)
    ensures CanPerform(standing, acts) && CanPerform(standing, acts + more)
    ensures var t := After(standing, acts + more);
      var settled := SettledFor(After(standing, acts), standing, Selections(more));
      t.held == settled.held && t.blend == settled.blend
    decreases |more|
  {
    hide CanPerform, After, MixToken;
    assert acts + more[..0] == acts && more[..|more|] == more;
    if 0 < |more| {
      var fewer, last := more[..|more| - 1], more[|more| - 1];
      assert forall k :: 0 <= k <= |fewer| ==> fewer[..k] == more[..k];
      StayIsSettling(standing, acts, fewer);
      assert acts + more == acts + fewer + [last];
      RunSnoc(standing, acts + fewer, last);
      assert After(standing, acts + more[..|fewer|]).mode.Recovering?;
    }
  }

  // From the act that enters kRecovering on, whatever other acts lie between the
  // n selections of the stay: the distance to the standing token is the product
  // above times what it was, and from the 50th selection on it is zero.
  lemma RecoveryInRun(standing: Token, acts: seq<Act>, entry: Act, more: seq<Act>, i: nat)
    requires CanPerform(standing, acts) && !After(standing, acts).mode.Recovering?
    requires Stays(standing, acts + [entry], more) && i < DIM
    ensures CanPerform(standing, acts + [entry] + more)
    ensures var t, n := After(standing, acts + [entry] + more), Selections(more);
      && (n <= RECOVERY_TICKS ==>
            && t.blend == n
            && t.held[i] - standing[i] == Residual(RECOVERY_TICKS, n) * (After(standing, acts).held[i] - standing[i]))
      && (RECOVERY_TICKS <= n ==> t.held == standing && t.blend == RECOVERY_TICKS)
  {
    hide MixToken, CanPerform, After, SettledFor, Residual;
    StayIsSettling(standing, acts + [entry], more);
    assert (acts + [entry]) + more[..0] == acts + [entry];
    RunSnoc(standing, acts, entry);
    var s, n := After(standing, acts + [entry]), Selections(more);
    assert s.blend == 0 && s.held == After(standing, acts).held;
    if n <= RECOVERY_TICKS { RecoveryResidual(s, standing, n, i); }
    if RECOVERY_TICKS <= n { RecoveryLands(s, standing, n); }
  }

  lemma {:induction false} ResidualRange(n: nat, k: nat)
    requires 0 < n && k <= n
    ensures 0.0 <= Residual(n, k) <= 1.0
    decreases k
  {
    if k > 0 {
      ResidualRange(n, k - 1);
      var w := k as real / n as real;
      assert 0.0 <= w <= 1.0;
      Product(1.0 - w, Residual(n, k - 1));
      Product(w, Residual(n, k - 1));
    }
  }

  // Covered rises while k (k + 1) <= n and falls from there on.
  lemma CoveredRises(n: nat, k: nat)
    requires 0 < k < n && k * (k + 1) <= n
    ensures Covered(n, k) <= Covered(n, k + 1)
  {
    hide Residual, Covered;
    ResidualRange(n, k - 1);
    CoveredForms(n, k);
    NextTickCompared(n as real, k as real, (k * (k + 1)) as real, Residual(n, k - 1));
  }

  lemma CoveredFalls(n: nat, k: nat)
    requires 0 < k < n && n <= k * (k + 1)
    ensures Covered(n, k + 1) <= Covered(n, k)
  {
    hide Residual, Covered;
    ResidualRange(n, k - 1);
    CoveredForms(n, k);
    NextTickCompared(n as real, k as real, (k * (k + 1)) as real, Residual(n, k - 1));
  }

  lemma CoveredForms(n: nat, k: nat)
    requires 0 < k < n
    ensures var r := Residual(n, k - 1); var w := k as real / n as real;
      && Covered(n, k) == w * r
      && Covered(n, k + 1) == (k as real + 1.0) / n as real * ((1.0 - w) * r)
  {
    assert Residual(n, k) == (1.0 - k as real / n as real) * Residual(n, k - 1);
    assert Residual(n, k + 1) == (1.0 - (k + 1) as real / n as real) * Residual(n, k);
  }

  lemma NextTickCompared(n: real, k: real, square: real, r: real)
    requires 0.0 < n && 0.0 <= r && square == k * (k + 1.0)
    ensures square <= n ==> k / n * r <= (k + 1.0) / n * ((1.0 - k / n) * r)
    ensures n <= square ==> (k + 1.0) / n * ((1.0 - k / n) * r) <= k / n * r
  {
    GapBetweenTicks(n, k, square, r);
    StrictProduct(n, n);
    var c := r / (n * n);
    assert 0.0 <= c;
    if square <= n { Product(n - square, c); }
    if n <= square { Product(square - n, c); }
  }

  lemma GapBetweenTicks(n: real, k: real, square: real, r: real)
    requires 0.0 < n && square == k * (k + 1.0)
    ensures n * n > 0.0
    ensures (k + 1.0) / n * ((1.0 - k / n) * r) - k / n * r == (n - square) * (r / (n * n))
  {
    StrictProduct(n, n);
    var u := 1.0 / n;
    assert u * n == 1.0;
    assert k / n == k * u && (k + 1.0) / n == (k + 1.0) * u;
    assert r / (n * n) == r * u * u by {
      assert (r * u * u) * (n * n) == r * (u * n) * (u * n);
    }
    assert n * (r * u * u) == (n * u) * (r * u);
  }

  lemma {:induction false} RisesTo(n: nat, k: nat, peak: nat)
    requires 0 < k <= peak < n && (peak - 1) * peak <= n
    ensures Covered(n, k) <= Covered(n, peak)
    decreases peak - k
  {
    if k < peak {
      MulMono(k, peak);
      CoveredRises(n, k);
      RisesTo(n, k + 1, peak);
    }
  }

  lemma MulMono(k: nat, peak: nat)
    requires k < peak
    ensures k * (k + 1) <= (peak - 1) * peak
  {
  }

  lemma {:induction false} FallsFrom(n: nat, peak: nat, k: nat)
    requires 0 < peak <= k <= n && n <= peak * (peak + 1)
    ensures Covered(n, k) <= Covered(n, peak)
    decreases k
  {
    if peak < k {
      MulMono(peak, k);
      CoveredFalls(n, k - 1);
      FallsFrom(n, peak, k - 1);
    }
  }

  // No recovery tick covers more of the initial gap than the 7th, which covers
  // 9.03 % of it; no tick of a handoff to a constant token more than 10.9 %.
  lemma RecoveryPace(k: nat)
    requires 0 < k <= RECOVERY_TICKS
    ensures Covered(RECOVERY_TICKS, k) <= Covered(RECOVERY_TICKS, 7) <= 0.0903
  {
    if k < 7 { RisesTo(50, k, 7); } else { FallsFrom(50, 7, k); }
    assert Residual(50, 2) == 0.9408;
    assert Residual(50, 4) == 0.9408 * 0.94 * 0.92;
    assert Residual(50, 6) == 0.9408 * 0.94 * 0.92 * 0.9 * 0.88;
    assert Covered(50, 7) == 0.14 * Residual(50, 6);
  }

  lemma HandoffPace(k: nat)
    requires 0 < k <= HANDOFF_TICKS
    ensures Covered(HANDOFF_TICKS, k) <= Covered(HANDOFF_TICKS, 6) <= 0.109
  {
    if k < 6 { RisesTo(35, k, 6); } else { FallsFrom(35, 6, k); }
    var u := 1.0 / 35.0;
    assert Residual(35, 5) == (1.0 - u) * (1.0 - 2.0 * u) * (1.0 - 3.0 * u) * (1.0 - 4.0 * u) * (1.0 - 5.0 * u);
  }

  function FedTimes(s: Stage, fed: Token, k: nat): Stage {
    if k == 0 then s else Feed(FedTimes(s, fed, k - 1), fed)
  }

  lemma {:induction false} HandoffCountsDown(s: Stage, fed: Token, k: nat)
    requires s.handoff == HANDOFF_TICKS
    ensures FedTimes(s, fed, k).handoff == if k <= HANDOFF_TICKS then HANDOFF_TICKS - k else 0
    decreases k
  {
    hide MixToken;
    if k > 0 { HandoffCountsDown(s, fed, k - 1); }
  }

  lemma FeedAt(s: Stage, fed: Token, i: nat)
    requires i < DIM
    ensures Feed(s, fed).held[i] ==
            if s.handoff > 0 then Mix(s.held[i], fed[i], 1.0 - s.handoff as real / 35.0) else fed[i]
  {
  }

  lemma {:induction false} HandoffPortion(s: Stage, fed: Token, k: nat, i: nat)
    requires s.handoff == HANDOFF_TICKS && 0 < k <= HANDOFF_TICKS && i < DIM
    ensures FedTimes(s, fed, k).held[i] - fed[i] == Portion(Residual(35, k - 1), s.held[i] - fed[i])
    decreases k
  {
    hide Feed, Mix, Residual, Portion, Kept;
    var before := FedTimes(s, fed, k - 1);
    HandoffCountsDown(s, fed, k - 1);
    FeedAt(before, fed, i);
    var w := 1.0 - before.handoff as real / 35.0;
    assert w == (k - 1) as real / 35.0;
    ResidualStep(35, k - 1, w);
    assert FedTimes(s, fed, k) == Feed(before, fed);
    if k > 1 {
      hide FedTimes;
      HandoffPortion(s, fed, k - 1, i);
      NextPortion(before.held[i], fed[i], w, Residual(35, k - 2), s.held[i] - fed[i], Residual(35, k - 1));
    } else {
      WholePortion(s.held[i] - fed[i]);
      NothingCovered(1.0);
      NextPortion(before.held[i], fed[i], w, 1.0, s.held[i] - fed[i], 1.0);
    }
  }

  // An armed handoff to a constant token leaves the same kind of product: its
  // k-th output is still Residual(35, k - 1) of the initial gap away, its 36th is the token.
  lemma HandoffResidual(s: Stage, fed: Token, k: nat, i: nat)
    requires s.handoff == HANDOFF_TICKS && 0 < k <= HANDOFF_TICKS + 1 && i < DIM
    ensures k <= HANDOFF_TICKS ==>
              FedTimes(s, fed, k).held[i] - fed[i] == Residual(HANDOFF_TICKS, k - 1) * (s.held[i] - fed[i])
    ensures k == HANDOFF_TICKS + 1 ==> FedTimes(s, fed, k).held[i] == fed[i]
  {
    hide Residual, Feed;
    if k <= HANDOFF_TICKS {
      hide FedTimes;
      HandoffPortion(s, fed, k, i);
    } else {
      HandoffCountsDown(s, fed, k - 1);
      FeedAt(FedTimes(s, fed, k - 1), fed, i);
    }
  }

  // ── ownership ──────────────────────────────────────────────────────────────

  lemma {:induction false} PrefixRuns(standing: Token, acts: seq<Act>, k: nat)
    requires CanPerform(standing, acts) && k <= |acts|
    ensures CanPerform(standing, acts[..k])
    decreases |acts|
  {
    if k < |acts| {
      assert acts[..|acts| - 1][..k] == acts[..k];
      PrefixRuns(standing, acts[..|acts| - 1], k);
    } else {
      assert acts[..k] == acts;
    }
  }

  function ModeAt(standing: Token, acts: seq<Act>, k: nat): Mode
    requires CanPerform(standing, acts) && k <= |acts|
  {
    PrefixRuns(standing, acts, k);
    After(standing, acts[..k]).mode
  }

  lemma ModeStep(standing: Token, acts: seq<Act>, k: nat)
    requires CanPerform(standing, acts) && k < |acts|
    ensures var m := ModeAt(standing, acts, k); var next := ModeAt(standing, acts, k + 1);
      && (m.Vla? ==> next.Vla? || next.Recovering?)
      && (m.Recovering? ==> next.Recovering? || next.Normal?)
      && (m.Teleop? ==> next.Teleop? || next.Normal?)
  {
    PrefixRuns(standing, acts, k);
    PrefixRuns(standing, acts, k + 1);
    assert acts[..k + 1] == acts[..k] + [acts[k]];
    hide CanPerform, After, MixToken;
    RunSnoc(standing, acts[..k], acts[k]);
  }

  // What keeps the owner of a mode in it, whatever else the inputs are.
  predicate Keeps(m: Mode, a: Act) {
    a.Stepped? ==>
      match m
      case Normal => !a.vlaFresh && !a.calibrated
      case Teleop => a.calibrated
      case Vla => a.vlaAlive
      case Recovering => !a.recoveryDone
  }

  // Ownership: an operator keeps the robot while calibrated, whatever the stream
  // does; the stream while alive, whatever the operator does; a recovery until it
  // is done; the origin until someone claims. Each is left at the first step
  // where that fails.
  lemma {:induction false} OwnerStays(standing: Token, acts: seq<Act>, i: nat, j: nat)
    requires CanPerform(standing, acts) && i <= j <= |acts|
    requires forall k :: i <= k < j ==> Keeps(ModeAt(standing, acts, i), acts[k])
    ensures ModeAt(standing, acts, j) == ModeAt(standing, acts, i)
    ensures j < |acts| && !Keeps(ModeAt(standing, acts, i), acts[j]) ==>
              ModeAt(standing, acts, j + 1) == Claimed(ModeAt(standing, acts, i), acts[j])
    decreases j - i
  {
    hide CanPerform, ModeAt, Keeps, Claimed;
    if i < j {
      OwnerStays(standing, acts, i, j - 1);
      KeptOrClaimed(standing, acts, j - 1);
    }
    if j < |acts| { KeptOrClaimed(standing, acts, j); }
  }

  // Who has the robot then: a fresh stream claims the origin before a calibrated
  // operator does, a lost stream leads to a recovery, everything else to the origin.
  function Claimed(m: Mode, a: Act): Mode
    requires a.Stepped?
  {
    if m.Vla? then Recovering
    else if m.Normal? then if a.vlaFresh then Vla else Teleop
    else Normal
  }

  lemma KeptOrClaimed(standing: Token, acts: seq<Act>, k: nat)
    requires CanPerform(standing, acts) && k < |acts|
    ensures var m := ModeAt(standing, acts, k);
      ModeAt(standing, acts, k + 1) == if Keeps(m, acts[k]) then m else Claimed(m, acts[k])
  {
    PrefixRuns(standing, acts, k);
    PrefixRuns(standing, acts, k + 1);
    assert acts[..k + 1] == acts[..k] + [acts[k]];
    hide CanPerform, After, MixToken;
    RunSnoc(standing, acts[..k], acts[k]);
  }

  // No direct handover: from the stream to the operator only through a recovery
  // and then the origin, from the operator to the stream only through the origin.
  lemma {:induction false} StreamToOperator(standing: Token, acts: seq<Act>, i: nat, j: nat)
    requires CanPerform(standing, acts) && i < j <= |acts|
    requires ModeAt(standing, acts, i).Vla? && ModeAt(standing, acts, j).Teleop?
    ensures exists r, o ::
              i < r < o < j && ModeAt(standing, acts, r).Recovering? && ModeAt(standing, acts, o).Normal?
    decreases j - i
  {
    hide CanPerform, ModeAt;
    ModeStep(standing, acts, i);
    if ModeAt(standing, acts, i + 1).Vla? {
      StreamToOperator(standing, acts, i + 1, j);
    } else {
      ToOrigin(standing, acts, i + 1, j);
    }
  }

  lemma {:induction false} ToOrigin(standing: Token, acts: seq<Act>, i: nat, j: nat)
    requires CanPerform(standing, acts) && i < j <= |acts|
    requires ModeAt(standing, acts, i).Recovering? || ModeAt(standing, acts, i).Teleop?
    requires ModeAt(standing, acts, j) != ModeAt(standing, acts, i) && !ModeAt(standing, acts, j).Normal?
    ensures exists o :: i < o < j && ModeAt(standing, acts, o).Normal?
    decreases j - i
  {
    hide CanPerform, ModeAt;
    ModeStep(standing, acts, i);
    if ModeAt(standing, acts, i + 1) == ModeAt(standing, acts, i) {
      ToOrigin(standing, acts, i + 1, j);
    }
  }
}
