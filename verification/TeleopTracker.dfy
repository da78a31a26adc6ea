// The two teleop flavors and their gestures (loop, both gesture checks,
// disengage_fullbody and process in src/teleop/teleop_tracker.cpp).
module TeleopTracker {
  import opened Optional
  import opened Arbiter

  const HOLD_TICKS := 50

  // The upper-body flavor: vr3 says that vr3point_buf holds data.
  datatype Upper = Upper(calibrated: bool, vr3: bool, hold: nat, latched: bool, request: bool)

  // The full-body flavor: window says that smpl_window_buf holds data, samples
  // that the resampler holds a sample.
  datatype Full = Full(engaged: bool, window: bool, hold: nat, latched: bool, samples: bool)

  datatype Tracker = Tracker(upper: Upper, full: Full, resetRequest: bool, lastBody: nat)

  datatype Buttons = Buttons(a: bool, b: bool, x: bool, y: bool)

  // What one tick reads: the arbiter mode, the controller, whether locomotion is
  // idle and a body sample is there when the gesture asks, and the body sample of
  // the loop (its receive time) with its staleness.
  datatype Input = Input(mode: Mode, buttons: Option<Buttons>, idle: bool, bodySeen: bool, body: Option<nat>,
                         stale: bool)

  function Disengaged(f: Full): Full { f.(engaged := false, window := false) }

  function TurnedOff(u: Upper): Upper { u.(calibrated := false, vr3 := false) }

  function AfterReset(s: Tracker): Tracker {
    if s.resetRequest then
      Tracker(TurnedOff(s.upper), if s.full.engaged then Disengaged(s.full) else s.full, false, s.lastBody)
    else s
  }

  predicate Owned(mode: Mode) { mode.Vla? || mode.Recovering? }

  predicate OnlyB(buttons: Option<Buttons>) {
    buttons.Some? && buttons.value.b && !buttons.value.a && !buttons.value.x && !buttons.value.y
  }

  predicate OnlyA(buttons: Option<Buttons>) {
    buttons.Some? && buttons.value.a && !buttons.value.b && !buttons.value.x && !buttons.value.y
  }

  function CalibGesture(u: Upper, ignored: bool): Upper {
    if ignored then u.(hold := 0, latched := false)
    else if u.latched then u
    else if u.hold + 1 < HOLD_TICKS then u.(hold := u.hold + 1)
    else
      var fired := u.(hold := u.hold + 1, latched := true);
      if u.calibrated then TurnedOff(fired) else fired.(request := true)
  }

  function AfterCalibGesture(s: Tracker, i: Input): Tracker {
    s.(upper := CalibGesture(s.upper, Owned(i.mode) || s.full.engaged || !OnlyB(i.buttons)))
  }

  function FullGesture(f: Full, ignored: bool, ready: bool): Full {
    if ignored then f.(hold := 0, latched := false)
    else if f.latched then f
    else if f.hold + 1 < HOLD_TICKS then f.(hold := f.hold + 1)
    else
      var fired := f.(hold := f.hold + 1, latched := true);
      if f.engaged then Disengaged(fired)
      else if ready then fired.(engaged := true, samples := false)
      else fired
  }

  function AfterFullGesture(s: Tracker, i: Input): Tracker {
    s.(full := FullGesture(s.full, Owned(i.mode) || s.upper.calibrated || !OnlyA(i.buttons), i.idle && i.bodySeen))
  }

  predicate NewSample(s: Tracker, i: Input) { i.body.Some? && i.body.value != s.lastBody }

  // process: a pending request is captured, and while calibrated a target published.
  function Processed(u: Upper): Upper {
    u.(calibrated := u.calibrated || u.request, request := false, vr3 := u.vr3 || u.calibrated || u.request)
  }

  function AfterBody(s: Tracker, i: Input): Tracker {
    if i.body.None? then s.(upper := s.upper.(vr3 := false))
    else if i.body.value != s.lastBody then
      s.(lastBody := i.body.value, upper := Processed(s.upper),
         full := s.full.(samples := s.full.samples || s.full.engaged))
    else s
  }

  function AfterWindow(s: Tracker, i: Input): Tracker {
    if !s.full.engaged then s
    else if i.body.None? || i.stale then s.(full := Disengaged(s.full))
    else s.(full := s.full.(samples := true, window := true))
  }

  function AfterGestures(s: Tracker, i: Input): Tracker {
    AfterFullGesture(AfterCalibGesture(AfterReset(s), i), i)
  }

  function Tick(s: Tracker, i: Input): Tracker { AfterWindow(AfterBody(AfterGestures(s, i), i), i) }

  function Initial(): Tracker {
    Tracker(Upper(false, false, 0, false, false), Full(false, false, 0, false, false), false, 0)
  }

  class Loop {
    var calibrated: bool
    var vr3: bool
    var calibHold: nat
    var calibLatched: bool
    var engaged: bool
    var window: bool
    var fullHold: nat
    var fullLatched: bool
    var samples: bool
    var calibRequest: bool
    var resetRequest: bool
    var lastBody: nat

    ghost function View(): Tracker
      reads this
    {
      Tracker(Upper(calibrated, vr3, calibHold, calibLatched, calibRequest),
              Full(engaged, window, fullHold, fullLatched, samples), resetRequest, lastBody)
    }

    constructor ()
      ensures View() == Initial()
    {
      calibrated, vr3, calibHold, calibLatched := false, false, 0, false;
      engaged, window, fullHold, fullLatched, samples := false, false, 0, false, false;
      calibRequest, resetRequest, lastBody := false, false, 0;
    }

    method DisengageFullbody()
      modifies this
      ensures View() == old(View()).(full := Disengaged(old(View()).full))
    {
      engaged := false;
      window := false;
    }

    method CheckCalibrationGesture(i: Input)
      modifies this
      ensures View() == AfterCalibGesture(old(View()), i)
    {
      if i.mode == Vla || i.mode == Recovering || engaged {
        calibHold, calibLatched := 0, false;
        return;
      }
      var held := i.buttons.Some? && i.buttons.value.b &&
                  !i.buttons.value.a && !i.buttons.value.x && !i.buttons.value.y;
      if !held {
        calibHold, calibLatched := 0, false;
        return;
      }
      if calibLatched { return; }
      calibHold := calibHold + 1;
      if calibHold >= HOLD_TICKS {
        calibLatched := true;
        if calibrated {
          calibrated, vr3 := false, false;
        } else {
          calibRequest := true;
        }
      }
    }

    method CheckFullbodyGesture(i: Input)
      modifies this
      ensures View() == AfterFullGesture(old(View()), i)
    {
      if i.mode == Vla || i.mode == Recovering || calibrated {
        fullHold, fullLatched := 0, false;
        return;
      }
      var held := i.buttons.Some? && i.buttons.value.a &&
                  !i.buttons.value.b && !i.buttons.value.x && !i.buttons.value.y;
      if !held {
        fullHold, fullLatched := 0, false;
        return;
      }
      if fullLatched { return; }
      fullHold := fullHold + 1;
      if fullHold >= HOLD_TICKS {
        fullLatched := true;
        if engaged {
          DisengageFullbody();
        } else if i.idle && i.bodySeen {
          samples := false;
          engaged := true;
        }
      }
    }

    method Process()
      modifies this
      ensures View() == old(View()).(upper := Processed(old(View()).upper))
    {
      if calibRequest {
        calibRequest := false;
        calibrated := true;
      }
      if !calibrated { return; }
      vr3 := true;
    }

    method HandleReset()
      modifies this
      ensures View() == AfterReset(old(View()))
    {
      if resetRequest {
        resetRequest, calibrated, vr3 := false, false, false;
        if engaged { DisengageFullbody(); }
      }
    }

    method HandleBody(i: Input)
      modifies this
      ensures View() == AfterBody(old(View()), i)
    {
      if i.body.None? {
        vr3 := false;
      } else if i.body.value != lastBody {
        lastBody := i.body.value;
        Process();
        if engaged { samples := true; }
      }
    }

    method HandleWindow(i: Input)
      modifies this
      ensures View() == AfterWindow(old(View()), i)
    {
      if engaged {
        if i.body.None? || i.stale {
          DisengageFullbody();
        } else {
          samples := true;
          window := true;
        }
      }
    }

    method TickOnce(i: Input)
      modifies this
      ensures View() == Tick(old(View()), i)
    {
      hide AfterReset, AfterCalibGesture, AfterFullGesture, AfterBody, AfterWindow;
      HandleReset();
      CheckCalibrationGesture(i);
      CheckFullbodyGesture(i);
      HandleBody(i);
      HandleWindow(i);
    }
  }

  // ── one tick ───────────────────────────────────────────────────────────────

  // The flavors are not both engaged, and a buffer holds data only for an engaged flavor.
  predicate Exclusive(s: Tracker) { !(s.upper.calibrated && s.full.engaged) }

  predicate BuffersFollow(s: Tracker) {
    (s.upper.vr3 ==> s.upper.calibrated) && (s.full.window ==> s.full.engaged)
  }

  // From an exclusive state a tick ends with both flavors engaged, and with both
  // buffers full, exactly when full-body is engaged after the gestures and a
  // calibration request still pending then meets a new, not stale body sample.
  lemma TickBreaksExclusivity(s: Tracker, i: Input)
    requires Sound(s)
    ensures var g := AfterGestures(s, i);
      var breaks := g.full.engaged && g.upper.request && NewSample(g, i) && !i.stale;
      && (!Exclusive(Tick(s, i)) <==> breaks)
      && (Tick(s, i).upper.vr3 && Tick(s, i).full.window <==> breaks)
      && BuffersFollow(Tick(s, i))
  {
    GesturesKeepSound(s, i);
    hide AfterGestures;
  }

  predicate Sound(s: Tracker) { Exclusive(s) && BuffersFollow(s) }

  lemma ResetKeepsSound(s: Tracker)
    requires Sound(s)
    ensures var t := AfterReset(s);
      Sound(t) && (t.full.engaged ==> s.full.engaged) && t.upper.request == s.upper.request
  {
  }

  lemma CalibGestureKeepsSound(s: Tracker, i: Input)
    requires Sound(s)
    ensures var t := AfterCalibGesture(s, i);
      Sound(t) && t.full == s.full && (s.full.engaged ==> t.upper.request == s.upper.request)
  {
  }

  lemma FullGestureKeepsSound(s: Tracker, i: Input)
    requires Sound(s)
    ensures var t := AfterFullGesture(s, i);
      Sound(t) && t.upper == s.upper && (t.full.engaged && !s.full.engaged ==> !t.upper.calibrated)
  {
  }

  // The gestures alone never engage both, and raise no request while full-body is engaged.
  lemma GesturesKeepSound(s: Tracker, i: Input)
    requires Sound(s)
    ensures Sound(AfterGestures(s, i))
    ensures AfterReset(s).full.engaged && AfterGestures(s, i).upper.request ==> s.upper.request
  {
    hide Sound, AfterReset, AfterCalibGesture, AfterFullGesture;
    ResetKeepsSound(s);
    CalibGestureKeepsSound(AfterReset(s), i);
    FullGestureKeepsSound(AfterCalibGesture(AfterReset(s), i), i);
  }

  // ── runs ───────────────────────────────────────────────────────────────────

  datatype Event =
    | RequestCalibration   // from another thread
    | RequestReset         // from another thread
    | Ticked(i: Input)

  function Step(s: Tracker, e: Event): Tracker {
    match e
    case RequestCalibration => s.(upper := s.upper.(request := true))
    case RequestReset => s.(resetRequest := true)
    case Ticked(i) => Tick(s, i)
  }

  function Run(es: seq<Event>): Tracker {
    if |es| == 0 then Initial() else Step(Run(es[..|es| - 1]), es[|es| - 1])
  }

  // The breaking tick of TickBreaksExclusivity.
  predicate Breaks(s: Tracker, e: Event) {
    e.Ticked? && var g := AfterGestures(s, e.i); g.full.engaged && g.upper.request && NewSample(g, e.i) && !e.i.stale
  }

  // No request is pending when full-body engages, and none comes from outside while it is engaged.
  predicate Undisturbed(s: Tracker, e: Event) {
    match e
    case RequestCalibration => !s.full.engaged
    case RequestReset => true
    case Ticked(i) =>
      !AfterReset(s).full.engaged && AfterGestures(s, i).full.engaged ==> !AfterGestures(s, i).upper.request
  }

  predicate UndisturbedRun(es: seq<Event>) {
    forall k :: 0 <= k < |es| ==> Undisturbed(Run(es[..k]), es[k])
  }

  predicate UnbrokenRun(es: seq<Event>) {
    forall k :: 0 <= k < |es| ==> !Breaks(Run(es[..k]), es[k])
  }

  lemma StepStaysSound(s: Tracker, e: Event)
    requires Sound(s) && !Breaks(s, e)
    ensures Sound(Step(s, e))
  {
    hide AfterGestures, Tick;
    match e {
      case Ticked(i) => TickBreaksExclusivity(s, i);
      case _ =>
    }
  }

  // Every run in which no tick breaks it keeps the flavors and the buffers exclusive.
  lemma {:induction false} UnbrokenRunsAreSound(es: seq<Event>)
    requires UnbrokenRun(es)
    ensures Sound(Run(es))
    decreases |es|
  {
    if |es| > 0 {
      var fewer := es[..|es| - 1];
      hide Breaks, Step, Sound;
      assert forall k :: 0 <= k < |fewer| ==> fewer[..k] == es[..k] && fewer[k] == es[k];
      UnbrokenRunsAreSound(fewer);
      StepStaysSound(Run(fewer), es[|es| - 1]);
    } else {
      assert Sound(Initial());
    }
  }

  // While undisturbed, an engaged full-body never sees a pending request.
  predicate Calm(s: Tracker) { Sound(s) && (s.full.engaged ==> !s.upper.request) }

  lemma UndisturbedStep(s: Tracker, e: Event)
    requires Calm(s) && Undisturbed(s, e)
    ensures !Breaks(s, e) && Calm(Step(s, e))
  {
    match e {
      case Ticked(i) =>
        GesturesKeepSound(s, i);
        ResetKeepsSound(s);
        hide AfterGestures, AfterReset;
        var g := AfterGestures(s, i);
        assert g.full.engaged ==> !g.upper.request;
        TickBreaksExclusivity(s, i);
        EngagedAfterTick(s, i);
      case _ =>
    }
  }

  lemma EngagedAfterTick(s: Tracker, i: Input)
    ensures Tick(s, i).full.engaged ==> AfterGestures(s, i).full.engaged
    ensures Tick(s, i).upper.request ==> AfterGestures(s, i).upper.request
  {
    hide AfterGestures;
  }

  lemma UndisturbedPrefix(es: seq<Event>)
    requires UndisturbedRun(es) && |es| > 0
    ensures UndisturbedRun(es[..|es| - 1]) && Undisturbed(Run(es[..|es| - 1]), es[|es| - 1])
  {
    hide Undisturbed, Run;
    var fewer := es[..|es| - 1];
    assert forall k :: 0 <= k < |fewer| ==> fewer[..k] == es[..k] && fewer[k] == es[k];
  }

  // In every undisturbed run upper-body and full-body teleop are never both
  // engaged and the two buffers never both hold data.
  lemma {:induction false} UndisturbedRunsAreExclusive(es: seq<Event>)
    requires UndisturbedRun(es)
    ensures Calm(Run(es))
    ensures !(Run(es).upper.calibrated && Run(es).full.engaged) && !(Run(es).upper.vr3 && Run(es).full.window)
    decreases |es|
  {
    if |es| > 0 {
      hide UndisturbedRun, Undisturbed, Breaks, Step, Tick;
      var fewer := es[..|es| - 1];
      UndisturbedPrefix(es);
      UndisturbedRunsAreExclusive(fewer);
      UndisturbedStep(Run(fewer), es[|es| - 1]);
    }
  }

  lemma Then(es: seq<Event>, e: Event)
    ensures Run(es + [e]) == Step(Run(es), e)
  {
    assert (es + [e])[..|es + [e]| - 1] == es;
  }

  // ── gestures need their second ─────────────────────────────────────────────

  // Successive ticks, up to the last one, in which the button is down alone while
  // neither the stream nor a recovery owns the robot.
  function HeldTicks(es: seq<Event>, a: bool): nat {
    if |es| == 0 then 0
    else
      match es[|es| - 1]
      case Ticked(i) =>
        if !Owned(i.mode) && (if a then OnlyA(i.buttons) else OnlyB(i.buttons)) then HeldTicks(es[..|es| - 1], a) + 1
        else 0
      case _ => HeldTicks(es[..|es| - 1], a)
  }

  lemma HoldCounters(s: Tracker, i: Input)
    ensures var t := Tick(s, i);
      && t.full.hold <= (if OnlyA(i.buttons) && !Owned(i.mode) then s.full.hold + 1 else 0)
      && t.upper.hold <= (if OnlyB(i.buttons) && !Owned(i.mode) then s.upper.hold + 1 else 0)
      && (t.full.engaged && !s.full.engaged ==> HOLD_TICKS <= t.full.hold)
      && (t.upper.request && !s.upper.request ==> HOLD_TICKS <= t.upper.hold)
  {
  }

  lemma {:induction false} CountersAreHolds(es: seq<Event>)
    ensures Run(es).full.hold <= HeldTicks(es, true) && Run(es).upper.hold <= HeldTicks(es, false)
    decreases |es|
  {
    if |es| > 0 {
      var fewer := es[..|es| - 1];
      CountersAreHolds(fewer);
      match es[|es| - 1] {
        case Ticked(i) =>
          HoldCounters(Run(fewer), i);
          hide Tick, OnlyA, OnlyB, Owned;
        case _ =>
      }
    }
  }

  // In every run full-body engages only on a tick that ends 50 successive ticks
  // of A alone, and the tracker itself raises a calibration request only on one
  // that ends 50 successive ticks of B alone.
  lemma GesturesNeedTheirSecond(es: seq<Event>, i: Input)
    ensures Run(es + [Ticked(i)]).full.engaged && !Run(es).full.engaged ==>
              HOLD_TICKS <= HeldTicks(es + [Ticked(i)], true)
    ensures Run(es + [Ticked(i)]).upper.request && !Run(es).upper.request ==>
              HOLD_TICKS <= HeldTicks(es + [Ticked(i)], false)
  {
    hide Run, HeldTicks, Tick;
    Then(es, Ticked(i));
    CountersAreHolds(es + [Ticked(i)]);
    HoldCounters(Run(es), i);
  }

  // ── and act on it ──────────────────────────────────────────────────────────

  const A_ALONE := Buttons(true, false, false, false)
  const B_ALONE := Buttons(false, true, false, false)

  // The tick counts for the full-body gesture: A alone is down while neither the
  // stream, a recovery nor the upper-body flavor owns the robot.
  predicate CountsA(s: Tracker, i: Input) {
    && i.buttons == Some(A_ALONE) && (i.mode == Normal || i.mode == Teleop)
    && !AfterCalibGesture(AfterReset(s), i).upper.calibrated
  }

  // For the calibration gesture: B alone, and the full-body flavor does not own it.
  predicate CountsB(s: Tracker, i: Input) {
    i.buttons == Some(B_ALONE) && (i.mode == Normal || i.mode == Teleop) && !AfterReset(s).full.engaged
  }

  // Successive ticks that count, up to the last one.
  function Counted(es: seq<Event>, a: bool): nat {
    if |es| == 0 then 0
    else
      var before := es[..|es| - 1];
      match es[|es| - 1]
      case Ticked(i) =>
        if (if a then CountsA(Run(before), i) else CountsB(Run(before), i)) then Counted(before, a) + 1 else 0
      case _ => Counted(before, a)
  }

  function UpTo50(n: nat): nat { if n < 50 then n else 50 }

  predicate Counts(hold: nat, latched: bool, n: nat) { hold == UpTo50(n) && (latched <==> 50 <= n) }

  lemma CalibStep(s: Tracker, i: Input, n: nat)
    requires Counts(s.upper.hold, s.upper.latched, n)
    ensures var t := AfterCalibGesture(s, i).upper;
      var alone := i.buttons == Some(B_ALONE) && (i.mode == Normal || i.mode == Teleop) && !s.full.engaged;
      var n' := if alone then n + 1 else 0;
      && Counts(t.hold, t.latched, n')
      && t.calibrated == (s.upper.calibrated && n' != 50)
      && t.request == (s.upper.request || (n' == 50 && !s.upper.calibrated))
  {
  }

  lemma FullStep(s: Tracker, i: Input, n: nat)
    requires Counts(s.full.hold, s.full.latched, n)
    ensures var t := AfterFullGesture(s, i).full;
      var alone := i.buttons == Some(A_ALONE) && (i.mode == Normal || i.mode == Teleop) && !s.upper.calibrated;
      var n' := if alone then n + 1 else 0;
      && Counts(t.hold, t.latched, n')
      && t.engaged == if n' == 50 then !s.full.engaged && i.idle && i.bodySeen else s.full.engaged
  {
  }

  // Only the gestures touch their own counters, and each only its own flavor.
  lemma HoldsKept(s: Tracker, i: Input)
    ensures AfterReset(s).full.hold == s.full.hold && AfterReset(s).full.latched == s.full.latched
    ensures AfterReset(s).upper.hold == s.upper.hold && AfterReset(s).upper.latched == s.upper.latched
    ensures AfterCalibGesture(s, i).full == s.full && AfterFullGesture(s, i).upper == s.upper
  {
  }

  lemma HoldsKeptToTheEnd(s: Tracker, i: Input)
    ensures var t := AfterWindow(AfterBody(s, i), i);
      && t.full.hold == s.full.hold && t.full.latched == s.full.latched
      && t.upper.hold == s.upper.hold && t.upper.latched == s.upper.latched
  {
  }

  lemma GestureStep(s: Tracker, i: Input, a: nat, b: nat)
    requires Counts(s.full.hold, s.full.latched, a) && Counts(s.upper.hold, s.upper.latched, b)
    ensures var g, r, t := AfterGestures(s, i), AfterReset(s), Tick(s, i);
      var a', b' := if CountsA(s, i) then a + 1 else 0, if CountsB(s, i) then b + 1 else 0;
      && Counts(t.full.hold, t.full.latched, a') && Counts(t.upper.hold, t.upper.latched, b')
      && g.full.engaged == (if a' == 50 then !r.full.engaged && i.idle && i.bodySeen else r.full.engaged)
      && g.upper.calibrated == (r.upper.calibrated && b' != 50)
      && g.upper.request == (r.upper.request || (b' == 50 && !r.upper.calibrated))
  {
    hide AfterReset, AfterCalibGesture, AfterFullGesture, AfterBody, AfterWindow, Counts;
    var r := AfterReset(s);
    HoldsKept(s, i);
    HoldsKept(r, i);
    HoldsKept(AfterCalibGesture(r, i), i);
    HoldsKeptToTheEnd(AfterGestures(s, i), i);
    CalibStep(r, i, b);
    FullStep(AfterCalibGesture(r, i), i, a);
  }

  lemma {:induction false} HoldsAreCounted(es: seq<Event>)
    ensures var s := Run(es);
      && Counts(s.full.hold, s.full.latched, Counted(es, true))
      && Counts(s.upper.hold, s.upper.latched, Counted(es, false))
    decreases |es|
  {
    if |es| > 0 {
      var fewer := es[..|es| - 1];
      HoldsAreCounted(fewer);
      match es[|es| - 1] {
        case Ticked(i) =>
          hide Tick, AfterGestures, AfterReset, CountsA, CountsB, Counts;
          GestureStep(Run(fewer), i, Counted(fewer, true), Counted(fewer, false));
        case _ =>
      }
    }
  }

  // In every run each gesture acts exactly on its 50th successive tick, and not
  // again before it was let go: A toggles the full-body flavor, on only from
  // idle locomotion with a body sample; B turns a calibrated upper-body flavor
  // off and otherwise asks for a calibration.
  lemma GesturesActOnTheFiftieth(es: seq<Event>, i: Input)
    ensures var s, now := Run(es), es + [Ticked(i)];
      var g, r := AfterGestures(s, i), AfterReset(s);
      && g.full.engaged ==
           (if Counted(now, true) == 50 then !r.full.engaged && i.idle && i.bodySeen else r.full.engaged)
      && g.upper.calibrated == (r.upper.calibrated && Counted(now, false) != 50)
      && g.upper.request == (r.upper.request || (Counted(now, false) == 50 && !r.upper.calibrated))
  {
    hide Run, AfterGestures, AfterReset, Tick, CountsA, CountsB;
    HoldsAreCounted(es);
    GestureStep(Run(es), i, Counted(es, true), Counted(es, false));
    assert (es + [Ticked(i)])[..|es|] == es;
  }

  // What a tick then makes of the body stream: a pending request is captured by
  // the next new sample; the upper-body buffer is filled on every new sample
  // while calibrated and emptied without one; the full-body window is filled on
  // every tick while engaged, which a missing or stale stream ends.
  lemma TickServesBuffers(s: Tracker, i: Input)
    requires Sound(s)
    ensures var g, t := AfterGestures(s, i), Tick(s, i);
      && (t.upper.calibrated <==> g.upper.calibrated || (g.upper.request && NewSample(g, i)))
      && (t.upper.request <==> g.upper.request && !NewSample(g, i))
      && (i.body.None? ==> !t.upper.vr3)
      && (NewSample(g, i) ==> (t.upper.vr3 <==> t.upper.calibrated) && Some(t.lastBody) == i.body)
      && (i.body.Some? && !NewSample(g, i) ==> t.upper.vr3 == g.upper.vr3)
      && (t.full.engaged <==> g.full.engaged && i.body.Some? && !i.stale)
      && (t.full.window <==> t.full.engaged)
  {
    GesturesKeepSound(s, i);
    hide AfterGestures;
  }

  // A reset request turns both flavors off, once.
  lemma ResetTurnsBothOff(s: Tracker)
    requires BuffersFollow(s)
    ensures var r := AfterReset(s);
      if s.resetRequest then
        !r.resetRequest && !r.upper.calibrated && !r.upper.vr3 && !r.full.engaged && !r.full.window
      else r == s
  {
  }

  // ── without the assumption ─────────────────────────────────────────────────

  const B_HELD := Some(B_ALONE)
  const A_HELD := Some(A_ALONE)

  // The body stream has dropped out: its last sample, of time 1, was seen already.
  function Held(buttons: Option<Buttons>): Event { Ticked(Input(Normal, buttons, true, true, Some(1), false)) }

  // After one sample: B held for n ticks, then A for k ticks.
  lemma {:induction false} ReachB(n: nat) returns (es: seq<Event>)
    requires n <= HOLD_TICKS
    ensures Run(es) == Tracker(Upper(false, false, n, n == HOLD_TICKS, n == HOLD_TICKS),
                               Full(false, false, 0, false, false), false, 1)
  {
    if n == 0 {
      es := [Held(None)];
      Then([], Held(None));
      assert [] + [Held(None)] == es;
    } else {
      var fewer := ReachB(n - 1);
      es := fewer + [Held(B_HELD)];
      hide Run;
      Then(fewer, Held(B_HELD));
    }
  }

  lemma {:induction false} ReachA(k: nat) returns (es: seq<Event>)
    requires 0 < k <= HOLD_TICKS
    ensures var on := k == HOLD_TICKS;
      Run(es) == Tracker(Upper(false, false, 0, false, true), Full(on, on, k, on, on), false, 1)
  {
    var fewer;
    if k == 1 { fewer := ReachB(HOLD_TICKS); } else { fewer := ReachA(k - 1); }
    es := fewer + [Held(A_HELD)];
    hide Run;
    Then(fewer, Held(A_HELD));
  }

  // A request left pending by a stream dropout is captured after full-body has
  // engaged: both flavors are then engaged and both buffers full.
  lemma PendingRequestBreaksExclusivity()
    ensures exists es ::
              Run(es).upper.calibrated && Run(es).full.engaged && Run(es).upper.vr3 && Run(es).full.window
  {
    var es := ReachA(HOLD_TICKS);
    var e := Ticked(Input(Normal, None, true, true, Some(2), false));
    hide Run;
    Then(es, e);
    assert Run(es + [e]).upper.calibrated;
  }
}
