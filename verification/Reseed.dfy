// The planner reseed protocol between PlannerInference::loop
// (src/planner/planner_inference.cpp) and the 50 Hz loop of WholeBodyController
// (src/control/whole_body_controller.cpp). Every interleaving of the two
// threads is a sequence of atomic steps applied to a System.
module Reseed {
  import LossPolicy
  import opened Arbiter
  import opened Numbers
  import opened Optional

  // A published motion. Its epoch is the number of reseed requests issued when
  // the pose its context goes back to was read; cleared is the highest
  // request the planner had emptied the buffer for when it published.
  datatype Plan = Plan(epoch: nat, cleared: nat, stamp: nat)

  // The playback timeline; its epoch is the oldest of the motions blended in.
  datatype Timeline = Empty | Tracked(epoch: nat)

  datatype PlannerAt =
    | LoopTop
    | Loaded(req: nat)                   // reinit_requested_ has been read
    | Initializing(req: nat)             // in initialize_once, before the state is read
    | Seeding(req: nat, epoch: nat)      // in initialize_once, inference under way
    | Acknowledging(req: nat)            // published, reinit_done_ not yet stored
    | Deciding                           // initialized: replan or not
    | Replanning(epoch: nat, fromPlayback: bool) // context sampled, inference under way

  // own is the epoch of motion_seq_, the planner's last output.
  datatype Planner = Planner(at: PlannerAt, initialized: bool, own: nat, stamps: nat, cleared: nat)

  datatype ControllerAt =
    | TickTop
    | LossCleared     // long loss over: playback is cleared, the request is next
    | Body            // past the loss gate
    | Arbitrating     // past the ticket gate of tick_control
    | Leaving         // kRecovering -> kNormal decided, playback not yet cleared
    | Acting          // the tick's path for the current mode
    | Asking          // standing blend landed, the request is next

  // floor is the last ticket taken after a long loss.
  datatype Loss = Loss(missing: nat, ticket: nat, floor: nat)

  // The current or last stay in kRecovering: the blend counter and ticket, and
  // as history the number of select_token calls and tickets in this stay, the
  // ticket until the first adoption after it (watch), whether a late plan was
  // published meanwhile, and the last ticket that led back to the origin.
  datatype Recovery = Recovery(blendTick: nat, issued: bool, ticket: nat,
                               calls: nat, tickets: nat, watch: Option<nat>, late: bool, origin: nat)

  datatype System = System(
    requested: nat, done: nat, buffer: Option<Plan>, playback: Timeline,
    planner: Planner,
    controller: ControllerAt, inControl: bool, lastStamp: nat, mode: Mode,
    loss: Loss, recovery: Recovery)

  datatype PlannerEvent =
    | Load                   // reinit_req = reinit_requested_.load()
    | Branch                 // clear the buffer, or go on
    | NoState                // initialize_once: no robot state
    | ReadState              // initialize_once: the robot pose is read
    | InferFails             // no sequence this time
    | SeedPublish            // first sequence after a (re)start
    | Acknowledge            // reinit_done_.store(reinit_req)
    | NoReplan
    | Sample                 // context from the playback snapshot or the own last output
    | ReplanPublish

  datatype ControllerEvent =
    | Miss                   // LowState missing this tick
    | ClearAfterLoss
    | AskAfterLoss
    | Proceed                // no loss to recover from
    | EnterControl
    | SkipTick               // no state in tick_control, or not yet in CONTROL
    | Gate                   // the ticket test of tick_control
    | Arbitrate(vlaFresh: bool, vlaAlive: bool, calibrated: bool)
    | ClearOnLeaving
    | StreamTick             // tick_vla
    | BlendTick              // tick_recovery up to the ticket test
    | AskInRecovery
    | NoAdvance              // encoder or decoder failed
    | Advance(keep: bool)    // advance_playback; keep: the new plan lies wholly before the cursor

  datatype Event = P(p: PlannerEvent) | C(c: ControllerEvent)

  predicate RecoveryDone(s: System) { s.recovery.issued && s.done >= s.recovery.ticket }

  predicate PlannerCan(s: System, e: PlannerEvent) {
    match e
    case Load => s.planner.at.LoopTop?
    case Branch => s.planner.at.Loaded?
    case NoState => s.planner.at.Initializing?
    case ReadState => s.planner.at.Initializing?
    case InferFails => s.planner.at.Seeding? || s.planner.at.Replanning?
    case SeedPublish => s.planner.at.Seeding?
    case Acknowledge => s.planner.at.Acknowledging?
    case NoReplan => s.planner.at.Deciding?
    case Sample => s.planner.at.Deciding?
    case ReplanPublish => s.planner.at.Replanning?
  }

  predicate ControllerCan(s: System, e: ControllerEvent) {
    match e
    case Miss => s.controller.TickTop?
    case ClearAfterLoss => s.controller.TickTop? && s.loss.missing > LossPolicy.GRACE && s.inControl
    case AskAfterLoss => s.controller.LossCleared?
    case Proceed => s.controller.TickTop? && !(s.loss.missing > LossPolicy.GRACE && s.inControl)
    case EnterControl => s.controller.Body? && !s.inControl
    case SkipTick => s.controller.Body?
    case Gate => s.controller.Body? && s.inControl
    case Arbitrate(_, _, _) => s.controller.Arbitrating?
    case ClearOnLeaving => s.controller.Leaving?
    case StreamTick => s.controller.Acting? && s.mode.Vla?
    case BlendTick => s.controller.Acting? && s.mode.Recovering?
    case AskInRecovery => s.controller.Asking?
    case NoAdvance => s.controller.Acting? && (s.mode.Normal? || s.mode.Teleop?)
    case Advance(_) => s.controller.Acting? && (s.mode.Normal? || s.mode.Teleop?)
  }

  predicate Can(s: System, e: Event) {
    match e
    case P(p) => PlannerCan(s, p)
    case C(c) => ControllerCan(s, c)
  }

  // The buffer's next motion, published by SeedPublish and ReplanPublish.
  function Publish(s: System, epoch: nat, at: PlannerAt): System {
    s.(buffer := Some(Plan(epoch, s.planner.cleared, s.planner.stamps + 1)),
       planner := Planner(at, true, epoch, s.planner.stamps + 1, s.planner.cleared))
  }

  function PlannerStep(s: System, e: PlannerEvent): System
    requires PlannerCan(s, e)
  {
    var p := s.planner;
    match e
    case Load => s.(planner := p.(at := Loaded(s.requested)))
    case Branch =>
      var req := p.at.req;
      if req != s.done && p.initialized then
        s.(buffer := None, planner := p.(initialized := false, cleared := req, at := Initializing(req)))
      else if !p.initialized then s.(planner := p.(cleared := req, at := Initializing(req)))
      else s.(planner := p.(at := Deciding))
    case NoState => s.(planner := p.(at := LoopTop))
    case ReadState => s.(planner := p.(at := Seeding(p.at.req, s.requested)))
    case InferFails => s.(planner := p.(at := LoopTop))
    case SeedPublish => Publish(s, p.at.epoch, Acknowledging(p.at.req))
    case Acknowledge => s.(done := p.at.req, planner := p.(at := LoopTop))
    case NoReplan => s.(planner := p.(at := LoopTop))
    case Sample =>
      s.(planner := p.(at := if s.playback.Tracked? then Replanning(s.playback.epoch, true)
                             else Replanning(p.own, false)))
    case ReplanPublish =>
      var r := s.recovery;
      Publish(s, p.at.epoch, LoopTop).(recovery :=
        r.(late := r.late || (p.at.fromPlayback && r.watch.Some? && s.done >= r.watch.value)))
  }

  // advance_playback takes a motion with a new stamp, unless it would blend it
  // into a timeline that is already past its last frame.
  predicate Adopts(s: System, e: Event) {
    && e.C? && e.c.Advance? && Can(s, e)
    && s.buffer.Some? && s.buffer.value.stamp != s.lastStamp
    && (s.playback.Empty? || !e.c.keep)
  }

  // Then something is tracked that goes back no further than the motion allows;
  // otherwise nothing changes but the stamp.
  lemma AdoptionTakes(s: System, keep: bool)
    requires Can(s, C(Advance(keep)))
    ensures var t := Apply(s, C(Advance(keep)));
      if Adopts(s, C(Advance(keep))) then
        && t.lastStamp == s.buffer.value.stamp && t.playback.Tracked? && t.playback.epoch <= s.buffer.value.epoch
        && (s.playback.Empty? ==> t.playback.epoch == s.buffer.value.epoch)
      else t.playback == s.playback && (s.buffer.Some? ==> t.lastStamp == s.buffer.value.stamp)
  {
  }

  function AdvancePlayback(s: System, keep: bool): System {
    if s.buffer.None? || s.buffer.value.stamp == s.lastStamp then s
    else
      var plan := s.buffer.value;
      match s.playback
      case Empty =>
        s.(lastStamp := plan.stamp, playback := Tracked(plan.epoch), recovery := s.recovery.(watch := None))
      case Tracked(epoch) =>
        s.(lastStamp := plan.stamp, playback := if keep then s.playback else Tracked(MinNat(epoch, plan.epoch)))
  }

  function ControllerStep(s: System, e: ControllerEvent): System
    requires ControllerCan(s, e)
  {
    var r := s.recovery;
    match e
    case Miss => s.(loss := s.loss.(missing := s.loss.missing + 1))
    case ClearAfterLoss =>
      s.(playback := Empty, lastStamp := 0, recovery := r.(watch := None), controller := LossCleared)
    case AskAfterLoss =>
      s.(requested := s.requested + 1, loss := Loss(0, s.requested + 1, s.requested + 1), controller := Body)
    case Proceed => s.(loss := s.loss.(missing := 0), controller := Body)
    case EnterControl => s.(inControl := true, controller := TickTop)
    case SkipTick => s.(controller := TickTop)
    case Gate =>
      if s.loss.ticket != 0 && s.done < s.loss.ticket then s.(controller := TickTop)
      else s.(loss := s.loss.(ticket := 0), controller := Arbitrating)
    case Arbitrate(vlaFresh, vlaAlive, calibrated) =>
      var next := Decide(s.mode, vlaFresh, vlaAlive, calibrated, RecoveryDone(s));
      if s.mode.Recovering? && next.Normal? then s.(mode := next, controller := Leaving)
      else if next.Recovering? && !s.mode.Recovering? then
        s.(mode := next, controller := Acting,
           recovery := r.(issued := false, blendTick := 0, calls := 0, tickets := 0))
      else s.(mode := next, controller := Acting)
    case ClearOnLeaving =>
      s.(playback := Empty, lastStamp := 0, recovery := r.(origin := r.ticket), controller := Acting)
    case StreamTick => s.(controller := TickTop)
    case BlendTick =>
      var tick := if r.blendTick < RECOVERY_TICKS then r.blendTick + 1 else r.blendTick;
      s.(recovery := r.(blendTick := tick, calls := r.calls + 1),
         controller := if tick >= RECOVERY_TICKS && !r.issued then Asking else TickTop)
    case AskInRecovery =>
      s.(requested := s.requested + 1,
         recovery := r.(ticket := s.requested + 1, issued := true, tickets := r.tickets + 1,
                        watch := Some(s.requested + 1), late := false),
         controller := TickTop)
    case NoAdvance => s.(controller := TickTop)
    case Advance(keep) => AdvancePlayback(s, keep).(controller := TickTop)
  }

  function Apply(s: System, e: Event): System
    requires Can(s, e)
  {
    match e
    case P(p) => PlannerStep(s, p)
    case C(c) => ControllerStep(s, c)
  }

  function Initial(): System {
    System(0, 0, None, Empty, Planner(LoopTop, false, 0, 0, 0), TickTop, false, 0, Normal,
           Loss(0, 0, 0), Recovery(0, false, 0, 0, 0, None, false, 0))
  }

  predicate CanRun(s: System, es: seq<Event>)
    decreases |es|, 0
  {
    |es| == 0 || (CanRun(s, es[..|es| - 1]) && Can(Run(s, es[..|es| - 1]), es[|es| - 1]))
  }

  function Run(s: System, es: seq<Event>): System
    requires CanRun(s, es)
    decreases |es|, 1
  {
    if |es| == 0 then s else Apply(Run(s, es[..|es| - 1]), es[|es| - 1])
  }

  // ── what every step keeps ──────────────────────────────────────────────────

  // The planner thread and the ticket counters. The first line is the key fact:
  // a planner that is not initialized has nothing in the buffer.
  predicate PlannerInv(s: System) {
    var p := s.planner;
    && (!p.initialized ==> s.buffer.None? && (s.done == 0 || s.done < p.cleared))
    && s.done <= p.cleared <= s.requested
    && p.own <= s.requested
    && (s.buffer.Some? ==> s.buffer.value.epoch <= s.requested && s.done <= s.buffer.value.cleared)
    && (match p.at
        case LoopTop => true
        case Loaded(req) => p.cleared <= req <= s.requested
        case Initializing(req) => !p.initialized && p.cleared == req
        case Seeding(req, epoch) => !p.initialized && p.cleared == req <= epoch <= s.requested
        case Acknowledging(req) =>
          && p.initialized && p.cleared == req <= p.own
          && s.buffer.Some? && req <= s.buffer.value.epoch && req == s.buffer.value.cleared
        case Deciding => p.initialized
        case Replanning(epoch, _) => p.initialized && epoch <= s.requested)
  }

  predicate PastGate(s: System) {
    s.controller.Arbitrating? || s.controller.Leaving? || s.controller.Acting? || s.controller.Asking?
  }

  // The controller thread: the loss ticket, the recovery ticket, the gate.
  predicate ControllerInv(s: System) {
    && s.loss.floor <= s.requested
    && (s.loss.ticket == 0 || s.loss.ticket == s.loss.floor)
    && (s.loss.ticket == 0 ==> s.loss.floor <= s.done)
    && (PastGate(s) ==> s.loss.ticket == 0)
    && (s.controller.LossCleared? ==> s.playback.Empty?)
    && (s.playback.Tracked? ==> s.playback.epoch <= s.requested)
    && s.recovery.origin <= s.done
    && (s.controller.Leaving? ==> s.mode.Normal? && RecoveryDone(s))
    && (s.controller.Asking? ==> s.mode.Recovering? && !s.recovery.issued)
  }

  // Nothing the planner holds or the controller tracks is older than request
  // floor, and until that request is acknowledged nothing is tracked at all.
  predicate Settled(s: System, floor: nat) {
    && floor <= s.requested
    && (s.done < floor ==> s.playback.Empty?)
    && (s.playback.Tracked? ==> floor <= s.playback.epoch)
    && (floor <= s.done ==>
          && (s.buffer.Some? ==> floor <= s.buffer.value.epoch)
          && (s.planner.initialized ==> floor <= s.planner.own)
          && (s.planner.at.Replanning? ==> floor <= s.planner.at.epoch))
  }

  predicate Inv(s: System) {
    PlannerInv(s) && ControllerInv(s) && Settled(s, s.loss.floor)
  }

  // One lemma a planner event with something to keep; the others only move at.
  predicate KeptBy(s: System, e: PlannerEvent)
    requires PlannerCan(s, e)
  {
    var t := PlannerStep(s, e);
    PlannerInv(t) && ControllerInv(t) && s.done <= t.done
  }

  lemma StepBranch(s: System)
    requires Inv(s) && PlannerCan(s, Branch)
    ensures KeptBy(s, Branch)
  {
  }

  lemma StepReadState(s: System)
    requires Inv(s) && PlannerCan(s, ReadState)
    ensures KeptBy(s, ReadState)
  {
  }

  lemma StepSeedPublish(s: System)
    requires Inv(s) && PlannerCan(s, SeedPublish)
    ensures KeptBy(s, SeedPublish)
  {
  }

  lemma StepAcknowledge(s: System)
    requires Inv(s) && PlannerCan(s, Acknowledge)
    ensures KeptBy(s, Acknowledge)
  {
  }

  lemma StepSample(s: System)
    requires Inv(s) && PlannerCan(s, Sample)
    ensures KeptBy(s, Sample)
  {
  }

  lemma StepReplanPublish(s: System)
    requires Inv(s) && PlannerCan(s, ReplanPublish)
    ensures KeptBy(s, ReplanPublish)
  {
  }

  lemma StepLoad(s: System)
    requires Inv(s) && PlannerCan(s, Load)
    ensures KeptBy(s, Load)
  {
  }

  lemma StepToTop(s: System, e: PlannerEvent)
    requires Inv(s) && PlannerCan(s, e) && (e.NoState? || e.InferFails? || e.NoReplan?)
    ensures KeptBy(s, e)
  {
  }

  lemma PlannerStepKeeps(s: System, e: PlannerEvent)
    requires Inv(s) && PlannerCan(s, e)
    ensures PlannerInv(PlannerStep(s, e)) && ControllerInv(PlannerStep(s, e))
    ensures s.done <= PlannerStep(s, e).done
  {
    assert KeptBy(s, e) by {
      hide *;
      match e {
        case Load => StepLoad(s);
        case Branch => StepBranch(s);
        case ReadState => StepReadState(s);
        case SeedPublish => StepSeedPublish(s);
        case Acknowledge => StepAcknowledge(s);
        case Sample => StepSample(s);
        case ReplanPublish => StepReplanPublish(s);
        case NoState => StepToTop(s, e);
        case InferFails => StepToTop(s, e);
        case NoReplan => StepToTop(s, e);
      }
    }
    hide PlannerCan, PlannerInv, ControllerInv, PlannerStep, Inv;
  }

  lemma ControllerStepKeepsPlanner(s: System, e: ControllerEvent)
    requires PlannerInv(s) && ControllerCan(s, e)
    ensures PlannerInv(ControllerStep(s, e))
  {
  }

  lemma ControllerStepKeepsController(s: System, e: ControllerEvent)
    requires PlannerInv(s) && ControllerInv(s) && Settled(s, s.loss.floor) && ControllerCan(s, e)
    ensures ControllerInv(ControllerStep(s, e))
  {
  }

  // Any floor the controller is already past, or waits for at the gate, is kept.
  lemma PlannerKeepsSettled(s: System, e: PlannerEvent, floor: nat)
    requires PlannerInv(s) && PlannerCan(s, e) && Settled(s, floor)
    ensures Settled(PlannerStep(s, e), floor)
  {
  }

  lemma ControllerKeepsSettled(s: System, e: ControllerEvent, floor: nat)
    requires ControllerCan(s, e) && Settled(s, floor)
    requires PastGate(s) ==> floor <= s.done
    ensures Settled(ControllerStep(s, e), floor)
  {
  }

  lemma StepKeepsSettled(s: System, e: Event, floor: nat)
    requires Inv(s) && Can(s, e) && Settled(s, floor)
    requires PastGate(s) ==> floor <= s.done
    ensures Settled(Apply(s, e), floor)
  {
    hide Settled, PlannerStep, ControllerStep;
    match e {
      case P(p) => PlannerKeepsSettled(s, p, floor);
      case C(c) => ControllerKeepsSettled(s, c, floor);
    }
  }

  lemma PastGateMeansAcknowledged(s: System)
    requires ControllerInv(s)
    ensures PastGate(s) ==> s.loss.floor <= s.done
  {
  }

  lemma AskRaisesFloor(s: System)
    requires Inv(s) && s.controller.LossCleared?
    ensures Settled(ControllerStep(s, AskAfterLoss), s.requested + 1)
  {
  }

  lemma OnlyAskMovesFloor(s: System, e: Event)
    requires Can(s, e)
    ensures Apply(s, e).loss.floor == if e == C(AskAfterLoss) then s.requested + 1 else s.loss.floor
  {
  }

  lemma StepKeepsInv(s: System, e: Event)
    requires Inv(s) && Can(s, e)
    ensures Inv(Apply(s, e))
  {
    hide PlannerInv, ControllerInv, Settled, PlannerStep, ControllerStep;
    OnlyAskMovesFloor(s, e);
    match e {
      case P(p) => PlannerStepKeeps(s, p);
      case C(c) =>
        ControllerStepKeepsPlanner(s, c);
        ControllerStepKeepsController(s, c);
    }
    if e == C(AskAfterLoss) {
      AskRaisesFloor(s);
    } else {
      PastGateMeansAcknowledged(s);
      StepKeepsSettled(s, e, s.loss.floor);
    }
  }

  lemma {:induction false} RunKeepsInv(es: seq<Event>)
    requires CanRun(Initial(), es)
    ensures Inv(Run(Initial(), es))
    decreases |es|
  {
    if |es| > 0 {
      RunKeepsInv(es[..|es| - 1]);
      StepKeepsInv(Run(Initial(), es[..|es| - 1]), es[|es| - 1]);
    }
  }

  // ── after a long LowState loss ─────────────────────────────────────────────

  // In every reachable state nothing tracked is older than the last loss ticket,
  // nothing is tracked before it is acknowledged, and whatever is adopted is
  // acknowledged, at least as new as it, and published after a clear for it.
  lemma LossReseedSafety(es: seq<Event>, e: Event)
    requires CanRun(Initial(), es)
    ensures var s := Run(Initial(), es);
      && (s.playback.Tracked? ==> s.loss.floor <= s.playback.epoch && s.loss.floor <= s.done)
      && (Adopts(s, e) ==> s.loss.floor <= s.done <= s.buffer.value.cleared && s.loss.floor <= s.buffer.value.epoch)
  {
    RunKeepsInv(es);
  }

  // The floor never falls, so that holds from every loss on, for ever.
  lemma {:induction false} FloorNeverFalls(es: seq<Event>, more: seq<Event>)
    requires CanRun(Initial(), es + more)
    ensures CanRun(Initial(), es)
    ensures Run(Initial(), es).loss.floor <= Run(Initial(), es + more).loss.floor
    decreases |more|
  {
    if |more| == 0 {
      assert es + more == es;
    } else {
      assert (es + more)[..|es + more| - 1] == es + more[..|more| - 1];
      hide PlannerInv, Settled, PlannerStep, ControllerStep;
      FloorNeverFalls(es, more[..|more| - 1]);
      RunKeepsInv(es + more[..|more| - 1]);
      OnlyAskMovesFloor(Run(Initial(), es + more[..|more| - 1]), (es + more)[|es + more| - 1]);
    }
  }

  // ── when a loss is a long one ──────────────────────────────────────────────

  // What the loss gate has seen, tick by tick: a state, or none.
  function Gates(es: seq<Event>): (seen: seq<bool>) {
    if |es| == 0 then []
    else
      Gates(es[..|es| - 1]) +
      (match es[|es| - 1]
       case C(Miss) => [false]
       case C(Proceed) => [true]
       case C(ClearAfterLoss) => [true]
       case _ => [])
  }

  // The misses since the last tick with a state.
  function Trailing(seen: seq<bool>): nat {
    if |seen| == 0 || seen[|seen| - 1] then 0 else Trailing(seen[..|seen| - 1]) + 1
  }

  lemma {:induction false} TrailingAtLeast(seen: seq<bool>, n: nat)
    ensures n <= Trailing(seen) <==> n <= |seen| && forall k :: |seen| - n <= k < |seen| ==> !seen[k]
    decreases |seen|
  {
    if 0 < |seen| && !seen[|seen| - 1] && 0 < n {
      var fewer := seen[..|seen| - 1];
      TrailingAtLeast(fewer, n - 1);
      assert n <= Trailing(seen) <==> n - 1 <= Trailing(fewer);
      assert forall k :: 0 <= k < |fewer| ==> fewer[k] == seen[k];
    }
  }

  lemma TrailingSnoc(seen: seq<bool>, ok: bool)
    ensures Trailing(seen + [ok]) == if ok then 0 else Trailing(seen) + 1
  {
    assert (seen + [ok])[..|seen|] == seen;
  }

  // Between the clear and the request of a long loss the count is still that of the loss.
  lemma {:induction false} MissingIsTrailing(es: seq<Event>)
    requires CanRun(Initial(), es)
    ensures var s := Run(Initial(), es);
      !s.controller.LossCleared? ==> s.loss.missing == Trailing(Gates(es))
    ensures Run(Initial(), es).controller.LossCleared? ==> Trailing(Gates(es)) == 0
    decreases |es|
  {
    if |es| > 0 {
      var fewer, e := es[..|es| - 1], es[|es| - 1];
      MissingIsTrailing(fewer);
      TrailingSnoc(Gates(fewer), true);
      TrailingSnoc(Gates(fewer), false);
      assert Gates(fewer) + [] == Gates(fewer);
      MissingStep(Run(Initial(), fewer), e);
      hide CanRun, Run, Can, Apply, Trailing;
    }
  }

  lemma MissingStep(s: System, e: Event)
    requires Can(s, e)
    ensures var t := Apply(s, e);
      && t.loss.missing == (match e
                            case C(Miss) => s.loss.missing + 1
                            case C(Proceed) => 0
                            case C(AskAfterLoss) => 0
                            case _ => s.loss.missing)
      && (t.controller.LossCleared? <==> e == C(ClearAfterLoss) || (s.controller.LossCleared? && e.P?))
      && (e == C(Miss) || e == C(Proceed) || e == C(ClearAfterLoss) ==> !s.controller.LossCleared?)
  {
  }

  // In every run the next tick with a state clears the timeline and asks for a
  // reseed exactly when, in CONTROL, the last 26 ticks had none; otherwise it goes on.
  lemma LongLossIff(es: seq<Event>)
    requires CanRun(Initial(), es) && Run(Initial(), es).controller.TickTop?
    ensures var s, seen := Run(Initial(), es), Gates(es);
      var long := s.inControl && 26 <= |seen| && forall k :: |seen| - 26 <= k < |seen| ==> !seen[k];
      && (Can(s, C(ClearAfterLoss)) <==> long) && (Can(s, C(Proceed)) <==> !long)
  {
    MissingIsTrailing(es);
    TrailingAtLeast(Gates(es), 26);
    hide CanRun, Run, Gates, Trailing;
  }

  // ── a stay in kRecovering ──────────────────────────────────────────────────

  predicate StayInv(s: System) {
    var r := s.recovery;
    && r.ticket <= s.requested
    && (s.mode.Recovering? || s.controller.Leaving? ==>
          && r.tickets == (if r.issued then 1 else 0)
          && r.blendTick == MinNat(RECOVERY_TICKS, r.calls)
          && (r.issued || s.controller.Asking? <==> r.calls >= RECOVERY_TICKS)
          && (r.issued ==>
                r.watch == Some(r.ticket) || s.controller.LossCleared? || r.ticket < s.loss.floor))
    && (s.controller.LossCleared? ==> r.watch.None?)
  }

  lemma PlannerKeepsStay(s: System, e: PlannerEvent)
    requires StayInv(s) && PlannerCan(s, e)
    ensures StayInv(PlannerStep(s, e))
  {
  }

  lemma ControllerKeepsStay(s: System, e: ControllerEvent)
    requires ControllerInv(s) && StayInv(s) && ControllerCan(s, e)
    ensures StayInv(ControllerStep(s, e))
  {
  }

  // A stay ends only in kNormal, after its one ticket is acknowledged; the
  // ticket is taken after at least 50 select_token calls of the same stay.
  lemma StayEnds(s: System, e: Event)
    requires Inv(s) && StayInv(s) && Can(s, e) && s.mode.Recovering?
    ensures var t := Apply(s, e);
      && (!t.mode.Recovering? ==>
            && t.mode.Normal? && s.recovery.tickets == 1 && s.recovery.calls >= RECOVERY_TICKS
            && s.recovery.ticket <= s.done)
      && (t.recovery.tickets != s.recovery.tickets ==>
            && s.recovery.tickets == 0 && t.recovery.tickets == 1 && t.recovery.ticket == t.requested
            && s.recovery.blendTick == RECOVERY_TICKS <= s.recovery.calls)
  {
    hide PlannerInv, Settled;
  }

  // ── progress ───────────────────────────────────────────────────────────────

  // The planner has acknowledged the ticket, or is on its way to it from a load
  // of reinit_requested_ that saw it.
  predicate Serving(s: System, ticket: nat) {
    || ticket <= s.done
    || (match s.planner.at
        case Loaded(req) => ticket <= req
        case Initializing(req) => ticket <= req
        case Seeding(req, _) => ticket <= req
        case Acknowledging(req) => ticket <= req
        case _ => false)
  }

  // The planner finds no state, or gets no sequence.
  predicate Fails(e: Event) { e == P(NoState) || e == P(InferFails) }

  lemma StepKeepsServing(s: System, e: Event, ticket: nat)
    requires Inv(s) && Can(s, e) && Serving(s, ticket)
    requires Fails(e) ==> ticket <= s.done
    ensures Serving(Apply(s, e), ticket)
    ensures s.done <= Apply(s, e).done
  {
    match e
    case P(p) => hide PlannerInv, ControllerInv; PlannerStepKeeps(s, p);
    case C(c) =>
  }

  lemma {:induction false} RunKeepsServing(s: System, es: seq<Event>, ticket: nat)
    requires Inv(s) && CanRun(s, es) && Serving(s, ticket)
    requires ticket <= s.done || (forall i :: 0 <= i < |es| ==> !Fails(es[i]))
    ensures Inv(Run(s, es)) && Serving(Run(s, es), ticket) && s.done <= Run(s, es).done
    decreases |es|
  {
    if |es| > 0 {
      hide Can, Apply, Serving, Fails, Inv;
      var most := es[..|es| - 1];
      RunKeepsServing(s, most, ticket);
      StepKeepsInv(Run(s, most), es[|es| - 1]);
      StepKeepsServing(Run(s, most), es[|es| - 1], ticket);
    }
  }

  // A planner iteration of some run, from its load of reinit_requested_ back to
  // the loop top without failing, with any steps of the controller in between,
  // and any run after it.
  predicate Served(before: seq<Event>, during: seq<Event>, later: seq<Event>) {
    && CanRun(Initial(), before)
    && var loaded := Run(Initial(), before);
      && loaded.planner.at.Loaded? && CanRun(loaded, during)
      && (forall i :: 0 <= i < |during| ==> !Fails(during[i]))
      && var idle := Run(loaded, during);
        idle.planner.at.LoopTop? && CanRun(idle, later)
  }

  function SeenRequest(before: seq<Event>): nat
    requires CanRun(Initial(), before) && Run(Initial(), before).planner.at.Loaded?
  {
    Run(Initial(), before).planner.at.req
  }

  function AfterServing(before: seq<Event>, during: seq<Event>, later: seq<Event>): System
    requires Served(before, during, later)
  {
    Run(Run(Run(Initial(), before), during), later)
  }

  // In every interleaving such an iteration acknowledges every request its load
  // saw, for ever.
  lemma IterationAcknowledges(before: seq<Event>, during: seq<Event>, later: seq<Event>)
    requires Served(before, during, later)
    ensures SeenRequest(before) <= AfterServing(before, during, later).done
  {
    hide CanRun, Run, Inv;
    var loaded, ticket := Run(Initial(), before), SeenRequest(before);
    RunKeepsInv(before);
    RunKeepsServing(loaded, during, ticket);
    RunKeepsServing(Run(loaded, during), later, ticket);
  }

  // So a stay in kRecovering whose ticket the load saw ends at the next
  // arbitration, which leads to the clear of the timeline.
  lemma ServedRecoveryEnds(before: seq<Event>, during: seq<Event>, later: seq<Event>,
                           vlaFresh: bool, vlaAlive: bool, calibrated: bool)
    requires Served(before, during, later)
    requires var t := AfterServing(before, during, later);
      t.controller.Arbitrating? && t.mode.Recovering? && t.recovery.issued && t.recovery.ticket <= SeenRequest(before)
    ensures var t := AfterServing(before, during, later);
      var u := Apply(t, C(Arbitrate(vlaFresh, vlaAlive, calibrated)));
      u.mode.Normal? && Can(u, C(ClearOnLeaving)) && Apply(u, C(ClearOnLeaving)).playback.Empty?
  {
    IterationAcknowledges(before, during, later);
    hide Served, AfterServing, SeenRequest;
  }

  // And after a long loss whose ticket the load saw, tick_control goes on.
  lemma ServedLossResumes(before: seq<Event>, during: seq<Event>, later: seq<Event>)
    requires Served(before, during, later)
    requires var t := AfterServing(before, during, later);
      t.controller.Body? && t.inControl && t.loss.ticket <= SeenRequest(before)
    ensures Apply(AfterServing(before, during, later), C(Gate)).controller.Arbitrating?
  {
    IterationAcknowledges(before, during, later);
    hide Served, AfterServing, SeenRequest;
  }

  // ── after a recovery ───────────────────────────────────────────────────────

  // While the first adoption after ticket R is awaited: once R is acknowledged,
  // what the planner holds is older than R exactly when a late motion, sampled
  // from the timeline that is still to be cleared, was published.
  predicate WatchInv(s: System) {
    var r := s.recovery;
    r.watch.Some? ==>
      var ticket := r.watch.value;
      && 0 < r.ticket == ticket == s.requested
      && (r.late ==> ticket <= s.done)
      && (!s.mode.Recovering? ==> ticket <= s.done)
      && (s.playback.Tracked? ==>
            s.playback.epoch < ticket && r.issued && (s.mode.Recovering? || s.controller.Leaving?))
      && (ticket <= s.done ==>
            && (s.buffer.Some? ==> (s.buffer.value.epoch < ticket <==> r.late))
            && (s.planner.initialized ==> (s.planner.own < ticket <==> r.late))
            && (s.planner.at.Replanning? ==>
                  (s.planner.at.epoch < ticket <==> r.late || s.planner.at.fromPlayback)))
  }

  lemma PlannerKeepsWatch(s: System, e: PlannerEvent)
    requires PlannerInv(s) && WatchInv(s) && PlannerCan(s, e)
    ensures WatchInv(PlannerStep(s, e))
  {
  }

  lemma ControllerKeepsWatch(s: System, e: ControllerEvent)
    requires Inv(s) && StayInv(s) && WatchInv(s) && ControllerCan(s, e)
    ensures WatchInv(ControllerStep(s, e))
  {
  }

  predicate FullInv(s: System) { Inv(s) && StayInv(s) && WatchInv(s) }

  lemma StepKeepsFullInv(s: System, e: Event)
    requires FullInv(s) && Can(s, e)
    ensures FullInv(Apply(s, e))
  {
    hide PlannerInv, ControllerInv, Settled, StayInv, WatchInv, PlannerStep, ControllerStep;
    StepKeepsInv(s, e);
    match e {
      case P(p) => PlannerKeepsStay(s, p); PlannerKeepsWatch(s, p);
      case C(c) => ControllerKeepsStay(s, c); ControllerKeepsWatch(s, c);
    }
  }

  lemma {:induction false} RunKeepsFullInv(es: seq<Event>)
    requires CanRun(Initial(), es)
    ensures FullInv(Run(Initial(), es))
    decreases |es|
  {
    if |es| > 0 {
      hide FullInv, Apply;
      RunKeepsFullInv(es[..|es| - 1]);
      StepKeepsFullInv(Run(Initial(), es[..|es| - 1]), es[|es| - 1]);
    }
  }

  // In every run the first motion adopted after a recovery was published after
  // the planner's clear for its ticket, and is older than the ticket exactly
  // when a late motion was published before the timeline was cleared.
  lemma FirstAdoptionAfterRecovery(es: seq<Event>, e: Event)
    requires CanRun(Initial(), es)
    requires Run(Initial(), es).recovery.watch.Some? && Adopts(Run(Initial(), es), e)
    ensures var s := Run(Initial(), es);
      var ticket := s.recovery.watch.value;
      && ticket <= s.done && ticket <= s.buffer.value.cleared
      && (ticket <= s.buffer.value.epoch <==> !s.recovery.late)
  {
    hide Settled, StayInv;
    RunKeepsFullInv(es);
  }

  // The run-level form of StayEnds.
  lemma EveryStayEndsAcknowledged(es: seq<Event>, e: Event)
    requires CanRun(Initial(), es) && Can(Run(Initial(), es), e)
    requires Run(Initial(), es).mode.Recovering? && !Apply(Run(Initial(), es), e).mode.Recovering?
    ensures var s := Run(Initial(), es);
      && Apply(s, e).mode.Normal? && s.recovery.tickets == 1
      && s.recovery.calls >= RECOVERY_TICKS && s.recovery.ticket <= s.done
  {
    hide WatchInv;
    RunKeepsFullInv(es);
    StayEnds(Run(Initial(), es), e);
  }

  // In every run a stay has its ticket exactly from its 50th blend tick on, but
  // for the moment between that tick and the request.
  lemma TicketIsTaken(es: seq<Event>)
    requires CanRun(Initial(), es) && Run(Initial(), es).mode.Recovering?
    ensures var s := Run(Initial(), es);
      && (s.recovery.issued || s.controller.Asking? <==> 50 <= s.recovery.calls)
      && !(s.recovery.issued && s.controller.Asking?)
  {
    hide WatchInv, Settled, PlannerInv;
    RunKeepsFullInv(es);
  }

  // ── the scheduling assumption ──────────────────────────────────────────────

  // The planner does not sample the frozen timeline between acknowledging a
  // recovery's ticket and the controller clearing that timeline.
  predicate Punctual(s: System, e: Event) {
    e == P(Sample) && s.playback.Tracked? && s.recovery.watch.Some? ==> s.done < s.recovery.watch.value
  }

  predicate PunctualRun(es: seq<Event>)
    requires CanRun(Initial(), es)
    decreases |es|
  {
    |es| == 0 || (PunctualRun(es[..|es| - 1]) && Punctual(Run(Initial(), es[..|es| - 1]), es[|es| - 1]))
  }

  predicate OriginInv(s: System) {
    var r := s.recovery;
    && Settled(s, r.origin)
    && (r.watch.Some? ==>
          && !r.late
          && (r.watch.value <= s.done && s.planner.at.Replanning? ==> !s.planner.at.fromPlayback))
  }

  lemma PlannerKeepsOrigin(s: System, e: PlannerEvent)
    requires FullInv(s) && OriginInv(s) && PlannerCan(s, e) && Punctual(s, P(e))
    ensures OriginInv(PlannerStep(s, e))
  {
    hide StayInv;
    PlannerKeepsSettled(s, e, s.recovery.origin);
  }

  lemma LeavingSettles(s: System)
    requires FullInv(s) && OriginInv(s) && s.controller.Leaving?
    ensures Settled(ControllerStep(s, ClearOnLeaving), s.recovery.ticket)
  {
  }

  lemma OnlyLeavingMovesOrigin(s: System, e: ControllerEvent)
    requires ControllerCan(s, e)
    ensures ControllerStep(s, e).recovery.origin == if e.ClearOnLeaving? then s.recovery.ticket else s.recovery.origin
  {
  }

  lemma ControllerKeepsOrigin(s: System, e: ControllerEvent)
    requires FullInv(s) && OriginInv(s) && ControllerCan(s, e)
    ensures OriginInv(ControllerStep(s, e))
  {
    OnlyLeavingMovesOrigin(s, e);
    if e.ClearOnLeaving? {
      LeavingSettles(s);
    } else {
      hide StayInv, PlannerInv;
      ControllerKeepsSettled(s, e, s.recovery.origin);
    }
  }

  lemma {:induction false} PunctualKeepsOrigin(es: seq<Event>)
    requires CanRun(Initial(), es) && PunctualRun(es)
    ensures OriginInv(Run(Initial(), es))
    decreases |es|
  {
    if |es| > 0 {
      var s, e := Run(Initial(), es[..|es| - 1]), es[|es| - 1];
      hide FullInv, OriginInv, PlannerStep, ControllerStep;
      PunctualKeepsOrigin(es[..|es| - 1]);
      RunKeepsFullInv(es[..|es| - 1]);
      match e {
        case P(p) => PlannerKeepsOrigin(s, p);
        case C(c) => ControllerKeepsOrigin(s, c);
      }
    }
  }

  // In a punctual run, for ever after a recovery, whatever is tracked or adopted
  // goes back to a pose read after the recovery's request.
  lemma PunctualRecoverySafety(es: seq<Event>, e: Event)
    requires CanRun(Initial(), es) && PunctualRun(es)
    ensures var s := Run(Initial(), es);
      && (s.playback.Tracked? ==> s.recovery.origin <= s.playback.epoch)
      && (Adopts(s, e) ==> s.recovery.origin <= s.buffer.value.epoch)
      && (Adopts(s, e) && s.recovery.watch.Some? ==> s.recovery.watch.value <= s.buffer.value.epoch)
  {
    PunctualKeepsOrigin(es);
    if Adopts(Run(Initial(), es), e) {
      RunKeepsFullInv(es);
      if Run(Initial(), es).recovery.watch.Some? { FirstAdoptionAfterRecovery(es, e); }
    }
  }

  // ── without it ─────────────────────────────────────────────────────────────

  predicate Reaches(es: seq<Event>, t: System) {
    CanRun(Initial(), es) && Run(Initial(), es) == t
  }

  lemma Then(es: seq<Event>, t: System, e: Event) returns (longer: seq<Event>, u: System)
    requires Reaches(es, t) && Can(t, e)
    ensures Reaches(longer, u) && longer == es + [e] && u == Apply(t, e)
  {
    hide Can, Apply;
    longer, u := es + [e], Apply(t, e);
    assert longer[..|longer| - 1] == es;
  }

  lemma ReachInitial()
    ensures Reaches([], Initial())
  {
  }

  // A first motion (epoch 0) is tracked.
  lemma ReachTracking() returns (es: seq<Event>, t: System)
    ensures Reaches(es, t)
    ensures t == System(0, 0, Some(Plan(0, 0, 1)), Tracked(0), Planner(LoopTop, true, 0, 1, 0),
                        TickTop, true, 1, Normal, Loss(0, 0, 0), Recovery(0, false, 0, 0, 0, None, false, 0))
  {
    hide CanRun, Run, Reaches;
    ReachInitial();
    es, t := Then([], Initial(), P(Load));
    es, t := Then(es, t, P(Branch));
    es, t := Then(es, t, P(ReadState));
    es, t := Then(es, t, P(SeedPublish));
    es, t := Then(es, t, P(Acknowledge));
    es, t := Then(es, t, C(Proceed));
    es, t := Then(es, t, C(EnterControl));
    es, t := Then(es, t, C(Proceed));
    es, t := Then(es, t, C(Gate));
    es, t := Then(es, t, C(Arbitrate(false, false, false)));
    es, t := Then(es, t, C(Advance(false)));
  }

  // A token stream claims the robot, is lost, and n ticks of standing blend pass.
  lemma {:induction false} ReachBlend(n: nat) returns (es: seq<Event>, t: System)
    requires 0 < n <= RECOVERY_TICKS
    ensures Reaches(es, t)
    ensures t == System(0, 0, Some(Plan(0, 0, 1)), Tracked(0), Planner(LoopTop, true, 0, 1, 0),
                        if n < RECOVERY_TICKS then TickTop else Asking, true, 1, Recovering, Loss(0, 0, 0),
                        Recovery(n, false, 0, n, 0, None, false, 0))
  {
    hide CanRun, Run, Reaches;
    if n == 1 {
      es, t := ReachTracking();
      es, t := Then(es, t, C(Proceed));
      es, t := Then(es, t, C(Gate));
      es, t := Then(es, t, C(Arbitrate(true, true, false)));
      es, t := Then(es, t, C(StreamTick));
    } else {
      es, t := ReachBlend(n - 1);
    }
    es, t := Then(es, t, C(Proceed));
    es, t := Then(es, t, C(Gate));
    es, t := Then(es, t, C(Arbitrate(false, false, false)));
    es, t := Then(es, t, C(BlendTick));
  }

  // The ticket is taken and the planner starts again.
  lemma ReachReseeding() returns (es: seq<Event>, t: System)
    ensures Reaches(es, t)
    ensures t == System(1, 0, Some(Plan(1, 1, 2)), Tracked(0), Planner(Acknowledging(1), true, 1, 2, 1),
                        TickTop, true, 1, Recovering, Loss(0, 0, 0),
                        Recovery(50, true, 1, 50, 1, Some(1), false, 0))
  {
    hide CanRun, Run, Reaches;
    es, t := ReachBlend(RECOVERY_TICKS);
    es, t := Then(es, t, C(AskInRecovery));
    es, t := Then(es, t, P(Load));
    es, t := Then(es, t, P(Branch));
    es, t := Then(es, t, P(ReadState));
    es, t := Then(es, t, P(SeedPublish));
  }

  // It acknowledges, and samples the frozen timeline at once.
  lemma ReachLate() returns (es: seq<Event>, t: System)
    ensures Reaches(es, t)
    ensures t == System(1, 1, Some(Plan(0, 1, 3)), Tracked(0), Planner(LoopTop, true, 0, 3, 1),
                        TickTop, true, 1, Recovering, Loss(0, 0, 0),
                        Recovery(50, true, 1, 50, 1, Some(1), true, 0))
  {
    hide CanRun, Run, Reaches;
    es, t := ReachReseeding();
    es, t := Then(es, t, P(Acknowledge));
    es, t := Then(es, t, P(Load));
    es, t := Then(es, t, P(Branch));
    es, t := Then(es, t, P(Sample));
    es, t := Then(es, t, P(ReplanPublish));
  }

  // Without the assumption the promise fails: in some run the first motion
  // adopted after the acknowledged ticket 1 goes back to a pose older than it.
  lemma LateMotionIsAdopted()
    ensures exists es, e ::
              && CanRun(Initial(), es) && Adopts(Run(Initial(), es), e)
              && Run(Initial(), es).recovery.watch == Some(1) && Run(Initial(), es).buffer.value.epoch == 0
  {
    hide CanRun, Run;
    var es, t := ReachLate();
    es, t := Then(es, t, C(Proceed));
    es, t := Then(es, t, C(Gate));
    es, t := Then(es, t, C(Arbitrate(false, false, false)));
    es, t := Then(es, t, C(ClearOnLeaving));
    assert CanRun(Initial(), es) && Adopts(Run(Initial(), es), C(Advance(false)));
  }
}
