// The bodies of the two loops as sequential code: one planner iteration
// (src/planner/planner_inference.cpp) and one controller tick
// (src/control/whole_body_controller.cpp). Undisturbed, each is a run of the
// protocol of module Reseed, whose theorems allow the other thread in between
// any two of its steps.
module ReseedLoops {
  import LossPolicy
  import opened Arbiter
  import opened Numbers
  import opened Optional
  import opened Reseed

  // ── the steps of each loop body, from the state it starts in and its inputs ──

  function InitializeEvents(hasState: bool, infers: bool): seq<Event> {
    if !hasState then [P(NoState)]
    else if !infers then [P(ReadState), P(InferFails)]
    else [P(ReadState), P(SeedPublish)]
  }

  function ReplanEvents(due: bool, infers: bool): seq<Event> {
    if !due then [P(NoReplan)] else if !infers then [P(Sample), P(InferFails)] else [P(Sample), P(ReplanPublish)]
  }

  predicate Restarts(s: System) { !s.planner.initialized || s.requested != s.done }

  function PlannerEvents(s: System, hasState: bool, due: bool, infers: bool): seq<Event> {
    [P(Load), P(Branch)] +
    (if !Restarts(s) then ReplanEvents(due, infers)
     else InitializeEvents(hasState, infers) + (if hasState && infers then [P(Acknowledge)] else []))
  }

  predicate LongLoss(s: System) { s.loss.missing > LossPolicy.GRACE && s.inControl }

  function LossEvents(s: System, stateOk: bool): seq<Event> {
    if !stateOk then [C(Miss)] else if LongLoss(s) then [C(ClearAfterLoss), C(AskAfterLoss)] else [C(Proceed)]
  }

  function NextMode(s: System, vlaFresh: bool, vlaAlive: bool, calibrated: bool): Mode {
    Decide(s.mode, vlaFresh, vlaAlive, calibrated, RecoveryDone(s))
  }

  function ArbiterEvents(s: System, vlaFresh: bool, vlaAlive: bool, calibrated: bool): seq<Event> {
    var arbitrate := C(Arbitrate(vlaFresh, vlaAlive, calibrated));
    if s.mode.Recovering? && NextMode(s, vlaFresh, vlaAlive, calibrated).Normal? then [arbitrate, C(ClearOnLeaving)]
    else [arbitrate]
  }

  function RecoveryEvents(r: Recovery): seq<Event> {
    if r.blendTick + 1 >= RECOVERY_TICKS && !r.issued then [C(BlendTick), C(AskInRecovery)] else [C(BlendTick)]
  }

  function PlannedEvents(advances: bool, keep: bool): seq<Event> {
    [C(if advances then Advance(keep) else NoAdvance)]
  }

  // A stay in kRecovering begins.
  function Entered(r: Recovery): Recovery { r.(issued := false, blendTick := 0, calls := 0, tickets := 0) }

  predicate GateHolds(s: System) { s.loss.ticket != 0 && s.done < s.loss.ticket }

  function ControlEvents(s: System, gathered: bool, vlaFresh: bool, vlaAlive: bool, calibrated: bool,
                         advances: bool, keep: bool): seq<Event>
  {
    if !gathered then [C(SkipTick)]
    else if GateHolds(s) then [C(Gate)]
    else
      [C(Gate)] + ArbiterEvents(s, vlaFresh, vlaAlive, calibrated) +
      (match NextMode(s, vlaFresh, vlaAlive, calibrated)
       case Vla => [C(StreamTick)]
       case Recovering => RecoveryEvents(if s.mode.Recovering? then s.recovery else Entered(s.recovery))
       case _ => PlannedEvents(advances, keep))
  }

  lemma One(s: System, e: Event)
    requires Can(s, e)
    ensures CanRun(s, [e]) && Run(s, [e]) == Apply(s, e)
  {
    hide Can, Apply;
    assert [e][..0] == [];
  }

  lemma Two(s: System, e: Event, f: Event)
    requires Can(s, e) && Can(Apply(s, e), f)
    ensures CanRun(s, [e, f]) && Run(s, [e, f]) == Apply(Apply(s, e), f)
  {
    hide Can, Apply, CanRun, Run;
    One(s, e);
    One(Apply(s, e), f);
    RunConcat(s, [e], [f]);
    assert [e] + [f] == [e, f];
  }

  lemma {:induction false} RunConcat(s: System, a: seq<Event>, b: seq<Event>)
    requires CanRun(s, a) && CanRun(Run(s, a), b)
    ensures CanRun(s, a + b) && Run(s, a + b) == Run(Run(s, a), b)
    decreases |b|
  {
    hide Can, Apply;
    if |b| == 0 {
      assert a + b == a;
    } else {
      assert (a + b)[..|a + b| - 1] == a + b[..|b| - 1];
      RunConcat(s, a, b[..|b| - 1]);
    }
  }

  lemma ArbitrateStep(s: System, vlaFresh: bool, vlaAlive: bool, calibrated: bool)
    requires s.controller.Arbitrating?
    ensures Can(s, C(Arbitrate(vlaFresh, vlaAlive, calibrated)))
    ensures var next := NextMode(s, vlaFresh, vlaAlive, calibrated);
      Apply(s, C(Arbitrate(vlaFresh, vlaAlive, calibrated))) ==
        s.(mode := next, controller := if s.mode.Recovering? && next.Normal? then Leaving else Acting,
           recovery := if next.Recovering? && !s.mode.Recovering? then Entered(s.recovery) else s.recovery)
  {
  }

  lemma AcknowledgeStep(s: System)
    requires s.planner.at.Acknowledging?
    ensures Can(s, P(Acknowledge))
    ensures Apply(s, P(Acknowledge)) == s.(done := s.planner.at.req, planner := s.planner.(at := LoopTop))
  {
  }

  lemma ClearStep(s: System)
    requires s.controller.Leaving?
    ensures Apply(s, C(ClearOnLeaving)) ==
            s.(playback := Empty, lastStamp := 0, controller := Acting,
               recovery := s.recovery.(origin := s.recovery.ticket))
  {
  }

  lemma ArbiterRun(s: System, vlaFresh: bool, vlaAlive: bool, calibrated: bool)
    requires s.controller.Arbitrating?
    ensures var es := ArbiterEvents(s, vlaFresh, vlaAlive, calibrated);
      var next := NextMode(s, vlaFresh, vlaAlive, calibrated);
      && CanRun(s, es)
      && Run(s, es) ==
           if s.mode.Recovering? && next.Normal? then
             s.(mode := next, controller := Acting, playback := Empty, lastStamp := 0,
                recovery := s.recovery.(origin := s.recovery.ticket))
           else if next.Recovering? && !s.mode.Recovering? then
             s.(mode := next, controller := Acting, recovery := Entered(s.recovery))
           else s.(mode := next, controller := Acting)
  {
    var arbitrate := C(Arbitrate(vlaFresh, vlaAlive, calibrated));
    ArbitrateStep(s, vlaFresh, vlaAlive, calibrated);
    hide CanRun, Run, Apply, NextMode;
    if |ArbiterEvents(s, vlaFresh, vlaAlive, calibrated)| == 2 {
      ClearStep(Apply(s, arbitrate));
      Two(s, arbitrate, C(ClearOnLeaving));
    } else {
      One(s, arbitrate);
    }
  }

  // ── one turn of both loops ─────────────────────────────────────────────────

  // A (re)start that gets a state and a sequence.
  lemma RestartRun(s: System, due: bool)
    requires s.planner.at.LoopTop? && Restarts(s)
    ensures var es := PlannerEvents(s, true, due, true);
      && CanRun(s, es)
      && Run(s, es) == s.(done := s.requested, buffer := Some(Plan(s.requested, s.requested, s.planner.stamps + 1)),
                          planner := Planner(LoopTop, true, s.requested, s.planner.stamps + 1, s.requested))
  {
    hide CanRun, Run;
    var load, start := [P(Load), P(Branch)], [P(ReadState), P(SeedPublish)];
    Two(s, P(Load), P(Branch));
    var s1 := Run(s, load);
    Two(s1, P(ReadState), P(SeedPublish));
    var s2 := Run(s1, start);
    One(s2, P(Acknowledge));
    RunConcat(s1, start, [P(Acknowledge)]);
    RunConcat(s, load, start + [P(Acknowledge)]);
  }

  // A replan that gets a sequence goes on from the timeline if there is one, else
  // from the planner's last output.
  lemma ReplanRun(s: System, hasState: bool)
    requires s.planner.at.LoopTop? && !Restarts(s)
    ensures var es := PlannerEvents(s, hasState, true, true);
      && CanRun(s, es)
      && var t, epoch := Run(s, es), if s.playback.Tracked? then s.playback.epoch else s.planner.own;
        && t.buffer == Some(Plan(epoch, s.planner.cleared, s.planner.stamps + 1))
        && t.planner == Planner(LoopTop, true, epoch, s.planner.stamps + 1, s.planner.cleared)
        && t == s.(buffer := t.buffer, planner := t.planner, recovery := t.recovery)
  {
    hide CanRun, Run;
    Two(s, P(Load), P(Branch));
    var s1 := Run(s, [P(Load), P(Branch)]);
    Two(s1, P(Sample), P(ReplanPublish));
    RunConcat(s, [P(Load), P(Branch)], [P(Sample), P(ReplanPublish)]);
  }

  lemma LeavesRecovery(s: System, vlaFresh: bool, vlaAlive: bool, calibrated: bool)
    requires s.mode.Recovering? && RecoveryDone(s)
    ensures NextMode(s, vlaFresh, vlaAlive, calibrated).Normal?
  {
  }

  // A tick in kRecovering with a state and every ticket acknowledged.
  lemma LeavingTick(s: System, vlaFresh: bool, vlaAlive: bool, calibrated: bool, advances: bool, keep: bool)
    requires s.controller.Body? && s.inControl && s.loss.ticket <= s.done
    requires s.mode.Recovering? && RecoveryDone(s)
    requires s.buffer.Some? && s.buffer.value.stamp > 0
    ensures var es := ControlEvents(s, true, vlaFresh, vlaAlive, calibrated, advances, keep);
      && CanRun(s, es)
      && var u := Run(s, es);
        && u.mode.Normal? && u.recovery.origin == s.recovery.ticket && u.done == s.done
        && u.playback == if advances then Tracked(s.buffer.value.epoch) else Empty
  {
    hide CanRun, Run, Decide;
    One(s, C(Gate));
    var s1 := Apply(s, C(Gate));
    LeavesRecovery(s, vlaFresh, vlaAlive, calibrated);
    LeavesRecovery(s1, vlaFresh, vlaAlive, calibrated);
    hide NextMode;
    ArbiterRun(s1, vlaFresh, vlaAlive, calibrated);
    var arbitrated, last := ArbiterEvents(s, vlaFresh, vlaAlive, calibrated), PlannedEvents(advances, keep);
    One(Run(s1, arbitrated), last[0]);
    hide Apply, Can;
    RunConcat(s, [C(Gate)], arbitrated);
    RunConcat(s, [C(Gate)] + arbitrated, last);
  }

  // Undisturbed, one planner iteration that gets a state and a sequence and then
  // one tick_control end a recovery whose ticket is out; what is tracked then,
  // if anything, goes back to a pose read after the ticket was issued.
  lemma TurnEndsRecovery(before: seq<Event>, due: bool, vlaFresh: bool, vlaAlive: bool, calibrated: bool,
                         advances: bool, keep: bool)
    requires CanRun(Initial(), before)
    requires var s := Run(Initial(), before);
      && s.planner.at.LoopTop? && s.controller.Body? && s.inControl
      && s.mode.Recovering? && s.recovery.issued && s.done < s.recovery.ticket
    ensures var s := Run(Initial(), before); var iteration := PlannerEvents(s, true, due, true);
      && CanRun(s, iteration)
      && var t := Run(s, iteration); var tick := ControlEvents(t, true, vlaFresh, vlaAlive, calibrated, advances, keep);
        && CanRun(t, tick)
        && var u := Run(t, tick);
          && u.mode.Normal? && u.recovery.origin == s.recovery.ticket <= u.done
          && u.playback == if advances then Tracked(s.requested) else Empty
  {
    var s := Run(Initial(), before);
    assert s.recovery.ticket <= s.requested && s.loss.ticket <= s.requested by { RunKeepsFullInv(before); }
    hide CanRun, Run, ControlEvents, PlannerEvents, Apply;
    RestartRun(s, due);
    LeavingTick(Run(s, PlannerEvents(s, true, due, true)), vlaFresh, vlaAlive, calibrated, advances, keep);
  }

  class Threads {
    // reinit_requested_, reinit_done_, motion_50hz_buf and the playback timeline
    var requested: nat
    var done: nat
    var buffer: Option<Plan>
    var playback: Timeline
    // planner thread
    var initialized: bool
    var own: nat
    var stamps: nat
    var cleared: nat // as history: the last request the buffer was empty for
    // controller thread
    var inControl: bool
    var lastStamp: nat
    var mode: Mode
    var loss: Loss         // state_missing_ticks_, state_reseed_ticket_
    var recovery: Recovery // recovery_blend_tick_, reinit_ticket_issued_, reinit_ticket_

    ghost function At(at: PlannerAt): System
      reads this
    {
      System(requested, done, buffer, playback, Planner(at, initialized, own, stamps, cleared),
             TickTop, inControl, lastStamp, mode, loss, recovery)
    }

    ghost function View(): System
      reads this
    {
      At(LoopTop)
    }

    constructor ()
      ensures View() == Initial()
    {
      requested, done, buffer, playback := 0, 0, None, Empty;
      initialized, own, stamps, cleared := false, 0, 0, 0;
      inControl, lastStamp, mode := false, 0, Normal;
      loss, recovery := Loss(0, 0, 0), Recovery(0, false, 0, 0, 0, None, false, 0);
    }

    // hasState: a robot state is there; infers: a sequence is generated.
    method InitializeOnce(req: nat, hasState: bool, infers: bool) returns (ok: bool, ghost es: seq<Event>)
      requires cleared == req
      modifies this`buffer, this`own, this`stamps, this`initialized
      ensures ok == (hasState && infers) && es == InitializeEvents(hasState, infers)
      ensures CanRun(old(At(Initializing(req))), es)
      ensures At(if ok then Acknowledging(req) else LoopTop) == Run(old(At(Initializing(req))), es)
    {
      hide CanRun, Run, ControllerStep, ControllerCan;
      ghost var s := At(Initializing(req));
      es := InitializeEvents(hasState, infers);
      if !hasState {
        One(s, P(NoState));
        return false, es;
      }
      var epoch := requested;
      if !infers {
        Two(s, P(ReadState), P(InferFails));
        return false, es;
      }
      Two(s, P(ReadState), P(SeedPublish));
      stamps := stamps + 1;
      buffer, own, initialized := Some(Plan(epoch, cleared, stamps)), epoch, true;
      ok := true;
    }

    // The context comes from the playback timeline when there is one, else from
    // the planner's own last output.
    method Replan(due: bool, infers: bool) returns (ghost es: seq<Event>)
      requires initialized
      modifies this`buffer, this`own, this`stamps, this`recovery
      ensures es == ReplanEvents(due, infers)
      ensures CanRun(old(At(Deciding)), es) && View() == Run(old(At(Deciding)), es)
    {
      hide CanRun, Run, ControllerStep, ControllerCan;
      ghost var s := At(Deciding);
      es := ReplanEvents(due, infers);
      if !due {
        One(s, P(NoReplan));
        return;
      }
      var sampled := playback.Tracked?;
      var context := if sampled then playback.epoch else own;
      if !infers {
        Two(s, P(Sample), P(InferFails));
        return;
      }
      Two(s, P(Sample), P(ReplanPublish));
      stamps := stamps + 1;
      buffer, own := Some(Plan(context, cleared, stamps)), context;
      if sampled && recovery.watch.Some? && done >= recovery.watch.value { recovery := recovery.(late := true); }
    }

    method PlannerIteration(hasState: bool, due: bool, infers: bool) returns (ghost es: seq<Event>)
      modifies this`done, this`buffer, this`initialized, this`own, this`stamps, this`cleared, this`recovery
      ensures es == PlannerEvents(old(View()), hasState, due, infers)
      ensures CanRun(old(View()), es) && View() == Run(old(View()), es)
      ensures old(initialized && requested == done) || (hasState && infers) ==> done == requested
    {
      hide CanRun, Run, ControllerStep, ControllerCan, InitializeEvents, ReplanEvents;
      ghost var s := View();
      ghost var more;
      var req := requested;
      Two(s, P(Load), P(Branch));
      if req != done && initialized {
        buffer := None;
        initialized := false;
      }
      if !initialized {
        cleared := req;
        ghost var start := At(Initializing(req));
        assert start == Run(s, [P(Load), P(Branch)]);
        hide PlannerStep, PlannerCan;
        var ok;
        ok, more := InitializeOnce(req, hasState, infers);
        if ok {
          AcknowledgeStep(At(Acknowledging(req)));
          One(At(Acknowledging(req)), P(Acknowledge));
          RunConcat(start, more, [P(Acknowledge)]);
          more := more + [P(Acknowledge)];
          done := req;
        } else {
          assert more == more + [];
        }
      } else {
        more := Replan(due, infers);
      }
      RunConcat(s, [P(Load), P(Branch)], more);
      es := [P(Load), P(Branch)] + more;
    }

    ghost function Ticking(at: ControllerAt): System
      reads this
    {
      At(LoopTop).(controller := at)
    }

    // The loop up to its state switch: the loss count, and after a long loss the
    // timeline is dropped before the reseed is requested.
    method LossGate(stateOk: bool) returns (past: bool, ghost es: seq<Event>)
      modifies this`requested, this`playback, this`lastStamp, this`loss, this`recovery
      ensures past == stateOk && es == LossEvents(old(View()), stateOk)
      ensures CanRun(old(View()), es)
      ensures Ticking(if past then Body else TickTop) == Run(old(View()), es)
    {
      hide CanRun, Run, PlannerStep, PlannerCan;
      ghost var s := View();
      es := LossEvents(s, stateOk);
      if !stateOk {
        One(s, C(Miss));
        loss := loss.(missing := loss.missing + 1);
        return false, es;
      }
      if loss.missing > LossPolicy.GRACE && inControl {
        Two(s, C(ClearAfterLoss), C(AskAfterLoss));
        playback, lastStamp, recovery := Empty, 0, recovery.(watch := None);
        requested := requested + 1;
        loss := loss.(ticket := requested, floor := requested);
      } else {
        One(s, C(Proceed));
      }
      loss := loss.(missing := 0);
      past := true;
    }

    // update_arbiter: on the way back to the origin the timeline is dropped.
    method UpdateArbiter(vlaFresh: bool, vlaAlive: bool, calibrated: bool) returns (ghost es: seq<Event>)
      modifies this`mode, this`playback, this`lastStamp, this`recovery
      ensures es == ArbiterEvents(old(Ticking(Arbitrating)), vlaFresh, vlaAlive, calibrated)
      ensures mode == NextMode(old(Ticking(Arbitrating)), vlaFresh, vlaAlive, calibrated)
      ensures mode.Recovering? ==> recovery == old(if mode.Recovering? then recovery else Entered(recovery))
      ensures CanRun(old(Ticking(Arbitrating)), es) && Ticking(Acting) == Run(old(Ticking(Arbitrating)), es)
    {
      hide CanRun, Run, Decide, ArbiterEvents;
      ghost var s := Ticking(Arbitrating);
      ArbiterRun(s, vlaFresh, vlaAlive, calibrated);
      es := ArbiterEvents(s, vlaFresh, vlaAlive, calibrated);
      var recoveryDone := recovery.issued && done >= recovery.ticket;
      var cur := mode;
      var next := Decide(cur, vlaFresh, vlaAlive, calibrated, recoveryDone);
      assert next == NextMode(s, vlaFresh, vlaAlive, calibrated);
      hide NextMode;
      mode := next;
      if next != cur {
        if next == Recovering {
          recovery := Entered(recovery);
        } else if next == Normal && cur == Recovering {
          playback, lastStamp, recovery := Empty, 0, recovery.(origin := recovery.ticket);
        }
      }
    }

    method TickRecovery() returns (ghost es: seq<Event>)
      requires mode.Recovering?
      modifies this`requested, this`recovery
      ensures es == RecoveryEvents(old(recovery))
      ensures CanRun(old(Ticking(Acting)), es) && View() == Run(old(Ticking(Acting)), es)
    {
      hide CanRun, Run, PlannerStep, PlannerCan;
      ghost var s := Ticking(Acting);
      es := RecoveryEvents(recovery);
      if |es| == 1 { One(s, C(BlendTick)); } else { Two(s, C(BlendTick), C(AskInRecovery)); }
      recovery := recovery.(calls := recovery.calls + 1);
      if recovery.blendTick < RECOVERY_TICKS { recovery := recovery.(blendTick := recovery.blendTick + 1); }
      if recovery.blendTick >= RECOVERY_TICKS && !recovery.issued {
        requested := requested + 1;
        recovery := recovery.(ticket := requested, issued := true, tickets := recovery.tickets + 1,
                              watch := Some(requested), late := false);
      }
    }

    // The planner-driven path; advances: encoder and decoder succeeded (or there
    // is nothing to track yet), keep: the new plan is wholly in the past.
    method TickPlanned(advances: bool, keep: bool) returns (ghost es: seq<Event>)
      requires mode.Normal? || mode.Teleop?
      modifies this`playback, this`lastStamp, this`recovery
      ensures es == PlannedEvents(advances, keep)
      ensures CanRun(old(Ticking(Acting)), es) && View() == Run(old(Ticking(Acting)), es)
    {
      hide CanRun, Run, PlannerStep, PlannerCan;
      es := PlannedEvents(advances, keep);
      One(Ticking(Acting), es[0]);
      if !advances { return; }
      if buffer.Some? && buffer.value.stamp != lastStamp {
        lastStamp := buffer.value.stamp;
        if playback.Empty? {
          playback, recovery := Tracked(buffer.value.epoch), recovery.(watch := None);
        } else if !keep {
          playback := Tracked(MinNat(playback.epoch, buffer.value.epoch));
        }
      }
    }

    // tick_control; gathered: gather_robot_state found a sane state.
    method TickControl(gathered: bool, vlaFresh: bool, vlaAlive: bool, calibrated: bool, advances: bool, keep: bool)
      returns (ghost es: seq<Event>)
      requires inControl
      modifies this`requested, this`mode, this`playback, this`lastStamp, this`loss, this`recovery
      ensures es == ControlEvents(old(View()), gathered, vlaFresh, vlaAlive, calibrated, advances, keep)
      ensures CanRun(old(Ticking(Body)), es) && View() == Run(old(Ticking(Body)), es)
    {
      hide CanRun, Run, PlannerStep, PlannerCan, RecoveryEvents, PlannedEvents, Decide;
      ghost var s := Ticking(Body);
      if !gathered {
        One(s, C(SkipTick));
        return [C(SkipTick)];
      }
      One(s, C(Gate));
      if loss.ticket != 0 {
        if done < loss.ticket { return [C(Gate)]; }
        loss := loss.(ticket := 0);
      }
      ghost var more, last;
      more := UpdateArbiter(vlaFresh, vlaAlive, calibrated);
      RunConcat(s, [C(Gate)], more);
      if mode == Vla {
        One(Ticking(Acting), C(StreamTick));
        last := [C(StreamTick)];
      } else if mode == Recovering {
        last := TickRecovery();
      } else {
        last := TickPlanned(advances, keep);
      }
      RunConcat(s, [C(Gate)] + more, last);
      es := [C(Gate)] + more + last;
    }
  }
}
