// Recording control by taps (include/collector/record_control.hpp and
// src/collector/record_commander.cpp).
module RecordControl {
  import opened Optional

  datatype Action = NoAction | Start | Stop | LabelSuccess | LabelFail | LabelPartial
  datatype Recording = Idle | InProgress | AwaitingLabel | Unknown
  datatype Button = A | B
  datatype Kind = Single | Double | Triple

  function Decide(state: Recording, button: Button, kind: Kind): Action {
    var s := if state.Unknown? then Idle else state;
    match button
    case B =>
      if kind.Single? then if s.InProgress? then NoAction else Start
      else if kind.Double? then if s.InProgress? then Stop else NoAction
      else NoAction
    case A =>
      if !s.AwaitingLabel? then NoAction
      else match kind
        case Single => LabelSuccess
        case Double => LabelFail
        case Triple => LabelPartial
  }

  function NextState(current: Recording, action: Action): Recording {
    match action
    case Start => InProgress
    case Stop => AwaitingLabel
    case NoAction => current
    case _ => Idle
  }

  // ── the collector, which refuses what makes no sense ───────────────────────

  predicate IsLabel(a: Action) { a.LabelSuccess? || a.LabelFail? || a.LabelPartial? }

  // None: refused.
  function Execute(state: Recording, a: Action): Option<Recording> {
    if a.Start? && (state.Idle? || state.AwaitingLabel?) then Some(InProgress)
    else if a.Stop? && state.InProgress? then Some(AwaitingLabel)
    else if IsLabel(a) && state.AwaitingLabel? then Some(Idle)
    else None
  }

  function ExecuteAll(state: Recording, sent: seq<Action>): Option<Recording> {
    if |sent| == 0 then Some(state)
    else
      var before := ExecuteAll(state, sent[..|sent| - 1]);
      if before.None? then None else Execute(before.value, sent[|sent| - 1])
  }

  class Commander {
    var started: bool
    var connected: bool
    var assumed: Recording
    var seqNo: nat
    ghost var sent: seq<Action>

    // While connected the collector has accepted all that was sent and is in the
    // mirrored state; messages are numbered from 1 without a gap.
    ghost predicate Valid()
      reads this
    {
      && (started ==> connected)
      && ExecuteAll(Idle, sent) == Some(assumed) && !assumed.Unknown? && seqNo == |sent|
    }

    // A successful start.
    constructor ()
      ensures Valid() && started && assumed == Idle && sent == []
    {
      started, connected, assumed, seqNo, sent := true, true, Idle, 0, [];
    }

    method Finish()
      requires Valid()
      modifies this
      ensures Valid() && !started && sent == old(sent)
    {
      started, connected := false, false;
    }

    method Publish(a: Action)
      modifies this
      ensures started == old(started) && connected == old(connected) && assumed == old(assumed)
      ensures connected ==> sent == old(sent) + [a] && seqNo == old(seqNo) + 1
      ensures !connected ==> sent == old(sent) && seqNo == old(seqNo)
    {
      if !connected { return; }
      seqNo := seqNo + 1;
      sent := sent + [a];
    }

    method OnTap(button: Button, kind: Kind)
      requires Valid()
      modifies this
      ensures Valid() && started == old(started)
      ensures var a := Decide(old(assumed), button, kind);
        if !started || a.NoAction? then sent == old(sent) && assumed == old(assumed)
        else sent == old(sent) + [a] && assumed == NextState(old(assumed), a)
    {
      if !started { return; }
      var st := assumed;
      var a := Decide(st, button, kind);
      if a == NoAction { return; }
      Publish(a);
      assumed := NextState(st, a);
      assert sent[..|sent| - 1] == old(sent);
    }
  }

  // ── what can be on the wire ────────────────────────────────────────────────

  // A prefix of (Start Stop Label?)*.
  predicate Sessions(w: seq<Action>) {
    |w| == 0
    || (w[0].Start? && (|w| == 1
        || (w[1].Stop? && (Sessions(w[2..]) || (3 <= |w| && IsLabel(w[2]) && Sessions(w[3..]))))))
  }

  function ExecuteFront(state: Recording, w: seq<Action>): Option<Recording>
    decreases |w|
  {
    if |w| == 0 then Some(state)
    else
      var next := Execute(state, w[0]);
      if next.None? then None else ExecuteFront(next.value, w[1..])
  }

  lemma {:induction false} FrontAndBack(state: Recording, w: seq<Action>, a: Action)
    ensures ExecuteFront(state, w + [a]) ==
            var s := ExecuteFront(state, w); if s.None? then None else Execute(s.value, a)
    decreases |w|
  {
    if |w| == 0 {
      assert (w + [a])[1..] == [];
    } else {
      assert (w + [a])[1..] == w[1..] + [a];
      var next := Execute(state, w[0]);
      if next.Some? { FrontAndBack(next.value, w[1..], a); }
    }
  }

  lemma {:induction false} SameExecution(state: Recording, w: seq<Action>)
    ensures ExecuteAll(state, w) == ExecuteFront(state, w)
    decreases |w|
  {
    if 0 < |w| {
      SameExecution(state, w[..|w| - 1]);
      FrontAndBack(state, w[..|w| - 1], w[|w| - 1]);
      assert w[..|w| - 1] + [w[|w| - 1]] == w;
    }
  }

  lemma {:induction false} AcceptedFromIdle(w: seq<Action>)
    ensures ExecuteFront(Idle, w).Some? <==> Sessions(w)
    ensures ExecuteFront(AwaitingLabel, w).Some? <==> Sessions(w) || (0 < |w| && IsLabel(w[0]) && Sessions(w[1..]))
    decreases |w|
  {
    if 0 < |w| {
      AcceptedFromIdle(w[1..]);
      if w[0].Start? && 1 < |w| && w[1].Stop? {
        AcceptedFromIdle(w[2..]);
        assert w[1..][1..] == w[2..];
        if 2 < |w| { assert w[2..][1..] == w[3..]; }
      }
    }
  }

  // The collector accepts exactly the prefixes of (Start Stop Label?)*.
  lemma AcceptedExactlySessions(w: seq<Action>)
    ensures ExecuteAll(Idle, w).Some? <==> Sessions(w)
  {
    SameExecution(Idle, w);
    AcceptedFromIdle(w);
  }

  // For every tap sequence: what is sent, and the state mirrored.
  datatype Tap = Tap(button: Button, kind: Kind)

  function Sent(taps: seq<Tap>): (seq<Action>, Recording) {
    if |taps| == 0 then ([], Idle)
    else
      var (sent, state) := Sent(taps[..|taps| - 1]);
      var t := taps[|taps| - 1];
      var a := Decide(state, t.button, t.kind);
      if a.NoAction? then (sent, state) else (sent + [a], NextState(state, a))
  }

  lemma ExecuteOneMore(w: seq<Action>, a: Action, state: Recording)
    requires ExecuteAll(Idle, w) == Some(state)
    ensures ExecuteAll(Idle, w + [a]) == Execute(state, a)
  {
    assert (w + [a])[..|w|] == w;
  }

  lemma MirrorAgrees(state: Recording, button: Button, kind: Kind)
    requires !state.Unknown?
    ensures var a := Decide(state, button, kind);
      !a.NoAction? ==> Execute(state, a) == Some(NextState(state, a)) && !NextState(state, a).Unknown?
  {
  }

  // Whatever is tapped, the commands sent are a prefix of (Start Stop Label?)*,
  // and the mirror is where a collector executing them is.
  lemma {:induction false} TapsMakeSessions(taps: seq<Tap>)
    ensures Sessions(Sent(taps).0)
    ensures ExecuteAll(Idle, Sent(taps).0) == Some(Sent(taps).1)
    ensures !Sent(taps).1.Unknown?
    decreases |taps|
  {
    hide Sessions;
    if 0 < |taps| {
      assert ExecuteAll(Idle, Sent(taps).0) == Some(Sent(taps).1) && !Sent(taps).1.Unknown? by {
        hide ExecuteAll, Execute, Decide, NextState;
        TapsMakeSessions(taps[..|taps| - 1]);
        var (sent, state) := Sent(taps[..|taps| - 1]);
        var t := taps[|taps| - 1];
        MirrorAgrees(state, t.button, t.kind);
        ExecuteOneMore(sent, Decide(state, t.button, t.kind), state);
      }
    }
    AcceptedExactlySessions(Sent(taps).0);
  }

  // What a tap sends, in every run and by what was sent last: B once starts a
  // recording unless one runs, B twice stops it, and the next A says how it went
  // by its number of taps. Nothing else sends anything.
  lemma TapsSend(taps: seq<Tap>, button: Button, kind: Kind)
    ensures var w, now := Sent(taps).0, Sent(taps + [Tap(button, kind)]).0;
      var running := 0 < |w| && w[|w| - 1] == Start;
      var stopped := 0 < |w| && w[|w| - 1] == Stop;
      now == w +
        (if button == B && kind == Single && !running then [Start]
         else if button == B && kind == Double && running then [Stop]
         else if button == A && stopped then
           [if kind == Single then LabelSuccess else if kind == Double then LabelFail else LabelPartial]
         else [])
  {
    assert (taps + [Tap(button, kind)])[..|taps|] == taps;
    MirrorIsLastCommand(taps);
    var w := Sent(taps).0;
    assert w + [] == w;
    hide Sent;
  }

  lemma {:induction false} MirrorIsLastCommand(taps: seq<Tap>)
    ensures var (w, state) := Sent(taps);
      state == if |w| == 0 then Idle
               else if w[|w| - 1] == Start then InProgress
               else if w[|w| - 1] == Stop then AwaitingLabel
               else Idle
    decreases |taps|
  {
    if 0 < |taps| { MirrorIsLastCommand(taps[..|taps| - 1]); }
  }
}
