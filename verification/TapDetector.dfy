// Short-press gestures of one face button (include/motion/tap_detector.hpp).
module TapDetector {
  const TAP_MAX := 0.30
  const DOUBLE_GAP := 0.35
  const MAX_TAPS := 3

  datatype Event = None | Single | Double | Triple

  function Count(e: Event): nat {
    match e
    case None => 0
    case Single => 1
    case Double => 2
    case Triple => 3
  }

  datatype State = State(wasPressed: bool, pending: bool, voided: bool, count: nat, press: real, sinceRelease: real)

  datatype Tick = Tick(pressed: bool, voided: bool)

  const START := State(false, false, false, 0, 0.0, 0.0)

  // One update, with the event it reports.
  function Next(s: State, t: Tick, dt: real): (State, Event) {
    if t.voided || s.voided then
      (s.(voided := t.voided || t.pressed, wasPressed := t.pressed,
          count := if t.voided then 0 else s.count, pending := !t.voided && s.pending), None)
    else if t.pressed then
      if s.wasPressed then (s.(press := s.press + dt), None)
      else
        (s.(press := 0.0, count := if s.pending && s.sinceRelease <= DOUBLE_GAP then s.count else 0,
            pending := false, wasPressed := true), None)
    else if s.wasPressed then
      if s.press >= TAP_MAX then (s.(wasPressed := false, count := 0), None)
      else if s.count + 1 >= MAX_TAPS then (s.(wasPressed := false, count := 0), Triple)
      else (s.(wasPressed := false, count := s.count + 1, pending := true, sinceRelease := 0.0), None)
    else if s.pending then
      if s.sinceRelease + dt > DOUBLE_GAP then
        (s.(pending := false, count := 0, sinceRelease := s.sinceRelease + dt), if s.count == 1 then Single else Double)
      else (s.(sinceRelease := s.sinceRelease + dt), None)
    else (s, None)
  }

  class Detector {
    var wasPressed: bool
    var pending: bool
    var voided: bool
    var count: nat
    var press: real
    var sinceRelease: real

    ghost function View(): State
      reads this
    {
      State(wasPressed, pending, voided, count, press, sinceRelease)
    }

    constructor ()
      ensures View() == START
    {
      wasPressed, pending, voided, count, press, sinceRelease := false, false, false, 0, 0.0, 0.0;
    }

    method Reset()
      modifies this
      ensures View() == START
    {
      wasPressed, pending, voided, count, press, sinceRelease := false, false, false, 0, 0.0, 0.0;
    }

    method Update(pressed: bool, other: bool, dt: real) returns (e: Event)
      modifies this
      ensures (View(), e) == Next(old(View()), Tick(pressed, other), dt)
    {
      if other { voided, count, pending := true, 0, false; }
      if voided {
        if !pressed && !other { voided := false; }
        wasPressed := pressed;
        return None;
      }
      if pressed {
        if !wasPressed {
          press := 0.0;
          if !(pending && sinceRelease <= DOUBLE_GAP) { count := 0; }
          pending := false;
        } else {
          press := press + dt;
        }
        wasPressed := true;
        return None;
      }
      if wasPressed {
        wasPressed := false;
        if press >= TAP_MAX {
          count := 0;
          return None;
        }
        count := count + 1;
        if count >= MAX_TAPS {
          count := 0;
          return Triple;
        }
        pending, sinceRelease := true, 0.0;
        return None;
      }
      if pending {
        sinceRelease := sinceRelease + dt;
        if sinceRelease > DOUBLE_GAP {
          pending := false;
          e := if count == 1 then Single else Double;
          count := 0;
          return;
        }
      }
      return None;
    }
  }

  // ── runs ───────────────────────────────────────────────────────────────────

  function After(trace: seq<Tick>, dt: real): State {
    if |trace| == 0 then START else Next(After(trace[..|trace| - 1], dt), trace[|trace| - 1], dt).0
  }

  // What the last tick of a trace reports.
  function Reports(trace: seq<Tick>, dt: real): Event {
    if |trace| == 0 then None else Next(After(trace[..|trace| - 1], dt), trace[|trace| - 1], dt).1
  }

  predicate Inv(s: State) {
    && s.count < MAX_TAPS
    && (s.pending ==> !s.wasPressed && !s.voided && 0 < s.count && s.sinceRelease <= DOUBLE_GAP)
    && (!s.pending && !s.wasPressed ==> s.count == 0)
    && (s.voided ==> s.count == 0)
  }

  lemma {:induction false} AfterKeepsInv(trace: seq<Tick>, dt: real)
    ensures Inv(After(trace, dt))
    decreases |trace|
  {
    if 0 < |trace| { AfterKeepsInv(trace[..|trace| - 1], dt); }
  }

  // ── conservation ───────────────────────────────────────────────────────────

  // A short press is released, in a gesture that is not void.
  predicate IsTap(s: State, t: Tick) {
    !t.voided && !s.voided && !t.pressed && s.wasPressed && s.press < TAP_MAX
  }

  // Taps counted so far are dropped: by another button, or by a long press.
  function Dropped(s: State, t: Tick): nat {
    if t.voided || (!s.voided && !t.pressed && s.wasPressed && s.press >= TAP_MAX) then s.count else 0
  }

  function Taps(trace: seq<Tick>, dt: real): nat {
    if |trace| == 0 then 0
    else Taps(trace[..|trace| - 1], dt) +
         (if IsTap(After(trace[..|trace| - 1], dt), trace[|trace| - 1]) then 1 else 0)
  }

  function Reported(trace: seq<Tick>, dt: real): nat {
    if |trace| == 0 then 0 else Reported(trace[..|trace| - 1], dt) + Count(Reports(trace, dt))
  }

  function Cancelled(trace: seq<Tick>, dt: real): nat {
    if |trace| == 0 then 0
    else Cancelled(trace[..|trace| - 1], dt) + Dropped(After(trace[..|trace| - 1], dt), trace[|trace| - 1])
  }

  // Every tap is reported once, cancelled once, or still counted.
  lemma {:induction false} TapsAreConserved(trace: seq<Tick>, dt: real)
    ensures Taps(trace, dt) == Reported(trace, dt) + Cancelled(trace, dt) + After(trace, dt).count
    decreases |trace|
  {
    if 0 < |trace| {
      TapsAreConserved(trace[..|trace| - 1], dt);
      AfterKeepsInv(trace[..|trace| - 1], dt);
    }
  }

  // ── gestures ───────────────────────────────────────────────────────────────

  // A press held for `down` ticks and the release of `up` ticks after it.
  datatype Tap = Tap(down: nat, up: nat)

  const DOWN := Tick(true, false)
  const UP := Tick(false, false)

  function Times(t: Tick, n: nat): (r: seq<Tick>)
    ensures |r| == n
  {
    seq(n, _ => t)
  }

  function Word(taps: seq<Tap>): seq<Tick> {
    if |taps| == 0 then []
    else Word(taps[..|taps| - 1]) + Times(DOWN, taps[|taps| - 1].down) + Times(UP, taps[|taps| - 1].up)
  }

  // The time of n ticks, added up tick by tick.
  function Lasts(n: nat, dt: real): real { if n == 0 then 0.0 else Lasts(n - 1, dt) + dt }

  // The press lasts less than the tap limit; n ticks of release stay within the window.
  predicate Short(n: nat, dt: real) { 0 < n && Lasts(n - 1, dt) < TAP_MAX }
  predicate Within(n: nat, dt: real) { 0 < n && Lasts(n - 1, dt) <= DOUBLE_GAP }

  predicate Group(taps: seq<Tap>, dt: real) {
    forall i :: 0 <= i < |taps| ==> Short(taps[i].down, dt) && Within(taps[i].up, dt)
  }

  // Nothing is under way: no press, no counted tap, no void gesture.
  predicate Quiet(s: State) { !s.wasPressed && !s.pending && !s.voided && s.count == 0 }

  // Another button was down, and this one ever since.
  predicate Void(trace: seq<Tick>) {
    exists v :: 0 <= v < |trace| && trace[v].voided && forall k :: v < k < |trace| ==> trace[k] == DOWN
  }

  // A release ends the gesture of these taps and this open press: after a long
  // press, with the third tap, or when the window closes.
  predicate Ends(taps: seq<Tap>, down: nat, dt: real) {
    if down == 0 then 0 < |taps| && Lasts(taps[|taps| - 1].up, dt) > DOUBLE_GAP
    else |taps| + 1 == MAX_TAPS || !Short(down, dt)
  }

  // By the ticks alone: the trace ends where a gesture can begin.
  ghost predicate Rest(trace: seq<Tick>, dt: real)
    decreases |trace|, 0
  {
    |trace| == 0 ||
    var fewer := trace[..|trace| - 1];
    trace[|trace| - 1] == UP &&
    (Rest(fewer, dt) || Void(fewer) || exists i, taps, down :: Gesture(fewer, i, taps, down, dt))
  }

  // The trace ends with a gesture that the next release ends.
  ghost predicate Gesture(trace: seq<Tick>, i: nat, taps: seq<Tap>, down: nat, dt: real)
    decreases |trace|, 2
  {
    Tail(trace, i, taps, down, dt) && |taps| < MAX_TAPS && Ends(taps, down, dt)
  }

  // The tail of a trace from tick i: a group of counted taps, then a press of `down` ticks.
  ghost predicate Tail(trace: seq<Tick>, i: nat, taps: seq<Tap>, down: nat, dt: real)
    decreases |trace|, 1
  {
    && i <= |trace| && Rest(trace[..i], dt) && Group(taps, dt)
    && trace[i..] == Word(taps) + Times(DOWN, down)
  }

  // The state says what that tail is.
  ghost predicate Explained(trace: seq<Tick>, i: nat, taps: seq<Tap>, down: nat, dt: real) {
    var s := After(trace, dt);
    && Tail(trace, i, taps, down, dt)
    && !s.voided && s.count == |taps| && (s.wasPressed <==> 0 < down)
    && (0 < down ==> s.press == Lasts(down - 1, dt))
    && (s.pending <==> 0 < |taps| && down == 0)
    && (s.pending ==> s.sinceRelease == Lasts(taps[|taps| - 1].up - 1, dt))
  }

  lemma TimesSnoc(t: Tick, n: nat)
    ensures Times(t, n + 1) == Times(t, n) + [t]
  {
  }

  // A group with one more tap, with a longer last release, or with a longer open press.
  lemma {:induction false} WordSnoc(taps: seq<Tap>, tap: Tap)
    ensures Word(taps + [tap]) == Word(taps) + Times(DOWN, tap.down) + Times(UP, tap.up)
  {
    hide Times;
    assert (taps + [tap])[..|taps + [tap]| - 1] == taps;
  }

  lemma {:induction false} WordNewTap(taps: seq<Tap>, down: nat)
    ensures Word(taps + [Tap(down, 1)]) == Word(taps) + Times(DOWN, down) + [UP]
  {
    hide Word;
    WordSnoc(taps, Tap(down, 1));
    assert Times(UP, 1) == [UP];
  }

  lemma {:induction false} WordLongerUp(init: seq<Tap>, last: Tap)
    ensures Word(init + [Tap(last.down, last.up + 1)]) == Word(init + [last]) + [UP]
  {
    hide Word, Times;
    WordSnoc(init, last);
    WordSnoc(init, Tap(last.down, last.up + 1));
    TimesSnoc(UP, last.up);
    Associate(Word(init) + Times(DOWN, last.down), Times(UP, last.up), [UP]);
  }

  lemma Associate(a: seq<Tick>, b: seq<Tick>, c: seq<Tick>)
    ensures a + (b + c) == (a + b) + c
  {
  }

  function Longer(taps: seq<Tap>): seq<Tap>
    requires 0 < |taps|
  {
    taps[..|taps| - 1] + [Tap(taps[|taps| - 1].down, taps[|taps| - 1].up + 1)]
  }

  lemma {:induction false} GroupNewTap(taps: seq<Tap>, down: nat, dt: real)
    requires Group(taps, dt) && Short(down, dt)
    ensures Group(taps + [Tap(down, 1)], dt)
  {
  }

  // The one-tick extensions of a tail.
  lemma {:induction false} TailLongerPress(trace: seq<Tick>, i: nat, taps: seq<Tap>, down: nat, dt: real)
    requires Tail(trace, i, taps, down, dt)
    ensures Tail(trace + [DOWN], i, taps, down + 1, dt)
  {
    hide After, Rest, Word, Group;
    TimesSnoc(DOWN, down);
    assert (trace + [DOWN])[..i] == trace[..i] && (trace + [DOWN])[i..] == trace[i..] + [DOWN];
  }

  lemma {:induction false} TailNewTap(trace: seq<Tick>, i: nat, taps: seq<Tap>, down: nat, dt: real)
    requires Tail(trace, i, taps, down, dt) && Short(down, dt)
    ensures Tail(trace + [UP], i, taps + [Tap(down, 1)], 0, dt)
  {
    hide After, Rest, Word;
    WordNewTap(taps, down);
    GroupNewTap(taps, down, dt);
    hide Group, Short;
    assert (trace + [UP])[..i] == trace[..i] && (trace + [UP])[i..] == trace[i..] + [UP];
    assert Times(DOWN, 0) == [];
  }

  lemma {:induction false} TailLongerUp(trace: seq<Tick>, i: nat, taps: seq<Tap>, dt: real)
    requires Tail(trace, i, taps, 0, dt) && 0 < |taps| && Within(taps[|taps| - 1].up + 1, dt)
    ensures Tail(trace + [UP], i, Longer(taps), 0, dt)
  {
    hide After, Rest, Word, Short;
    var init, last := taps[..|taps| - 1], taps[|taps| - 1];
    assert taps == init + [last];
    WordLongerUp(init, last);
    assert Group(Longer(taps), dt);
    hide Group;
    assert (trace + [UP])[..i] == trace[..i] && (trace + [UP])[i..] == trace[i..] + [UP];
    assert Times(DOWN, 0) == [];
  }

  lemma {:induction false} AfterSnoc(trace: seq<Tick>, t: Tick, dt: real)
    ensures After(trace + [t], dt) == Next(After(trace, dt), t, dt).0
    ensures Reports(trace + [t], dt) == Next(After(trace, dt), t, dt).1
  {
    hide Next;
    assert (trace + [t])[..|trace + [t]| - 1] == trace;
  }

  lemma {:induction false} QuietIsExplained(trace: seq<Tick>, dt: real)
    requires Rest(trace, dt) && Quiet(After(trace, dt))
    ensures Explained(trace, |trace|, [], 0, dt)
  {
    hide After, Rest;
    assert trace[..|trace|] == trace && trace[|trace|..] == [] && Times(DOWN, 0) == [];
  }

  lemma {:induction false} ExplainedPress(trace: seq<Tick>, i: nat, taps: seq<Tap>, down: nat, dt: real)
    requires Explained(trace, i, taps, down, dt) && Inv(After(trace, dt))
    requires 0 < down || 0 < |taps| || Quiet(After(trace, dt))
    ensures Explained(trace + [DOWN], i, taps, down + 1, dt)
  {
    AfterSnoc(trace, DOWN, dt);
    TailLongerPress(trace, i, taps, down, dt);
    hide After, Rest, Tail;
  }

  lemma {:induction false} ExplainedRelease(trace: seq<Tick>, i: nat, taps: seq<Tap>, down: nat, dt: real)
    requires Explained(trace, i, taps, down, dt) && 0 < down && Short(down, dt) && |taps| + 1 < MAX_TAPS
    ensures Explained(trace + [UP], i, taps + [Tap(down, 1)], 0, dt)
  {
    AfterSnoc(trace, UP, dt);
    TailNewTap(trace, i, taps, down, dt);
    hide After, Rest, Tail;
  }

  lemma {:induction false} ExplainedWait(trace: seq<Tick>, i: nat, taps: seq<Tap>, dt: real)
    requires Explained(trace, i, taps, 0, dt) && 0 < |taps| && Group(taps, dt)
    requires Within(taps[|taps| - 1].up + 1, dt)
    ensures Explained(trace + [UP], i, Longer(taps), 0, dt)
  {
    AfterSnoc(trace, UP, dt);
    TailLongerUp(trace, i, taps, dt);
    assert Within(taps[|taps| - 1].up, dt);
    hide After, Rest, Tail;
  }

  lemma {:induction false} ExplainedGroup(trace: seq<Tick>, i: nat, taps: seq<Tap>, down: nat, dt: real)
    requires Explained(trace, i, taps, down, dt)
    ensures Group(taps, dt)
  {
  }

  lemma NextVoided(s: State, t: Tick, dt: real)
    ensures Next(s, t, dt).0.voided <==> t.voided || (s.voided && t == DOWN)
  {
  }

  lemma VoidSnoc(trace: seq<Tick>)
    requires 0 < |trace|
    ensures var t := trace[|trace| - 1];
      Void(trace) <==> t.voided || (Void(trace[..|trace| - 1]) && t == DOWN)
  {
    var fewer, t := trace[..|trace| - 1], trace[|trace| - 1];
    if Void(fewer) && t == DOWN {
      var v :| 0 <= v < |fewer| && fewer[v].voided && forall k :: v < k < |fewer| ==> fewer[k] == DOWN;
      assert trace[v].voided && forall k :: v < k < |trace| ==> trace[k] == DOWN;
    }
    if Void(trace) && !t.voided {
      var v :| 0 <= v < |trace| && trace[v].voided && forall k :: v < k < |trace| ==> trace[k] == DOWN;
      assert fewer[v].voided && forall k :: v < k < |fewer| ==> fewer[k] == DOWN;
    }
  }

  lemma {:induction false} VoidedIffVoid(trace: seq<Tick>, dt: real)
    ensures After(trace, dt).voided <==> Void(trace)
    decreases |trace|
  {
    if 0 < |trace| {
      hide Void, Next;
      VoidedIffVoid(trace[..|trace| - 1], dt);
      NextVoided(After(trace[..|trace| - 1], dt), trace[|trace| - 1], dt);
      VoidSnoc(trace);
    }
  }

  // A detector with nothing under way is at rest by its trace.
  lemma {:induction false} QuietMeansRest(trace: seq<Tick>, dt: real)
    requires Quiet(After(trace, dt))
    ensures Rest(trace, dt)
    decreases |trace|, 0
  {
    if 0 < |trace| {
      var fewer := trace[..|trace| - 1];
      var s := After(fewer, dt);
      AfterKeepsInv(fewer, dt);
      VoidedIffVoid(fewer, dt);
      assert trace[|trace| - 1] == UP;
      hide After, Void;
      if Quiet(s) {
        QuietMeansRest(fewer, dt);
      } else if !s.voided {
        var i, taps, down := TailExists(fewer, dt);
        hide Tail;
        assert Gesture(fewer, i, taps, down, dt);
      }
    }
  }

  // Every state that is not void is explained by a tail of its trace.
  lemma {:induction false} TailExists(trace: seq<Tick>, dt: real) returns (i: nat, taps: seq<Tap>, down: nat)
    requires !After(trace, dt).voided
    ensures Explained(trace, i, taps, down, dt)
    decreases |trace|, 1
  {
    AfterKeepsInv(trace, dt);
    if Quiet(After(trace, dt)) {
      QuietMeansRest(trace, dt);
      QuietIsExplained(trace, dt);
      return |trace|, [], 0;
    }
    var fewer, t := trace[..|trace| - 1], trace[|trace| - 1];
    assert trace == fewer + [t];
    AfterSnoc(fewer, t, dt);
    AfterKeepsInv(fewer, dt);
    var s := After(fewer, dt);
    hide After;
    i, taps, down := TailExists(fewer, dt);
    ExplainedGroup(fewer, i, taps, down, dt);
    hide Tail, Group;
    if t.pressed {
      if Quiet(s) {
        QuietMeansRest(fewer, dt);
        QuietIsExplained(fewer, dt);
        i, taps, down := |fewer|, [], 0;
      }
      ExplainedPress(fewer, i, taps, down, dt);
      down := down + 1;
    } else if s.wasPressed {
      ExplainedRelease(fewer, i, taps, down, dt);
      taps, down := taps + [Tap(down, 1)], 0;
    } else {
      ExplainedWait(fewer, i, taps, dt);
      taps := Longer(taps);
    }
  }

  lemma EndsWith(trace: seq<Tick>, i: nat, front: seq<Tick>, t: Tick)
    requires i <= |trace| && trace[i..] == front + [t]
    ensures i < |trace| && trace[|trace| - 1] == t
    ensures trace[..|trace| - 1][..i] == trace[..i] && trace[..|trace| - 1][i..] == front
  {
    assert trace[i..][|front|] == t && trace[i..][..|front|] == front;
  }

  // The last tick of a tail.
  lemma {:induction false} TailEndsPressed(trace: seq<Tick>, i: nat, taps: seq<Tap>, down: nat, dt: real)
    requires Tail(trace, i, taps, down, dt) && 0 < down
    ensures i < |trace| && trace[|trace| - 1] == DOWN && Tail(trace[..|trace| - 1], i, taps, down - 1, dt)
  {
    hide After, Rest, Word, Group, Times;
    TimesSnoc(DOWN, down - 1);
    Associate(Word(taps), Times(DOWN, down - 1), [DOWN]);
    EndsWith(trace, i, Word(taps) + Times(DOWN, down - 1), DOWN);
  }

  // The tail before its last tick: a shorter release, or the press before it.
  function Shorter(taps: seq<Tap>): seq<Tap>
    requires 0 < |taps| && 0 < taps[|taps| - 1].up
  {
    var init, last := taps[..|taps| - 1], taps[|taps| - 1];
    if last.up == 1 then init else init + [Tap(last.down, last.up - 1)]
  }

  function OpenPress(taps: seq<Tap>): nat
    requires 0 < |taps|
  {
    if taps[|taps| - 1].up == 1 then taps[|taps| - 1].down else 0
  }

  lemma {:induction false} WordShorter(taps: seq<Tap>)
    requires 0 < |taps| && 0 < taps[|taps| - 1].up
    ensures Word(taps) == Word(Shorter(taps)) + Times(DOWN, OpenPress(taps)) + [UP]
  {
    var init, last := taps[..|taps| - 1], taps[|taps| - 1];
    assert taps == init + [last];
    hide Word;
    if last.up == 1 {
      WordNewTap(init, last.down);
    } else {
      WordLongerUp(init, Tap(last.down, last.up - 1));
      assert Times(DOWN, 0) == [];
      assert Word(Shorter(taps)) + [] == Word(Shorter(taps));
    }
  }

  lemma {:induction false} GroupShorter(taps: seq<Tap>, dt: real)
    requires 0.0 < dt && 0 < |taps| && Group(taps, dt)
    ensures 0 < taps[|taps| - 1].up && Group(Shorter(taps), dt)
    ensures Short(taps[|taps| - 1].down, dt) && Within(taps[|taps| - 1].up, dt)
  {
    var last := taps[|taps| - 1];
    assert Short(last.down, dt) && Within(last.up, dt);
  }

  lemma {:induction false} TailEndsReleased(trace: seq<Tick>, i: nat, taps: seq<Tap>, dt: real)
    requires 0.0 < dt && Tail(trace, i, taps, 0, dt) && 0 < |taps|
    ensures i < |trace| && trace[|trace| - 1] == UP && 0 < taps[|taps| - 1].up
    ensures Tail(trace[..|trace| - 1], i, Shorter(taps), OpenPress(taps), dt)
  {
    GroupShorter(taps, dt);
    WordShorter(taps);
    hide After, Rest, Word, Group, Shorter, OpenPress;
    NoPress(taps);
    hide Times;
    EndsWith(trace, i, Word(Shorter(taps)) + Times(DOWN, OpenPress(taps)), UP);
  }

  lemma NoPress(taps: seq<Tap>)
    ensures Word(taps) + Times(DOWN, 0) == Word(taps)
  {
    hide Word;
  }

  lemma ShorterThenLonger(taps: seq<Tap>)
    requires 0 < |taps| && 0 < taps[|taps| - 1].up
    ensures if taps[|taps| - 1].up == 1 then Shorter(taps) + [Tap(taps[|taps| - 1].down, 1)] == taps
            else 0 < |Shorter(taps)| && Longer(Shorter(taps)) == taps
  {
  }

  lemma {:induction false} EmptyTail(trace: seq<Tick>, i: nat, dt: real)
    requires Tail(trace, i, [], 0, dt)
    ensures i == |trace| && trace[..i] == trace
  {
    assert Word([]) + Times(DOWN, 0) == [];
  }

  // And every tail of at most two counted taps explains its state.
  lemma {:induction false} TailExplains(trace: seq<Tick>, i: nat, taps: seq<Tap>, down: nat, dt: real)
    requires 0.0 < dt && Tail(trace, i, taps, down, dt) && |taps| < MAX_TAPS
    ensures Explained(trace, i, taps, down, dt)
    decreases |trace|, 1
  {
    hide After, Rest, Word;
    if 0 < down {
      TailEndsPressed(trace, i, taps, down, dt);
      var fewer := trace[..|trace| - 1];
      assert trace == fewer + [DOWN];
      TailExplains(fewer, i, taps, down - 1, dt);
      AfterKeepsInv(fewer, dt);
      hide Tail;
      ExplainedPress(fewer, i, taps, down - 1, dt);
    } else if 0 < |taps| {
      TailEndsReleased(trace, i, taps, dt);
      GroupShorter(taps, dt);
      var fewer, last := trace[..|trace| - 1], taps[|taps| - 1];
      assert trace == fewer + [UP];
      TailExplains(fewer, i, Shorter(taps), OpenPress(taps), dt);
      ExplainedGroup(fewer, i, Shorter(taps), OpenPress(taps), dt);
      hide Tail, Group;
      ShorterThenLonger(taps);
      if last.up == 1 {
        ExplainedRelease(fewer, i, Shorter(taps), last.down, dt);
      } else {
        ExplainedWait(fewer, i, Shorter(taps), dt);
      }
    } else {
      EmptyTail(trace, i, dt);
      assert Rest(trace, dt);
      RestMeansQuiet(trace, dt);
      QuietIsExplained(trace, dt);
    }
  }

  lemma {:induction false} RestMeansQuiet(trace: seq<Tick>, dt: real)
    requires 0.0 < dt && Rest(trace, dt)
    ensures Quiet(After(trace, dt))
    decreases |trace|, 0
  {
    if 0 < |trace| {
      var fewer := trace[..|trace| - 1];
      AfterKeepsInv(fewer, dt);
      VoidedIffVoid(fewer, dt);
      if Rest(fewer, dt) {
        RestMeansQuiet(fewer, dt);
      } else if !Void(fewer) {
        var i, taps, down :| Gesture(fewer, i, taps, down, dt);
        TailExplains(fewer, i, taps, down, dt);
        hide Tail, Rest, Void;
      }
    }
  }

  // Nothing is under way exactly when the ticks alone say so: nothing was
  // pressed yet, or the last gesture has ended and nothing has been since.
  lemma QuietIffRest(trace: seq<Tick>, dt: real)
    requires 0.0 < dt
    ensures Quiet(After(trace, dt)) <==> Rest(trace, dt)
  {
    if Quiet(After(trace, dt)) { QuietMeansRest(trace, dt); }
    if Rest(trace, dt) { RestMeansQuiet(trace, dt); }
  }

  // ── what is reported ───────────────────────────────────────────────────────

  // The gesture of event e ends with this tick: one or two taps and the window
  // closing after the last of them, or the release of a third one.
  ghost predicate Completes(trace: seq<Tick>, e: Event, i: nat, taps: seq<Tap>, down: nat, dt: real) {
    && 0 < |trace| && trace[|trace| - 1] == UP && Tail(trace[..|trace| - 1], i, taps, down, dt)
    && match e
       case None => false
       case Triple => |taps| == 2 && Short(down, dt)
       case _ => |taps| == Count(e) && down == 0 && Lasts(taps[|taps| - 1].up, dt) > DOUBLE_GAP
  }

  // Single, double and triple are reported exactly for groups of one, two and
  // three short presses with gaps within the window, from a rest on, with no other
  // button and no long press in between.
  lemma {:induction false} ReportMeansGesture(trace: seq<Tick>, dt: real) returns (i: nat, taps: seq<Tap>, down: nat)
    requires 0.0 < dt && Reports(trace, dt) != None
    ensures Completes(trace, Reports(trace, dt), i, taps, down, dt)
  {
    var fewer := trace[..|trace| - 1];
    AfterKeepsInv(fewer, dt);
    hide After;
    i, taps, down := TailExists(fewer, dt);
    hide Tail;
  }

  lemma {:induction false} GestureIsReported(trace: seq<Tick>, e: Event, i: nat, taps: seq<Tap>, down: nat, dt: real)
    requires 0.0 < dt && Completes(trace, e, i, taps, down, dt)
    ensures Reports(trace, dt) == e
  {
    hide After;
    TailExplains(trace[..|trace| - 1], i, taps, down, dt);
    hide Tail;
  }

  lemma {:induction false} ReportsExactly(trace: seq<Tick>, e: Event, dt: real)
    requires 0.0 < dt && e != None
    ensures Reports(trace, dt) == e <==> exists i, taps, down :: Completes(trace, e, i, taps, down, dt)
  {
    hide After, Reports, Completes;
    if Reports(trace, dt) == e {
      var i, taps, down := ReportMeansGesture(trace, dt);
      assert Completes(trace, e, i, taps, down, dt);
    }
    if i, taps, down :| Completes(trace, e, i, taps, down, dt) {
      GestureIsReported(trace, e, i, taps, down, dt);
    }
  }

  // In ticks of 50 ms: a press of 6 ticks is a tap and one of 7 is not; a release
  // of 8 ticks continues the gesture and one of 9 closes it.
  lemma LimitsInTicks()
    ensures Short(6, 0.05) && !Short(7, 0.05) && Within(8, 0.05) && !Within(9, 0.05)
  {
    assert Lasts(5, 0.05) == 0.25 && Lasts(6, 0.05) == 0.3;
    assert Lasts(7, 0.05) == 0.35 && Lasts(8, 0.05) == 0.4;
  }
}
