// The lock-free trace ring (src/control/state_trace.cpp): one producer, one
// writer thread, 32-bit wrapping counters. Every interleaving of their atomic
// steps is a sequence of events applied to a State.
module TraceRing {
  type Row = seq<real>

  const RING := 512
  const WRAP := 0x1_0000_0000

  type U32 = x: int | 0 <= x < WRAP

  // head - tail on uint32_t
  function Sub32(x: U32, y: U32): U32 { (x - y) % WRAP }

  function Add32(x: U32, n: nat): U32 { (x + n) % WRAP }

  // Rows up to the end of the ring that can be written in one piece.
  function RunLength(head: U32, tail: U32): (n: nat)
    ensures n <= RING
  {
    var left := Sub32(head, tail);
    if left < RING - tail % RING then left else RING - tail % RING
  }

  // Where a call of record() is.
  datatype Producer = Away | Entered | Filling

  // Where the writer loop is: asleep, at the loop test with a loaded head and a
  // local tail, inside fwrite at row i of n, after the store of tail_, or gone.
  datatype Writer =
    | Asleep
    | Draining(head: U32, tail: U32)
    | Writing(head: U32, tail: U32, n: nat, i: nat)
    | Stored(tail: U32)
    | Gone

  // The shared fields, the two threads, the file, and (accepted, attempts,
  // drops, freed, seen) the history the properties speak about.
  datatype State = State(
    ring: seq<Row>, head: U32, tail: U32, dropped: U32, enabled: bool, stop: bool,
    producer: Producer, writer: Writer, file: seq<Row>,
    accepted: seq<Row>,  // rows published so far
    attempts: nat,       // calls that passed the enabled test
    drops: nat,          // rows dropped so far
    freed: nat,          // rows whose slots the writer has given back
    seen: nat)           // rows published when the writer loaded head_

  datatype Event =
    | Begin                // record(): enabled_ is true
    | Claim                // record(): load both counters, drop or take a slot
    | Scribble(junk: Row)  // fill() leaves anything in the claimed slot
    | Publish(row: Row)    // fill() is complete, head_ is stored
    | Wake                 // writer: load head_ and tail_
    | StartRun             // writer: the loop finds rows left
    | CopyRow              // writer: fwrite takes one row
    | EndRun               // writer: local tail moves past the run
    | StoreTail            // writer: the loop is over
    | Check                // writer: leave or sleep again
    | Disable              // stop(): enabled_ = false
    | Stop                 // stop(): stop_ = true

  predicate Can(s: State, e: Event) {
    match e
    case Begin => s.producer.Away? && s.enabled
    case Claim => s.producer.Entered?
    case Scribble(_) => s.producer.Filling?
    case Publish(_) => s.producer.Filling?
    case Wake => s.writer.Asleep?
    case StartRun => s.writer.Draining? && s.writer.tail != s.writer.head
    case CopyRow => s.writer.Writing? && s.writer.i < s.writer.n && s.writer.tail % RING + s.writer.i < |s.ring|
    case EndRun => s.writer.Writing? && s.writer.i == s.writer.n
    case StoreTail => s.writer.Draining? && s.writer.tail == s.writer.head
    case Check => s.writer.Stored?
    case Disable => true
    case Stop => !s.enabled
  }

  function Apply(s: State, e: Event): State
    requires |s.ring| == RING
    requires Can(s, e)
  {
    match e
    case Begin => s.(producer := Entered, attempts := s.attempts + 1)
    case Claim =>
      if Sub32(s.head, s.tail) >= RING
      then s.(producer := Away, dropped := Add32(s.dropped, 1), drops := s.drops + 1)
      else s.(producer := Filling)
    case Scribble(junk) => s.(ring := s.ring[s.head % RING := junk])
    case Publish(row) =>
      s.(ring := s.ring[s.head % RING := row], head := Add32(s.head, 1), producer := Away,
         accepted := s.accepted + [row])
    case Wake => s.(writer := Draining(s.head, s.tail), seen := |s.accepted|)
    case StartRun =>
      s.(writer := Writing(s.writer.head, s.writer.tail, RunLength(s.writer.head, s.writer.tail), 0))
    case CopyRow =>
      s.(file := s.file + [s.ring[s.writer.tail % RING + s.writer.i]],
         writer := s.writer.(i := s.writer.i + 1))
    case EndRun => s.(writer := Draining(s.writer.head, Add32(s.writer.tail, s.writer.n)))
    case StoreTail => s.(tail := s.writer.tail, writer := Stored(s.writer.tail), freed := |s.file|)
    case Check => s.(writer := if s.stop && s.head == s.writer.tail then Gone else Asleep)
    case Disable => s.(enabled := false)
    case Stop => s.(stop := true)
  }

  // The state start() leaves behind.
  function Initial(): State {
    State(seq(RING, _ => []), 0, 0, 0, true, false, Away, Asleep, [], [], 0, 0, 0, 0)
  }

  // ── counter arithmetic ─────────────────────────────────────────────────────

  lemma ModOf(x: int, q: int, r: int)
    requires 0 <= r < WRAP && x == q * WRAP + r
    ensures x % WRAP == r
  {}

  lemma RingMultiple(y: nat, r: nat)
    ensures (RING * y + r) % RING == r % RING
  {
    assert RING * y + r == RING * (y + r / RING) + r % RING;
  }

  lemma WrappedIndex(c: nat)
    ensures c % WRAP % RING == c % RING
  {
    var r := c % WRAP;
    RingMultiple(8388608 * (c / WRAP), r);
  }

  lemma WrappedDiff(a: nat, b: nat)
    requires b <= a <= b + RING
    ensures Sub32(a % WRAP, b % WRAP) == a - b
  {
    var qa, qb := a / WRAP, b / WRAP;
    assert a % WRAP - b % WRAP == (qb - qa) * WRAP + (a - b);
    ModOf(a % WRAP - b % WRAP, qb - qa, a - b);
  }

  lemma SameCounter(a: nat, b: nat)
    requires b <= a <= b + RING && a % WRAP == b % WRAP
    ensures a == b
  {
    WrappedDiff(a, b);
  }

  lemma WrappedAdd(a: nat, n: nat)
    requires n <= RING
    ensures Add32(a % WRAP, n) == (a + n) % WRAP
  {
    var q := a / WRAP;
    assert a + n == q * WRAP + (a % WRAP + n);
    if a % WRAP + n < WRAP {
      ModOf(a + n, q, a % WRAP + n);
    } else {
      ModOf(a + n, q + 1, a % WRAP + n - WRAP);
      ModOf(a % WRAP + n, 1, a % WRAP + n - WRAP);
    }
  }

  // Positions less than a ring apart have different slots.
  lemma SlotsDiffer(j: nat, k: nat)
    requires j < k < j + RING
    ensures j % RING != k % RING
  {}

  lemma RunIndex(start: nat, i: nat)
    requires start % RING + i < RING
    ensures (start + i) % RING == start % RING + i
  {}

  // ── the invariant of every interleaving ────────────────────────────────────

  // The wrapping counters are the true counts modulo 2^32, at most a ring
  // apart; the file is a prefix of the accepted rows; every accepted row not
  // yet in the file is still in its slot.
  predicate Counts(s: State) {
    && |s.ring| == RING
    && s.head == |s.accepted| % WRAP
    && s.tail == s.freed % WRAP
    && s.dropped == s.drops % WRAP
    && s.freed <= |s.file| <= |s.accepted| <= s.freed + RING
  }

  predicate Contents(s: State)
    requires |s.ring| == RING
  {
    && s.file <= s.accepted
    && forall k {:trigger s.accepted[k]} :: |s.file| <= k < |s.accepted| ==> s.ring[k % RING] == s.accepted[k]
  }

  predicate WriterInv(s: State) {
    match s.writer
    case Asleep => s.freed == |s.file|
    case Draining(head, tail) =>
      && |s.file| <= s.seen <= |s.accepted|
      && head == s.seen % WRAP && tail == |s.file| % WRAP
    case Writing(head, tail, n, i) =>
      && i <= n && i <= |s.file|
      && s.freed <= |s.file| - i
      && |s.file| - i + n <= s.seen <= |s.accepted|
      && head == s.seen % WRAP && tail == (|s.file| - i) % WRAP
      && tail % RING + n <= RING && n > 0
    case Stored(tail) => s.freed == |s.file| && tail == s.tail
    case Gone =>
      && s.freed == |s.file| && s.stop
      && |s.accepted| + (if s.producer.Away? then 0 else 1) <= |s.file| + 1
  }

  predicate ProducerInv(s: State) {
    && (s.producer.Filling? ==> |s.accepted| < s.freed + RING)
    && (s.stop ==> !s.enabled)
    && |s.accepted| + s.drops + (if s.producer.Away? then 0 else 1) == s.attempts
  }

  predicate Inv(s: State) {
    Counts(s) && Contents(s) && WriterInv(s) && ProducerInv(s)
  }

  lemma StepPublish(s: State, row: Row)
    requires Inv(s) && Can(s, Publish(row))
    ensures Inv(Apply(s, Publish(row)))
  {
    var t := Apply(s, Publish(row));
    WrappedIndex(|s.accepted|);
    WrappedAdd(|s.accepted|, 1);
    forall k {:trigger t.accepted[k]} | |t.file| <= k < |t.accepted|
      ensures t.ring[k % RING] == t.accepted[k]
    {
      if k < |s.accepted| { SlotsDiffer(k, |s.accepted|); assert s.accepted[k] == t.accepted[k]; }
    }
  }

  lemma StepScribble(s: State, junk: Row)
    requires Inv(s) && Can(s, Scribble(junk))
    ensures Inv(Apply(s, Scribble(junk)))
  {
    var t := Apply(s, Scribble(junk));
    WrappedIndex(|s.accepted|);
    forall k {:trigger t.accepted[k]} | |t.file| <= k < |t.accepted|
      ensures t.ring[k % RING] == t.accepted[k]
    {
      SlotsDiffer(k, |s.accepted|);
    }
  }

  lemma StepClaim(s: State)
    requires Inv(s) && Can(s, Claim)
    ensures Inv(Apply(s, Claim))
  {
    WrappedDiff(|s.accepted|, s.freed);
    WrappedAdd(s.drops, 1);
  }

  lemma StepStartRun(s: State)
    requires Inv(s) && Can(s, StartRun)
    ensures Inv(Apply(s, StartRun))
  {
    WrappedDiff(s.seen, |s.file|);
  }

  // The row copied is the next accepted row, and its slot is not the one the
  // producer may be filling.
  lemma StepCopyRow(s: State)
    requires Inv(s) && Can(s, CopyRow)
    ensures Inv(Apply(s, CopyRow))
    ensures Apply(s, CopyRow).file == s.file + [s.accepted[|s.file|]]
    ensures s.producer.Filling? ==> s.head % RING != s.writer.tail % RING + s.writer.i
  {
    var start := |s.file| - s.writer.i;
    WrappedIndex(start);
    RunIndex(start, s.writer.i);
    assert s.ring[|s.file| % RING] == s.accepted[|s.file|];
    if s.producer.Filling? {
      WrappedIndex(|s.accepted|);
      SlotsDiffer(|s.file|, |s.accepted|);
    }
  }

  lemma StepEndRun(s: State)
    requires Inv(s) && Can(s, EndRun)
    ensures Inv(Apply(s, EndRun))
  {
    WrappedAdd(|s.file| - s.writer.i, s.writer.n);
  }

  lemma StepStoreTail(s: State)
    requires Inv(s) && Can(s, StoreTail)
    ensures Inv(Apply(s, StoreTail))
    ensures |Apply(s, StoreTail).file| == s.seen
  {
    WrappedDiff(s.seen, |s.file|);
  }

  lemma StepCheck(s: State)
    requires Inv(s) && Can(s, Check)
    ensures Inv(Apply(s, Check))
    ensures Apply(s, Check).writer.Gone? ==> s.file == s.accepted
  {
    WrappedDiff(|s.accepted|, s.freed);
  }

  lemma StepKeepsInv(s: State, e: Event)
    requires Inv(s) && Can(s, e)
    ensures Inv(Apply(s, e))
  {
    match e
    case Publish(row) => StepPublish(s, row);
    case Scribble(junk) => StepScribble(s, junk);
    case Claim => StepClaim(s);
    case StartRun => StepStartRun(s);
    case CopyRow => StepCopyRow(s);
    case EndRun => StepEndRun(s);
    case StoreTail => StepStoreTail(s);
    case Check => StepCheck(s);
    case _ =>
  }

  // ── whole runs ─────────────────────────────────────────────────────────────

  // es can happen from s, one event after the other.
  ghost predicate CanRun(s: State, es: seq<Event>)
    requires Inv(s)
    decreases |es|
  {
    |es| == 0 || (Can(s, es[0]) && (StepKeepsInv(s, es[0]); CanRun(Apply(s, es[0]), es[1..])))
  }

  ghost function Run(s: State, es: seq<Event>): (t: State)
    requires Inv(s) && CanRun(s, es)
    ensures Inv(t)
    decreases |es|
  {
    if |es| == 0 then s else StepKeepsInv(s, es[0]); Run(Apply(s, es[0]), es[1..])
  }

  // The rows handed to record() and published, in order.
  function Published(es: seq<Event>): seq<Row> {
    if |es| == 0 then []
    else (if es[0].Publish? then [es[0].row] else []) + Published(es[1..])
  }

  function Begun(es: seq<Event>): nat {
    if |es| == 0 then 0 else (if es[0].Begin? then 1 else 0) + Begun(es[1..])
  }

  lemma InitialInv()
    ensures Inv(Initial())
  {}

  lemma StepHistory(s: State, e: Event)
    requires |s.ring| == RING && Can(s, e)
    ensures Apply(s, e).accepted == s.accepted + (if e.Publish? then [e.row] else [])
    ensures Apply(s, e).attempts == s.attempts + (if e.Begin? then 1 else 0)
  {}

  lemma RunUnfolds(s: State, es: seq<Event>)
    requires Inv(s) && CanRun(s, es) && |es| > 0
    ensures Can(s, es[0]) && Inv(Apply(s, es[0])) && CanRun(Apply(s, es[0]), es[1..])
    ensures Run(s, es) == Run(Apply(s, es[0]), es[1..])
  {
    hide Counts, Contents, WriterInv, ProducerInv, Apply, Can;
    StepKeepsInv(s, es[0]);
  }

  lemma AppendAssoc(a: seq<Row>, b: seq<Row>, c: seq<Row>)
    ensures a + b + c == a + (b + c)
  {}

  lemma {:induction false} RunHistory(s: State, es: seq<Event>)
    requires Inv(s) && CanRun(s, es)
    ensures Run(s, es).accepted == s.accepted + Published(es)
    ensures Run(s, es).attempts == s.attempts + Begun(es)
    decreases |es|
  {
    if |es| > 0 {
      assert |s.ring| == RING;
      hide Inv, Apply, Can, CanRun, Run;
      RunUnfolds(s, es);
      StepHistory(s, es[0]);
      RunHistory(Apply(s, es[0]), es[1..]);
      AppendAssoc(s.accepted, if es[0].Publish? then [es[0].row] else [], Published(es[1..]));
    }
  }

  // Whatever the interleaving and however often the counters wrap, the file is
  // the published rows in order, up to some point; nothing is torn, repeated or
  // skipped, and every call is accounted for.
  lemma FileIsPublishedPrefix(es: seq<Event>)
    requires Inv(Initial()) && CanRun(Initial(), es)
    ensures var s := Run(Initial(), es);
      && s.file <= Published(es)
      && |Published(es)| <= |s.file| + RING
      && |Published(es)| + s.drops + (if s.producer.Away? then 0 else 1) == Begun(es)
      && s.dropped == s.drops % WRAP
  {
    RunHistory(Initial(), es);
  }

  // ── when a row is dropped ──────────────────────────────────────────────────

  // A call takes a slot unless all 512 hold accepted rows the writer has not
  // given back.
  lemma ClaimTakesSlot(s: State)
    requires Inv(s) && Can(s, Claim)
    ensures var t := Apply(s, Claim);
      && (t.producer.Filling? <==> |s.accepted| < s.freed + 512)
      && (t.drops == s.drops + 1 <==> |s.accepted| == s.freed + 512)
      && (t.drops == s.drops <==> t.producer.Filling?)
  {
    WrappedDiff(|s.accepted|, s.freed);
  }

  // Slots are given back when the writer stores tail_: then all rows in the file are.
  lemma FreedStep(s: State, e: Event)
    requires Inv(s) && Can(s, e)
    ensures Apply(s, e).freed == if e.StoreTail? then |s.file| else s.freed
    ensures e.StoreTail? ==> Apply(s, e).file == s.file
  {
  }

  // Over every run: the drops are the calls that found the ring full.
  ghost function FullClaims(s: State, es: seq<Event>): nat
    requires Inv(s) && CanRun(s, es)
    decreases |es|
  {
    if |es| == 0 then 0
    else
      StepKeepsInv(s, es[0]);
      (if es[0].Claim? && |s.accepted| == s.freed + 512 then 1 else 0) + FullClaims(Apply(s, es[0]), es[1..])
  }

  lemma DropsStep(s: State, e: Event)
    requires Inv(s) && Can(s, e)
    ensures Apply(s, e).drops == s.drops + (if e.Claim? && |s.accepted| == s.freed + 512 then 1 else 0)
  {
    if e.Claim? { ClaimTakesSlot(s); }
  }

  lemma {:induction false} DropsAreFullClaims(s: State, es: seq<Event>)
    requires Inv(s) && CanRun(s, es)
    ensures Run(s, es).drops == s.drops + FullClaims(s, es)
    decreases |es|
  {
    if |es| > 0 {
      assert |s.ring| == RING;
      hide Inv, Apply, Can, CanRun, Run;
      RunUnfolds(s, es);
      DropsStep(s, es[0]);
      DropsAreFullClaims(Apply(s, es[0]), es[1..]);
    }
  }

  // ── the drain loop ─────────────────────────────────────────────────────────

  // Decreases with every step the writer makes inside its drain loop.
  function Work(s: State): int {
    match s.writer
    case Draining(_, _) => 3 * (s.seen - |s.file|) + 1
    case Writing(_, _, _, i) => 3 * (s.seen - |s.file|) + (if i == 0 then 0 else 2)
    case _ => 0
  }

  predicate IsWriterEvent(e: Event) {
    e.Wake? || e.StartRun? || e.CopyRow? || e.EndRun? || e.StoreTail? || e.Check?
  }

  predicate InDrain(s: State) { s.writer.Draining? || s.writer.Writing? }

  function NextWriterEvent(s: State): Event
    requires InDrain(s)
  {
    match s.writer
    case Draining(head, tail) => if head != tail then StartRun else StoreTail
    case Writing(_, _, n, i) => if i < n then CopyRow else EndRun
    case _ => Check
  }

  // Inside the drain loop the writer can always go on, each of its steps brings
  // the end nearer, and the producer cannot push the end away.
  lemma DrainTerminates(s: State, e: Event)
    requires Inv(s) && InDrain(s) && Can(s, e)
    ensures Can(s, NextWriterEvent(s))
    ensures IsWriterEvent(e) ==> 0 <= Work(Apply(s, e)) < Work(s)
    ensures !IsWriterEvent(e) ==> Work(Apply(s, e)) == Work(s) && Apply(s, e).writer == s.writer
  {
    StepKeepsInv(s, e);
    if s.writer.Draining? {
      WrappedDiff(s.seen, |s.file|);
    } else {
      WrappedIndex(|s.file| - s.writer.i);
    }
  }

  // ── leaving ────────────────────────────────────────────────────────────────

  lemma {:induction false} AfterExit(s: State, es: seq<Event>)
    requires Inv(s) && CanRun(s, es)
    requires s.writer.Gone? && s.file <= s.accepted
    requires s.producer.Away? || s.file == s.accepted
    ensures var t := Run(s, es);
      && t.writer.Gone? && t.file == s.file
      && (s.producer.Away? ==> t.producer.Away? && t.accepted == s.accepted)
      && (!s.producer.Away? && t.producer.Away? ==> |t.accepted| == |t.file| + 1)
      && (!t.producer.Away? ==> t.accepted == t.file)
    decreases |es|
  {
    if |es| > 0 {
      var e := es[0];
      StepKeepsInv(s, e);
      if e.Claim? { WrappedDiff(|s.accepted|, s.freed); }
      AfterExit(Apply(s, e), es[1..]);
    }
  }

  // After a drain the writer leaves exactly when it was told to stop and has
  // written every row published so far.
  lemma LeavesIff(s: State)
    requires Inv(s) && Can(s, Check)
    ensures Apply(s, Check).writer.Gone? <==> s.stop && s.file == s.accepted
  {
    if s.head == s.tail { SameCounter(|s.accepted|, s.freed); }
  }

  // When the writer leaves, the file holds every row published so far. It also
  // holds every row that will ever be published if and only if no call of
  // record() was under way at that moment.
  lemma ExitComplete(s: State, rest: seq<Event>)
    requires Inv(s) && Can(s, Check) && Apply(s, Check).writer.Gone?
    requires Inv(Apply(s, Check)) && CanRun(Apply(s, Check), rest)
    requires Run(Apply(s, Check), rest).producer.Away?
    ensures s.file == s.accepted
    ensures var t := Run(Apply(s, Check), rest);
      t.file == t.accepted <==> s.producer.Away?
  {
    StepCheck(s);
    AfterExit(Apply(s, Check), rest);
  }

  lemma RunStep(s: State, e: Event, es: seq<Event>)
    requires Inv(s) && Can(s, e) && Inv(Apply(s, e)) && CanRun(Apply(s, e), es)
    ensures CanRun(s, [e] + es) && Run(s, [e] + es) == Run(Apply(s, e), es)
  {
    assert ([e] + es)[1..] == es;
  }

  lemma {:induction false} RunConcat(s: State, xs: seq<Event>, ys: seq<Event>)
    requires Inv(s) && CanRun(s, xs) && CanRun(Run(s, xs), ys)
    ensures CanRun(s, xs + ys) && Run(s, xs + ys) == Run(Run(s, xs), ys)
    decreases |xs|
  {
    hide Contents; hide WriterInv; hide ProducerInv;
    if |xs| == 0 {
      assert xs + ys == ys;
    } else {
      StepKeepsInv(s, xs[0]);
      RunConcat(Apply(s, xs[0]), xs[1..], ys);
      assert (xs + ys)[1..] == xs[1..] + ys;
    }
  }

  // stop() while a call of record() is past the enabled test.
  function Stopping(): State {
    Initial().(producer := Entered, attempts := 1, enabled := false, stop := true)
  }

  lemma ReachStopping()
    ensures Inv(Initial()) && CanRun(Initial(), [Begin, Disable, Stop])
    ensures Run(Initial(), [Begin, Disable, Stop]) == Stopping()
  {
    InitialInv();
    var s1 := Apply(Initial(), Begin);
    var s2 := Apply(s1, Disable);
    assert Apply(s2, Stop) == Stopping();
    RunStep(s2, Stop, []);
    RunStep(s1, Disable, [Stop]);
    RunStep(Initial(), Begin, [Disable, Stop]);
  }

  lemma StoppingLeaves()
    ensures Inv(Stopping()) && CanRun(Stopping(), [Wake, StoreTail, Check])
    ensures Run(Stopping(), [Wake, StoreTail, Check]) == Stopping().(writer := Gone)
  {
    var s1 := Apply(Stopping(), Wake);
    var s2 := Apply(s1, StoreTail);
    assert Apply(s2, Check) == Stopping().(writer := Gone);
    RunStep(s2, Check, []);
    RunStep(s1, StoreTail, [Check]);
    RunStep(Stopping(), Wake, [StoreTail, Check]);
  }

  lemma LateCall(row: Row)
    ensures var s := Stopping().(writer := Gone);
      && Inv(s) && CanRun(s, [Claim, Publish(row)])
      && Run(s, [Claim, Publish(row)]).producer.Away?
      && Run(s, [Claim, Publish(row)]).file == []
      && Run(s, [Claim, Publish(row)]).accepted == [row]
  {
    var s := Stopping().(writer := Gone);
    var s1 := Apply(s, Claim);
    StepKeepsInv(s1, Publish(row));
    RunStep(s1, Publish(row), []);
    RunStep(s, Claim, [Publish(row)]);
  }

  // A call that has passed the enabled test when stop() runs can publish a row
  // that never reaches the file.
  lemma LateRowIsLost(row: Row)
    ensures var es := [Begin, Disable, Stop] + [Wake, StoreTail, Check] + [Claim, Publish(row)];
      && Inv(Initial()) && CanRun(Initial(), es)
      && Run(Initial(), es).producer.Away?
      && Run(Initial(), es).file == [] && Run(Initial(), es).accepted == [row]
  {
    hide Inv; hide Initial; hide Stopping; hide CanRun; hide Run;
    ReachStopping();
    StoppingLeaves();
    LateCall(row);
    RunConcat(Initial(), [Begin, Disable, Stop], [Wake, StoreTail, Check]);
    RunConcat(Initial(), [Begin, Disable, Stop] + [Wake, StoreTail, Check], [Claim, Publish(row)]);
  }

  // ── the code ───────────────────────────────────────────────────────────────

  // The recorder between two atomic steps of its threads. Its methods are whole
  // calls; each is shown to be a run of the events above.
  class StateTrace {
    const ring: array<Row>
    var head: U32
    var tail: U32
    var dropped: U32
    var enabled: bool
    var stop: bool
    var file: seq<Row>
    ghost var accepted: seq<Row>
    ghost var attempts: nat
    ghost var drops: nat
    ghost var seen: nat

    ghost function View(): State
      reads this, ring
    {
      State(ring[..], head, tail, dropped, enabled, stop, Away, Asleep, file, accepted, attempts, drops, |file|, seen)
    }

    ghost predicate Valid()
      reads this, ring
    {
      ring.Length == RING && Inv(View())
    }

    constructor ()
      ensures Valid() && fresh(ring) && View() == Initial()
    {
      ring := new Row[RING](_ => []);
      head, tail, dropped := 0, 0, 0;
      enabled, stop := true, false;
      file, accepted, attempts, drops, seen := [], [], 0, 0, 0;
      new;
      assert ring[..] == Initial().ring;
    }

    method Record(row: Row)
      requires Valid()
      modifies this, ring
      ensures Valid()
      ensures !old(enabled) ==> View() == old(View())
      ensures old(enabled) ==>
        var claimed := Apply(Apply(old(View()), Begin), Claim);
        View() == if claimed.producer.Filling? then Apply(claimed, Publish(row)) else claimed
      ensures accepted ==
              if old(enabled) && |old(accepted)| < |file| + 512 then old(accepted) + [row] else old(accepted)
    {
      hide Contents; hide WriterInv; hide ProducerInv;
      if !enabled { return; }
      ghost var s := View();
      StepKeepsInv(s, Begin);
      StepKeepsInv(Apply(s, Begin), Claim);
      ClaimTakesSlot(Apply(s, Begin));
      attempts := attempts + 1;
      if Sub32(head, tail) >= RING {
        dropped := Add32(dropped, 1);
        drops := drops + 1;
        return;
      }
      StepKeepsInv(Apply(Apply(s, Begin), Claim), Publish(row));
      ring[head % RING] := row;
      assert ring[..] == s.ring[head % RING := row];
      head := Add32(head, 1);
      accepted := accepted + [row];
    }

    // One turn of the writer loop with no record() call in between.
    method Drain()
      requires Valid()
      modifies this
      ensures Valid()
      ensures file == accepted == old(accepted)
      ensures tail == head == old(head)
      ensures View() == old(View()).(file := accepted, tail := head, freed := |accepted|)
    {
      assert |file| <= |accepted| <= |file| + RING;
      assert file == accepted[..|file|] && head == |accepted| % WRAP && tail == |file| % WRAP;
      hide Contents; hide RunLength; hide Counts; hide WriterInv; hide ProducerInv; hide Add32; hide Inv;
      var h, t := head, tail;
      ghost var s := View();
      hide Sub32;
      while t != h
        invariant |s.file| <= |file| <= |accepted| <= |file| + RING
        invariant file == accepted[..|file|]
        invariant t == |file| % WRAP
        modifies this`file
        decreases |accepted| - |file|
      {
        ghost var start := |file|;
        RunAppended(s, start);
        var idx := t % RING;
        var n := RunLength(h, t);
        assert ring[idx..idx + n] == s.ring[idx..idx + n];
        file := file + ring[idx..idx + n];
        t := Add32(t, n);
      }
      SameCounter(|accepted|, |file|);
      assert accepted[..|accepted|] == accepted;
      tail := t;
      DrainedInv(s);
    }
  }

  lemma RunAppended(s: State, start: nat)
    requires Inv(s) && |s.file| <= start <= |s.accepted| && s.head != start % WRAP
    ensures var tail := start % WRAP; var n := RunLength(s.head, tail);
      && |s.ring| == RING && tail % RING + n <= RING && 0 < n <= |s.accepted| - start
      && s.accepted[..start] + s.ring[tail % RING..tail % RING + n] == s.accepted[..start + n]
      && Add32(tail, n) == (start + n) % WRAP
  {
    RunRows(s, start);
  }

  // The counters of one run of the drain loop: where it starts, its length,
  // and where it ends.
  lemma RunCounters(accepted: nat, start: nat)
    requires start <= accepted <= start + RING && accepted % WRAP != start % WRAP
    ensures var n := RunLength(accepted % WRAP, start % WRAP);
      && start % WRAP % RING == start % RING
      && 0 < n <= accepted - start
      && start % RING + n <= RING
      && (n == accepted - start || start % RING + n == RING)
      && Add32(start % WRAP, n) == (start + n) % WRAP
  {
    WrappedIndex(start);
    WrappedDiff(accepted, start);
    hide Sub32;
    WrappedAdd(start, RunLength(accepted % WRAP, start % WRAP));
  }

  lemma SameSlice(a: seq<Row>, i: nat, b: seq<Row>, j: nat, n: nat)
    requires i + n <= |a| && j + n <= |b|
    requires forall k :: j <= k < j + n ==> b[k] == a[i + (k - j)]
    ensures a[i..i + n] == b[j..j + n]
  {}

  // The slots of one run hold the next accepted rows.
  lemma RunSlots(ring: seq<Row>, accepted: seq<Row>, start: nat, n: nat)
    requires |ring| == RING && start % RING + n <= RING && start + n <= |accepted|
    requires forall k {:trigger accepted[k]} :: start <= k < |accepted| ==> ring[k % RING] == accepted[k]
    ensures ring[start % RING..start % RING + n] == accepted[start..start + n]
  {
    forall k | start <= k < start + n
      ensures accepted[k] == ring[start % RING + (k - start)]
    {
      RunIndex(start, k - start);
    }
    SameSlice(ring, start % RING, accepted, start, n);
  }

  // One fwrite of the drain loop takes the next accepted rows, all of them or up
  // to the end of the ring.
  lemma RunRows(s: State, start: nat)
    requires Inv(s) && |s.file| <= start <= |s.accepted| && s.head != start % WRAP
    ensures var tail := start % WRAP; var n := RunLength(s.head, tail);
      && tail % RING + n <= RING
      && 0 < n <= |s.accepted| - start
      && (n == |s.accepted| - start || tail % RING + n == RING)
      && s.ring[tail % RING..tail % RING + n] == s.accepted[start..start + n]
      && Add32(tail, n) == (start + n) % WRAP
  {
    hide WriterInv, ProducerInv, RunLength, Add32;
    RunCounters(|s.accepted|, start);
    RunSlots(s.ring, s.accepted, start, RunLength(s.head, start % WRAP));
  }

  lemma DrainedInv(s: State)
    requires Inv(s) && s.writer.Asleep?
    ensures Inv(s.(file := s.accepted, tail := s.head, freed := |s.accepted|))
  {}
}
