/**
 * The hot-swapped change streams of one operator of the MongoDB call queue.
 *
 * A manager keeps opening change streams from the last recorded position, a background
 * producer fills each stream, and a single consumer drains the stream it currently holds
 * and accepts newer streams at any time. A new stream starts at or before the last event
 * that was handled, so it replays history; the gate of `processClusterEventState` must let
 * every event of this operator through once, in order, and must never skip one.
 *
 * The model is a state machine over the atomic steps of those three goroutines and of the
 * database. All nondeterminism (which events other filters match, when a stream breaks,
 * how steps interleave) sits in the step labels, so a run is a sequence of labels.
 */
module ChangeStreams {
  import opened Wrappers

  // A BSON timestamp: seconds and an ordinal within the second.
  datatype Timestamp = Timestamp(t: nat, i: nat)

  const Zero := Timestamp(0, 0)

  predicate Before(a: Timestamp, b: Timestamp) {
    a.t < b.t || (a.t == b.t && a.i < b.i)
  }

  // A change to a call document. `mine`: the document bears this operator's ID at the time
  // of the change, as caller or as answerer. IDs are never unset, so every stream matches it.
  datatype Event = Event(clusterTime: Timestamp, mine: bool)

  // A resume token stands for the log position it resumes at.
  type Token = nat

  // csLastEventClusterTime and csLastResumeToken.
  datatype Gate = Gate(time: Timestamp, token: Option<Token>)

  /** The specification of processClusterEventState: the new state and whether the event is new. */
  function GateStep(g: Gate, newToken: Option<Token>, newTime: Timestamp): (r: (Gate, bool)) {
    if newTime != Zero then
      if !Before(g.time, newTime) then (g, false) else (Gate(newTime, None), true)
    else if newToken.Some? then (Gate(Zero, newToken), true)
    else (g, true)
  }

  class EventGate {
    var csLastEventClusterTime: Timestamp
    var csLastResumeToken: Option<Token>

    ghost function State(): Gate
      reads this
    {
      Gate(csLastEventClusterTime, csLastResumeToken)
    }

    constructor ()
      ensures State() == Gate(Zero, None)
    {
      csLastEventClusterTime, csLastResumeToken := Zero, None;
    }

    method ProcessClusterEventState(newResumeToken: Option<Token>, newClusterTime: Timestamp) returns (isNew: bool)
      modifies this
      ensures (State(), isNew) == GateStep(old(State()), newResumeToken, newClusterTime)
    {
      if newClusterTime != Zero {
        if csLastEventClusterTime.t > newClusterTime.t ||
           (csLastEventClusterTime.t == newClusterTime.t &&
            csLastEventClusterTime.i >= newClusterTime.i) {
          return false;
        }
        csLastEventClusterTime := newClusterTime;
        csLastResumeToken := None;
      } else if newResumeToken.Some? {
        csLastResumeToken := newResumeToken;
        csLastEventClusterTime := Zero;
      }
      return true;
    }
  }

  // What a stream's channel carries: an event (by log index), an error, or an invalidation.
  datatype Item = Ev(index: nat) | Failed | Invalidated(token: Token)

  // `pos`: the next log position to read. `dead`: the producer sent an error and returned.
  datatype Stream = Stream(pos: nat, buf: seq<Item>, dead: bool)

  datatype Manager =
    | Idle
    | Opening(from: Gate)                                      // options read, Watch not yet answered
    | Starting(stream: Stream)                                 // inside ChangeStreamBackground
    | Offering(stream: Stream, token: Token, time: Timestamp)  // blocked on csStateUpdates

  // `frontier`, `baseline` and `passed` are history: the position after the last event that passed,
  // its value at start-up, and the log indices that passed the gate, in order.
  datatype State = State(
    log: seq<Event>, gate: Gate, manager: Manager, current: Option<Stream>, waitForNext: bool,
    baseline: nat, frontier: nat, passed: seq<nat>)

  datatype Step =
    | Write(e: Event)
    | ReadOptions
    | WatchFails
    | Watch
    | StartSkip
    | StartEvent
    | StartNone
    | StartUndecodable
    | Produce(offered: bool, what: Production)
    | HandOff
    | Consume

  datatype Production = Skip | Deliver | Break | Invalidate

  ghost predicate Ordered(log: seq<Event>) {
    && (forall i :: 0 <= i < |log| ==> log[i].clusterTime != Zero)
    && (forall i, j :: 0 <= i < j < |log| ==> Before(log[i].clusterTime, log[j].clusterTime))
  }

  ghost predicate Init(s: State) {
    && Ordered(s.log)
    && s.gate == Gate(Zero, None) && s.manager == Idle && s.current == None
    && !s.waitForNext && s.baseline == s.frontier == 0 && s.passed == []
  }

  // The first log position whose event is at or after the given time (StartAtOperationTime).
  function PositionAt(log: seq<Event>, time: Timestamp): (p: nat)
    ensures p <= |log|
    ensures forall i :: 0 <= i < p ==> Before(log[i].clusterTime, time)
    ensures p < |log| ==> !Before(log[p].clusterTime, time)
  {
    if |log| == 0 || !Before(log[0].clusterTime, time) then 0 else 1 + PositionAt(log[1..], time)
  }

  // Where a stream opened with the recorded options starts reading.
  function StartPosition(log: seq<Event>, g: Gate): nat {
    if g.token.Some? then g.token.value
    else if g.time != Zero then PositionAt(log, g.time)
    else |log|
  }

  predicate CanProduce(log: seq<Event>, st: Stream, what: Production) {
    && !st.dead
    && match what
       case Skip => st.pos < |log| && !log[st.pos].mine
       case Deliver => st.pos < |log|
       case Break => true
       case Invalidate => true
  }

  // One round of the producer loop. Cancellation by a hand-off makes a stream unreachable, so
  // the events it may then drop are not modelled.
  function ProduceOn(st: Stream, what: Production): Stream {
    match what
    case Skip => st.(pos := st.pos + 1)
    case Deliver => Stream(st.pos + 1, st.buf + [Ev(st.pos)], false)
    case Break => st.(buf := st.buf + [Failed], dead := true)
    case Invalidate => st.(buf := st.buf + [Invalidated(st.pos)], dead := true)
  }

  predicate Enabled(s: State, step: Step) {
    match step
    case Write(e) => e.clusterTime != Zero && (|s.log| > 0 ==> Before(s.log[|s.log| - 1].clusterTime, e.clusterTime))
    case ReadOptions => s.manager.Idle?
    case WatchFails => s.manager.Opening?
    // the server refuses a stream with both a token and a time
    case Watch =>
      && s.manager.Opening? && !(s.manager.from.token.Some? && s.manager.from.time != Zero)
      && StartPosition(s.log, s.manager.from) <= |s.log|
    case StartSkip => s.manager.Starting? && CanProduce(s.log, s.manager.stream, Skip)
    case StartEvent => s.manager.Starting? && CanProduce(s.log, s.manager.stream, Deliver)
    case StartNone => s.manager.Starting?
    case StartUndecodable => s.manager.Starting? && CanProduce(s.log, s.manager.stream, Deliver)
    case Produce(true, what) => s.manager.Offering? && CanProduce(s.log, s.manager.stream, what)
    case Produce(false, what) => s.current.Some? && CanProduce(s.log, s.current.value, what)
    case HandOff => s.manager.Offering?
    case Consume =>
      && s.current.Some? && !s.waitForNext
      && |s.current.value.buf| > 0 && ItemInLog(s.log, s.current.value.buf[0])
  }

  predicate ItemInLog(log: seq<Event>, item: Item) {
    item.Ev? ==> item.index < |log|
  }

  function Do(s: State, step: Step): State
    requires Enabled(s, step)
  {
    match step
    case Write(e) => s.(log := s.log + [e])
    case ReadOptions => s.(manager := Opening(s.gate))
    case WatchFails => s.(manager := Idle)
    case Watch => s.(manager := Starting(Stream(StartPosition(s.log, s.manager.from), [], false)))
    case StartSkip => s.(manager := Starting(ProduceOn(s.manager.stream, Skip)))
    case StartEvent =>
      var st := s.manager.stream;
      s.(manager := Offering(ProduceOn(st, Deliver), st.pos + 1, s.log[st.pos].clusterTime))
    case StartNone => s.(manager := Offering(s.manager.stream, s.manager.stream.pos, Zero))
    case StartUndecodable =>
      s.(manager := Offering(ProduceOn(s.manager.stream, Break), s.manager.stream.pos + 1, Zero))
    case Produce(true, what) => s.(manager := s.manager.(stream := ProduceOn(s.manager.stream, what)))
    case Produce(false, what) => s.(current := Some(ProduceOn(s.current.value, what)))
    case HandOff =>
      var s' := s.(current := Some(s.manager.stream), waitForNext := false, manager := Idle);
      if s.current.None? then
        // start-up: only the first hand-off records the stream's own start
        s'.(gate := GateStep(s.gate, Some(s.manager.token), s.manager.time).0,
            baseline := s.manager.token, frontier := s.manager.token)
      else s'
    case Consume =>
      var st := s.current.value;
      var s' := s.(current := Some(st.(buf := st.buf[1..])));
      match st.buf[0]
      case Ev(k) =>
        var (gate, isNew) := GateStep(s.gate, Some(k + 1), s.log[k].clusterTime);
        if isNew then s'.(gate := gate, passed := s.passed + [k], frontier := k + 1) else s'
      case Failed => s'.(waitForNext := true)
      case Invalidated(token) =>
        s'.(gate := GateStep(s.gate, Some(token), Zero).0, waitForNext := true)
  }

  predicate AtInvalidation(s: State) {
    s.current.Some? && !s.waitForNext && |s.current.value.buf| > 0 && s.current.value.buf[0].Invalidated?
  }

  // Nothing settled can reappear: what the stream holds or will read lies at or past `from`.
  predicate NoReplay(st: Stream, from: nat) {
    && (st.dead || from <= st.pos)
    && forall i :: 0 <= i < |st.buf| && st.buf[i].Ev? ==> from <= st.buf[i].index
  }

  // What the manager holds, be it options or a stream, starts at or past `from`.
  predicate ManagerClear(log: seq<Event>, manager: Manager, from: nat) {
    match manager
    case Idle => true
    case Opening(g) => from <= StartPosition(log, g)
    case Starting(st) => from <= st.pos
    case Offering(st, _, _) => NoReplay(st, from)
  }

  // An invalidation moves the recorded position to the stream's own and forgets the recorded time.
  // That is safe when the stream was not behind, and the manager holds nothing from before.
  predicate Safe(s: State)
    requires AtInvalidation(s)
  {
    s.frontier <= s.current.value.buf[0].token && ManagerClear(s.log, s.manager, s.frontier)
  }

  // A run from s: each step enabled, each invalidation safe.
  ghost predicate Runs(s: State, steps: seq<Step>, s': State)
    decreases |steps|
  {
    if steps == [] then s == s'
    else
      && Enabled(s, steps[0]) && (steps[0].Consume? && AtInvalidation(s) ==> Safe(s))
      && Runs(Do(s, steps[0]), steps[1..], s')
  }

  // A run in which invalidations may happen at any time.
  ghost predicate RunsFreely(s: State, steps: seq<Step>, s': State)
    decreases |steps|
  {
    if steps == [] then s == s'
    else Enabled(s, steps[0]) && RunsFreely(Do(s, steps[0]), steps[1..], s')
  }

  // ----- The invariant -----

  // Every event of this operator in [from, pos) is still queued, and the queue is in log order.
  ghost predicate Covers(log: seq<Event>, st: Stream, from: nat) {
    && st.pos <= |log|
    && (forall i :: 0 <= i < |st.buf| && st.buf[i].Ev? ==> st.buf[i].index < st.pos)
    && (forall i, j :: 0 <= i < j < |st.buf| && st.buf[j].Ev? ==> st.buf[i].Ev? && st.buf[i].index < st.buf[j].index)
    && (forall i :: 0 <= i < |st.buf| && !st.buf[i].Ev? ==> st.dead && i == |st.buf| - 1)
    && (forall i :: 0 <= i < |st.buf| && st.buf[i].Invalidated? ==> st.buf[i].token == st.pos)
    && (forall k :: from <= k < st.pos && log[k].mine ==> Ev(k) in st.buf)
  }

  // A stream in order that has lost nothing; while no event time is recorded the gate lets
  // everything through, and only streams without replay may exist.
  ghost predicate StreamOk(log: seq<Event>, g: Gate, st: Stream, frontier: nat) {
    Covers(log, st, frontier) && (g.time == Zero ==> NoReplay(st, frontier))
  }

  // The recorded position is the frontier, or one past it with nothing of this operator in between.
  ghost predicate GateAt(log: seq<Event>, g: Gate, frontier: nat) {
    && frontier <= |log|
    && if g.time == Zero
       then
         && g.token.Some? && frontier <= g.token.value <= |log|
         && forall k :: frontier <= k < g.token.value ==> !log[k].mine
       else g.token == None && frontier > 0 && g.time == log[frontier - 1].clusterTime
  }

  ghost predicate ManagerOk(s: State) {
    match s.manager
    case Idle => true
    case Opening(g) =>
      if s.current.None? then g == Gate(Zero, None)
      else
        && (exists p: nat :: p <= s.frontier && GateAt(s.log, g, p))
        && (s.gate.time == Zero ==> s.frontier <= StartPosition(s.log, g))
    case Starting(st) =>
      && st.buf == [] && !st.dead && st.pos <= |s.log|
      && (s.current.Some? ==> StreamOk(s.log, s.gate, st, s.frontier))
    case Offering(st, token, time) =>
      if s.current.None? then
        && StreamOk(s.log, Gate(time, None), st, token)
        && GateAt(s.log, GateStep(s.gate, Some(token), time).0, token)
      else StreamOk(s.log, s.gate, st, s.frontier)
  }

  ghost predicate PassedOk(log: seq<Event>, passed: seq<nat>, baseline: nat, frontier: nat) {
    && baseline <= frontier <= |log|
    && frontier == (if passed == [] then baseline else passed[|passed| - 1] + 1)
    && (forall i :: 0 <= i < |passed| ==> baseline <= passed[i] < frontier)
    && (forall i, j :: 0 <= i < j < |passed| ==> passed[i] < passed[j])
    && (forall k :: baseline <= k < frontier && log[k].mine ==> k in passed)
  }

  ghost predicate Inv(s: State) {
    && Ordered(s.log)
    && ManagerOk(s)
    && PassedOk(s.log, s.passed, s.baseline, s.frontier)
    && (if s.current.None? then s.gate == Gate(Zero, None) && s.passed == [] && s.baseline == s.frontier == 0
        else
          && GateAt(s.log, s.gate, s.frontier)
          && (!s.waitForNext ==> StreamOk(s.log, s.gate, s.current.value, s.frontier)))
  }

  // Reading on keeps the queue ordered and complete.
  lemma ProduceOk(log: seq<Event>, g: Gate, st: Stream, what: Production, from: nat)
    requires StreamOk(log, g, st, from) && CanProduce(log, st, what)
    ensures StreamOk(log, g, ProduceOn(st, what), from)
  {
    var st' := ProduceOn(st, what);
    forall k | from <= k < st'.pos && log[k].mine
      ensures Ev(k) in st'.buf
    {
      if what.Deliver? && k == st.pos {
        assert st'.buf[|st.buf|] == Ev(k);
      } else {
        assert Ev(k) in st.buf;
      }
    }
  }

  // The event at the head of a covering queue passes exactly when it lies past the frontier,
  // and then nothing of this operator lies between the two.
  lemma HeadAtFrontier(log: seq<Event>, g: Gate, frontier: nat, st: Stream)
    requires Ordered(log) && GateAt(log, g, frontier) && StreamOk(log, g, st, frontier)
    requires |st.buf| > 0 && st.buf[0].Ev?
    ensures var k := st.buf[0].index;
            && GateStep(g, Some(k + 1), log[k].clusterTime).1 == (k >= frontier)
            && forall i :: frontier <= i < k ==> !log[i].mine
  {
    var k := st.buf[0].index;
    if g.time != Zero {
      if k < frontier - 1 { assert Before(log[k].clusterTime, log[frontier - 1].clusterTime); }
      if k >= frontier { assert Before(log[frontier - 1].clusterTime, log[k].clusterTime); }
    }
    assert forall i :: frontier <= i < k && log[i].mine ==> Ev(i) in st.buf;
  }

  // Taking the head off keeps the rest in order, and complete from `from` on.
  lemma TailOk(log: seq<Event>, g: Gate, st: Stream, from: nat, g': Gate, from': nat)
    requires StreamOk(log, g, st, from) && |st.buf| > 0 && st.buf[0].Ev? && from <= from'
    requires from' == if st.buf[0].index >= from then st.buf[0].index + 1 else from
    requires g'.time != Zero || (g' == g && from' == from)
    ensures StreamOk(log, g', st.(buf := st.buf[1..]), from')
  {
    var st' := st.(buf := st.buf[1..]);
    assert st.buf == [st.buf[0]] + st'.buf;
    forall k | from' <= k < st.pos && log[k].mine
      ensures Ev(k) in st'.buf
    {
      assert Ev(k) in st.buf;
    }
  }

  // A longer log changes nothing about what is already there.
  lemma GrowStream(log: seq<Event>, e: Event, g: Gate, st: Stream, from: nat)
    requires StreamOk(log, g, st, from)
    ensures StreamOk(log + [e], g, st, from)
  {
    assert forall k :: 0 <= k < |log| ==> (log + [e])[k] == log[k];
  }

  lemma GrowGate(log: seq<Event>, e: Event, g: Gate, p: nat)
    requires GateAt(log, g, p)
    ensures GateAt(log + [e], g, p)
  {
    assert forall k :: 0 <= k < |log| ==> (log + [e])[k] == log[k];
  }

  lemma GrowPassed(log: seq<Event>, e: Event, passed: seq<nat>, baseline: nat, frontier: nat)
    requires PassedOk(log, passed, baseline, frontier)
    ensures PassedOk(log + [e], passed, baseline, frontier)
  {
    assert forall k :: 0 <= k < |log| ==> (log + [e])[k] == log[k];
  }

  lemma GrowOrdered(log: seq<Event>, e: Event)
    requires Ordered(log) && e.clusterTime != Zero && (log != [] ==> Before(log[|log| - 1].clusterTime, e.clusterTime))
    ensures Ordered(log + [e])
  {
    forall i, j | 0 <= i < j < |log + [e]|
      ensures Before((log + [e])[i].clusterTime, (log + [e])[j].clusterTime)
    {
      if j == |log| && i < |log| - 1 {
        assert Before(log[i].clusterTime, log[|log| - 1].clusterTime);
      }
    }
  }

  // Where a stream opened with recorded options starts: nothing of this operator is skipped, and
  // a recorded time makes it start before the frontier it was recorded at.
  lemma OpensAt(log: seq<Event>, g: Gate, p: nat, frontier: nat)
    requires Ordered(log) && GateAt(log, g, p) && p <= frontier
    ensures StartPosition(log, g) <= |log|
    ensures forall k :: frontier <= k < StartPosition(log, g) ==> !log[k].mine
    ensures g.time != Zero ==> StartPosition(log, g) < p
  {
    if g.time != Zero {
      var pos := PositionAt(log, g.time);
      assert pos > p - 1 ==> Before(log[p - 1].clusterTime, g.time);
    }
  }

  lemma GrowManager(s: State, e: Event)
    requires Ordered(s.log) && ManagerOk(s)
    ensures ManagerOk(s.(log := s.log + [e]))
  {
    match s.manager {
      case Idle =>
      case Opening(g) =>
        if s.current.Some? {
          var p: nat :| p <= s.frontier && GateAt(s.log, g, p);
          GrowGate(s.log, e, g, p);
          OpensAt(s.log, g, p, s.frontier);
        }
      case Starting(st) => if s.current.Some? { GrowStream(s.log, e, s.gate, st, s.frontier); }
      case Offering(st, token, time) =>
        if s.current.Some? {
          GrowStream(s.log, e, s.gate, st, s.frontier);
        } else {
          GrowStream(s.log, e, Gate(time, None), st, token);
          GrowGate(s.log, e, GateStep(s.gate, Some(token), time).0, token);
        }
    }
  }

  lemma WriteInv(s: State, e: Event)
    requires Inv(s) && Enabled(s, Write(e))
    ensures Inv(Do(s, Write(e)))
  {
    GrowOrdered(s.log, e);
    GrowManager(s, e);
    GrowPassed(s.log, e, s.passed, s.baseline, s.frontier);
    if s.current.Some? {
      GrowGate(s.log, e, s.gate, s.frontier);
      if !s.waitForNext { GrowStream(s.log, e, s.gate, s.current.value, s.frontier); }
    }
  }

  lemma OpenInv(s: State, step: Step)
    requires Inv(s) && Enabled(s, step) && (step.ReadOptions? || step.WatchFails? || step.Watch?)
    ensures Inv(Do(s, step))
  {
    if s.current.Some? {
      if step.ReadOptions? {
        assert GateAt(s.log, s.gate, s.frontier);
      } else {
        var p: nat :| p <= s.frontier && GateAt(s.log, s.manager.from, p);
        OpensAt(s.log, s.manager.from, p, s.frontier);
      }
    }
  }

  lemma StartInv(s: State, step: Step)
    requires Inv(s) && Enabled(s, step)
    requires step.StartSkip? || step.StartEvent? || step.StartNone? || step.StartUndecodable?
    ensures Inv(Do(s, step))
  {
    if s.current.Some? && !step.StartNone? {
      var what := if step.StartSkip? then Skip else if step.StartEvent? then Deliver else Break;
      ProduceOk(s.log, s.gate, s.manager.stream, what, s.frontier);
    }
  }

  lemma StreamInv(s: State, step: Step)
    requires Inv(s) && Enabled(s, step) && (step.Produce? || step.HandOff?)
    ensures Inv(Do(s, step))
  {
    match step {
      case Produce(true, what) =>
        if s.current.None? {
          ProduceOk(s.log, Gate(s.manager.time, None), s.manager.stream, what, s.manager.token);
        } else {
          ProduceOk(s.log, s.gate, s.manager.stream, what, s.frontier);
        }
      case Produce(false, what) =>
        if !s.waitForNext { ProduceOk(s.log, s.gate, s.current.value, what, s.frontier); }
      case HandOff =>
    }
  }

  // An event that passes: it lies past the frontier, and nothing was skipped.
  lemma PassOk(log: seq<Event>, passed: seq<nat>, baseline: nat, frontier: nat, k: nat)
    requires PassedOk(log, passed, baseline, frontier) && frontier <= k < |log|
    requires forall i :: frontier <= i < k ==> !log[i].mine
    ensures PassedOk(log, passed + [k], baseline, k + 1)
  {
    forall m | baseline <= m < k + 1 && log[m].mine
      ensures m in passed + [k]
    {
      if m == k { assert (passed + [k])[|passed|] == k; } else { assert m in passed; }
    }
  }

  // With a time recorded, the manager's stream or options need only be complete.
  lemma ManagerLater(s: State, gate: Gate, passed: seq<nat>, frontier: nat)
    requires ManagerOk(s) && s.current.Some? && gate.time != Zero && s.frontier <= frontier
    ensures ManagerOk(s.(gate := gate, passed := passed, frontier := frontier))
  {
    if s.manager.Opening? {
      var p: nat :| p <= s.frontier && GateAt(s.log, s.manager.from, p);
      assert p <= frontier && GateAt(s.log, s.manager.from, p);
    }
  }

  lemma EventInv(s: State)
    requires Inv(s) && Enabled(s, Consume) && s.current.value.buf[0].Ev?
    ensures Inv(Do(s, Consume))
  {
    var s', st := Do(s, Consume), s.current.value;
    var k := st.buf[0].index;
    HeadAtFrontier(s.log, s.gate, s.frontier, st);
    TailOk(s.log, s.gate, st, s.frontier, s'.gate, s'.frontier);
    if k >= s.frontier {
      PassOk(s.log, s.passed, s.baseline, s.frontier, k);
      ManagerLater(s, s'.gate, s'.passed, s'.frontier);
    }
  }

  lemma InvalidationInv(s: State)
    requires Inv(s) && Enabled(s, Consume) && AtInvalidation(s) && Safe(s)
    ensures Inv(Do(s, Consume))
  {
    assert s.current.value.buf == [s.current.value.buf[0]];
  }

  lemma ConsumeInv(s: State)
    requires Inv(s) && Enabled(s, Consume) && (AtInvalidation(s) ==> Safe(s))
    ensures Inv(Do(s, Consume))
  {
    match s.current.value.buf[0] {
      case Ev(_) => EventInv(s);
      case Failed =>
      case Invalidated(_) => InvalidationInv(s);
    }
  }

  lemma StepInv(s: State, step: Step)
    requires Inv(s) && Enabled(s, step) && (step.Consume? && AtInvalidation(s) ==> Safe(s))
    ensures Inv(Do(s, step))
  {
    match step {
      case Write(e) => WriteInv(s, e);
      case Produce(_, _) => StreamInv(s, step);
      case HandOff => StreamInv(s, step);
      case Consume => ConsumeInv(s);
      case ReadOptions => OpenInv(s, step);
      case WatchFails => OpenInv(s, step);
      case Watch => OpenInv(s, step);
      case _ => StartInv(s, step);
    }
  }

  lemma {:induction false} RunInv(s: State, steps: seq<Step>, s': State)
    requires Inv(s) && Runs(s, steps, s')
    ensures Inv(s')
    decreases |steps|
  {
    if steps != [] {
      StepInv(s, steps[0]);
      RunInv(Do(s, steps[0]), steps[1..], s');
    }
  }

  // ----- The results -----

  // Events passed in strictly increasing cluster-time order, so none twice, and none of this
  // operator's was skipped between the start-up baseline and the latest event that passed.
  ghost predicate ExactlyOnce(s: State) {
    && (forall i :: 0 <= i < |s.passed| ==> s.baseline <= s.passed[i] < |s.log|)
    && (forall i, j :: 0 <= i < j < |s.passed| ==>
         Before(s.log[s.passed[i]].clusterTime, s.log[s.passed[j]].clusterTime))
    && (s.passed != [] ==> forall k :: s.baseline <= k <= s.passed[|s.passed| - 1] && s.log[k].mine ==> k in s.passed)
  }

  lemma InvExactlyOnce(s: State)
    requires Inv(s)
    ensures ExactlyOnce(s)
  {
  }

  /** Whatever streams break and however hand-offs overlap, events pass the gate exactly once and in
      order, in every run whose invalidations are safe. */
  lemma GateExactlyOnceInOrder(s: State, steps: seq<Step>, s': State)
    requires Init(s) && Runs(s, steps, s')
    ensures ExactlyOnce(s')
  {
    RunInv(s, steps, s');
    InvExactlyOnce(s');
  }

  // ----- Exactly the safe invalidations are safe -----

  lemma Prepend(s: State, step: Step, rest: seq<Step>, s': State) returns (steps: seq<Step>)
    requires Enabled(s, step) && (step.Consume? ==> !AtInvalidation(s)) && Runs(Do(s, step), rest, s')
    ensures steps == [step] + rest && Runs(s, steps, s')
  {
    steps := [step] + rest;
    assert steps[1..] == rest;
  }

  // The run below only adds one passed event.
  ghost predicate Passes(s: State, k: nat, s': State) {
    s'.passed == s.passed + [k] && s'.log == s.log && s'.baseline == s.baseline
  }

  // While no time is recorded, the gate lets anything through that the manager comes up with.
  ghost predicate Ungated(s: State) {
    Ordered(s.log) && s.current.Some? && s.gate.time == Zero
  }

  lemma FromOffering(s: State) returns (steps: seq<Step>, s': State)
    requires Ungated(s) && s.manager.Offering? && |s.manager.stream.buf| > 0
    requires s.manager.stream.buf[0].Ev? && s.manager.stream.buf[0].index < |s.log|
    ensures Runs(s, steps, s') && Passes(s, s.manager.stream.buf[0].index, s')
  {
    var s1 := Do(s, HandOff);
    s' := Do(s1, Consume);
    steps := Prepend(s1, Consume, [], s');
    steps := Prepend(s, HandOff, steps, s');
  }

  lemma FromIdleStream(s: State) returns (steps: seq<Step>, s': State)
    requires Ungated(s) && s.manager.Offering? && s.manager.stream.buf == []
    requires !s.manager.stream.dead && s.manager.stream.pos < |s.log|
    ensures Runs(s, steps, s') && Passes(s, s.manager.stream.pos, s')
  {
    var s1 := Do(s, Produce(true, Deliver));
    steps, s' := FromOffering(s1);
    steps := Prepend(s, Produce(true, Deliver), steps, s');
  }

  lemma FromStarting(s: State) returns (steps: seq<Step>, s': State)
    requires Ungated(s) && s.manager.Starting? && s.manager.stream.buf == []
    requires !s.manager.stream.dead && s.manager.stream.pos < |s.log|
    ensures Runs(s, steps, s') && Passes(s, s.manager.stream.pos, s')
  {
    steps, s' := FromOffering(Do(s, StartEvent));
    steps := Prepend(s, StartEvent, steps, s');
  }

  lemma FromOpening(s: State) returns (steps: seq<Step>, s': State)
    requires Ungated(s) && s.manager.Opening? && Enabled(s, Watch) && StartPosition(s.log, s.manager.from) < |s.log|
    ensures Runs(s, steps, s') && Passes(s, StartPosition(s.log, s.manager.from), s')
  {
    steps, s' := FromStarting(Do(s, Watch));
    steps := Prepend(s, Watch, steps, s');
  }

  lemma FromIdle(s: State) returns (steps: seq<Step>, s': State)
    requires Ungated(s) && s.manager.Idle? && s.gate.token.Some? && s.gate.token.value < |s.log|
    ensures Runs(s, steps, s') && Passes(s, s.gate.token.value, s')
  {
    steps, s' := FromOpening(Do(s, ReadOptions));
    steps := Prepend(s, ReadOptions, steps, s');
  }

  // The manager drops or hands over what it holds, and opens a stream at the recorded token.
  lemma FromAny(s: State) returns (steps: seq<Step>, s': State)
    requires Ungated(s) && s.gate.token.Some? && s.gate.token.value < |s.log|
    ensures Runs(s, steps, s') && Passes(s, s.gate.token.value, s')
  {
    match s.manager {
      case Idle => steps, s' := FromIdle(s);
      case Opening(_) =>
        steps, s' := FromIdle(Do(s, WatchFails));
        steps := Prepend(s, WatchFails, steps, s');
      case Starting(_) =>
        var s1 := Do(s, StartNone);
        steps, s' := FromIdle(Do(s1, HandOff));
        steps := Prepend(s1, HandOff, steps, s');
        steps := Prepend(s, StartNone, steps, s');
      case Offering(_, _, _) =>
        steps, s' := FromIdle(Do(s, HandOff));
        steps := Prepend(s, HandOff, steps, s');
    }
  }

  // An event below the frontier that passes is out of order, or lies before the baseline.
  lemma BelowFrontier(s: State, k: nat, s': State)
    requires Inv(s) && s.current.Some? && k < s.frontier && Passes(s, k, s')
    ensures !ExactlyOnce(s')
  {
    var n := |s.passed|;
    assert s'.passed[n] == k;
    if n > 0 {
      assert s'.passed[n - 1] == s.frontier - 1;
      assert k < s.frontier - 1 ==> Before(s.log[k].clusterTime, s.log[s.frontier - 1].clusterTime);
    }
  }

  // Every invalidation that is not safe can be followed by an event that passes where it must not.
  lemma UnsafeReplays(s: State) returns (steps: seq<Step>, s': State)
    requires Inv(s) && AtInvalidation(s) && !Safe(s)
    ensures Runs(Do(s, Consume), steps, s') && !ExactlyOnce(s')
  {
    var s1, token, k := Do(s, Consume), s.current.value.buf[0].token, 0;
    assert s1.manager == s.manager && s1.passed == s.passed;
    if token < s.frontier {
      k := token;
      steps, s' := FromAny(s1);
    } else {
      match s.manager {
        case Opening(g) =>
          var p: nat :| p <= s.frontier && GateAt(s.log, g, p);
          k := StartPosition(s.log, g);
          steps, s' := FromOpening(s1);
        case Starting(st) =>
          k := st.pos;
          steps, s' := FromStarting(s1);
        case Offering(st, _, _) =>
          if st.buf == [] {
            k := st.pos;
            steps, s' := FromIdleStream(s1);
          } else {
            k := st.buf[0].index;
            steps, s' := FromOffering(s1);
          }
      }
    }
    BelowFrontier(s, k, s');
  }

  // Whatever follows an invalidation, as long as later ones are safe, events pass exactly once.
  ghost predicate Harmless(s: State)
    requires Enabled(s, Consume)
  {
    forall steps, s' :: Runs(Do(s, Consume), steps, s') ==> ExactlyOnce(s')
  }

  /**
   * In every state reached with safe invalidations only, the next invalidation is harmless if and only
   * if the invalidated stream was not behind the last event that passed, and what the manager holds does
   * not start before it.
   */
  lemma InvalidationHarmlessIffSafe(s0: State, steps: seq<Step>, s: State)
    requires Init(s0) && Runs(s0, steps, s) && AtInvalidation(s)
    ensures Enabled(s, Consume) && (Harmless(s) <==> Safe(s))
  {
    RunInv(s0, steps, s);
    if Safe(s) {
      InvalidationInv(s);
      forall more, s' | Runs(Do(s, Consume), more, s')
        ensures ExactlyOnce(s')
      {
        RunInv(Do(s, Consume), more, s');
        InvExactlyOnce(s');
      }
    } else {
      var more, s' := UnsafeReplays(s);
    }
  }

  // ----- Nothing is lost for good -----

  ghost predicate CaughtUp(s: State) {
    s.current.Some? && forall k :: s.baseline <= k < |s.log| && s.log[k].mine ==> k in s.passed
  }

  // The log and, once there is one, the baseline stay.
  predicate SameTask(s: State, s': State) {
    s'.log == s.log && (s.current.Some? ==> s'.current.Some? && s'.baseline == s.baseline)
  }

  predicate Ready(s: State) {
    s.current.Some? && !s.waitForNext && s.current.value.buf == [] && !s.current.value.dead
  }

  // One event read and consumed.
  lemma ReadOne(s: State)
    requires Inv(s) && Ready(s) && s.current.value.pos < |s.log|
    ensures Enabled(s, Produce(false, Deliver))
    ensures var s1 := Do(s, Produce(false, Deliver));
            && Inv(s1) && Enabled(s1, Consume) && !AtInvalidation(s1)
            && var s2 := Do(s1, Consume);
               Inv(s2) && Ready(s2) && SameTask(s, s2) && s2.current.value.pos == s.current.value.pos + 1
  {
    StepInv(s, Produce(false, Deliver));
    StepInv(Do(s, Produce(false, Deliver)), Consume);
  }

  lemma {:induction false} ReadOn(s: State) returns (steps: seq<Step>, s': State)
    requires Inv(s) && Ready(s)
    ensures Runs(s, steps, s') && SameTask(s, s') && CaughtUp(s')
    decreases |s.log| - s.current.value.pos
  {
    if s.current.value.pos == |s.log| {
      steps, s' := [], s;
      assert Covers(s.log, s.current.value, s.frontier);
    } else {
      ReadOne(s);
      var s1 := Do(s, Produce(false, Deliver));
      steps, s' := ReadOn(Do(s1, Consume));
      steps := Prepend(s1, Consume, steps, s');
      steps := Prepend(s, Produce(false, Deliver), steps, s');
    }
  }

  // A new stream, opened at the recorded position and handed over, reads everything.
  lemma ReadOffered(s: State) returns (steps: seq<Step>, s': State)
    requires Inv(s) && s.manager.Offering? && s.manager.stream.buf == [] && !s.manager.stream.dead
    ensures Runs(s, steps, s') && SameTask(s, s') && CaughtUp(s')
  {
    StepInv(s, HandOff);
    steps, s' := ReadOn(Do(s, HandOff));
    steps := Prepend(s, HandOff, steps, s');
  }

  lemma ReadStarted(s: State) returns (steps: seq<Step>, s': State)
    requires Inv(s) && s.manager.Starting?
    ensures Runs(s, steps, s') && SameTask(s, s') && CaughtUp(s')
  {
    StepInv(s, StartNone);
    steps, s' := ReadOffered(Do(s, StartNone));
    steps := Prepend(s, StartNone, steps, s');
  }

  lemma ReadOpened(s: State) returns (steps: seq<Step>, s': State)
    requires Inv(s) && s.manager.Opening?
    ensures Runs(s, steps, s') && SameTask(s, s') && CaughtUp(s')
  {
    if s.current.Some? {
      var p: nat :| p <= s.frontier && GateAt(s.log, s.manager.from, p);
      OpensAt(s.log, s.manager.from, p, s.frontier);
    }
    StepInv(s, Watch);
    steps, s' := ReadStarted(Do(s, Watch));
    steps := Prepend(s, Watch, steps, s');
  }

  lemma OpenAndRead(s: State) returns (steps: seq<Step>, s': State)
    requires Inv(s) && s.manager.Idle?
    ensures Runs(s, steps, s') && SameTask(s, s') && CaughtUp(s')
  {
    StepInv(s, ReadOptions);
    steps, s' := ReadOpened(Do(s, ReadOptions));
    steps := Prepend(s, ReadOptions, steps, s');
  }

  // A stream on offer, be it broken or behind, is handed over, and another one opened.
  lemma ReplaceOffered(s: State) returns (steps: seq<Step>, s': State)
    requires Inv(s) && s.manager.Offering?
    ensures Runs(s, steps, s') && SameTask(s, s') && CaughtUp(s')
  {
    StepInv(s, HandOff);
    steps, s' := OpenAndRead(Do(s, HandOff));
    steps := Prepend(s, HandOff, steps, s');
  }

  lemma CatchUp(s: State) returns (steps: seq<Step>, s': State)
    requires Inv(s)
    ensures Runs(s, steps, s') && SameTask(s, s') && CaughtUp(s')
  {
    match s.manager {
      case Idle => steps, s' := OpenAndRead(s);
      case Opening(_) => steps, s' := ReadOpened(s);
      case Starting(_) => steps, s' := ReadStarted(s);
      case Offering(_, _, _) => steps, s' := ReplaceOffered(s);
    }
  }

  /** From every state reached with safe invalidations only, whatever broke before: the streams can go on so that
      every event of this operator since the baseline has passed. */
  lemma CanCatchUp(s0: State, steps0: seq<Step>, s: State)
    requires Init(s0) && Runs(s0, steps0, s)
    ensures exists steps, s' :: Runs(s, steps, s') && SameTask(s, s') && CaughtUp(s')
  {
    RunInv(s0, steps0, s);
    var steps, s' := CatchUp(s);
  }

  // ----- One start option -----

  ghost predicate StreamBounded(log: seq<Event>, st: Stream) {
    st.pos <= |log| && forall i :: 0 <= i < |st.buf| && st.buf[i].Invalidated? ==> st.buf[i].token <= |log|
  }

  ghost predicate GateBounded(log: seq<Event>, g: Gate) {
    (g.time == Zero || g.token == None) && (g.token.Some? ==> g.token.value <= |log|)
  }

  ghost predicate Bounded(s: State) {
    && GateBounded(s.log, s.gate)
    && (s.current.Some? ==> StreamBounded(s.log, s.current.value))
    && match s.manager
       case Idle => true
       case Opening(g) => GateBounded(s.log, g)
       case Starting(st) => StreamBounded(s.log, st)
       case Offering(st, token, _) => StreamBounded(s.log, st) && token <= |s.log|
  }

  lemma ProduceBounded(log: seq<Event>, st: Stream, what: Production)
    requires StreamBounded(log, st) && CanProduce(log, st, what)
    ensures StreamBounded(log, ProduceOn(st, what))
  {
  }

  lemma TakeBounded(log: seq<Event>, st: Stream)
    requires StreamBounded(log, st) && |st.buf| > 0
    ensures StreamBounded(log, st.(buf := st.buf[1..]))
  {
  }

  lemma StepBounded(s: State, step: Step)
    requires Bounded(s) && Enabled(s, step)
    ensures Bounded(Do(s, step))
  {
    match step {
      case StartSkip => ProduceBounded(s.log, s.manager.stream, Skip);
      case StartEvent => ProduceBounded(s.log, s.manager.stream, Deliver);
      case StartUndecodable => ProduceBounded(s.log, s.manager.stream, Break);
      case Produce(true, what) => ProduceBounded(s.log, s.manager.stream, what);
      case Produce(false, what) => ProduceBounded(s.log, s.current.value, what);
      case Consume => TakeBounded(s.log, s.current.value);
      case _ =>
    }
  }

  lemma {:induction false} RunBounded(s: State, steps: seq<Step>, s': State)
    requires Bounded(s) && RunsFreely(s, steps, s')
    ensures Bounded(s')
    decreases |steps|
  {
    if steps != [] {
      StepBounded(s, steps[0]);
      RunBounded(Do(s, steps[0]), steps[1..], s');
    }
  }

  /** In every run, whatever is invalidated: at most one of resume token and cluster time is set, so
      the server never refuses the stream the manager is opening. */
  lemma OneStartOption(s: State, steps: seq<Step>, s': State)
    requires Init(s) && RunsFreely(s, steps, s')
    ensures s'.gate.time == Zero || s'.gate.token == None
    ensures s'.manager.Opening? ==> Enabled(s', Watch)
  {
    RunBounded(s, steps, s');
  }

  lemma {:induction false} Extend(s: State, steps: seq<Step>, mid: State, step: Step)
    returns (more: seq<Step>, next: State)
    requires RunsFreely(s, steps, mid) && Enabled(mid, step)
    ensures next == Do(mid, step) && RunsFreely(s, more, next)
    ensures more == steps + [step]
    decreases |steps|
  {
    more, next := steps + [step], Do(mid, step);
    if steps != [] {
      var rest, end := Extend(Do(s, steps[0]), steps[1..], mid, step);
      assert more[1..] == rest;
    }
  }

  const Start := State([], Gate(Zero, None), Idle, None, false, 0, 0, [])

  // The operator starts up on an empty log and opens a second stream at the same position.
  lemma TwoStreams() returns (r: seq<Step>, s: State)
    ensures RunsFreely(Start, r, s)
    ensures var fresh' := Stream(0, [], false);
            s == State([], Gate(Zero, Some(0)), Starting(fresh'), Some(fresh'), false, 0, 0, [])
  {
    assert RunsFreely(Start, [], Start);
    r, s := Extend(Start, [], Start, ReadOptions);
    r, s := Extend(Start, r, s, Watch);
    r, s := Extend(Start, r, s, StartNone);
    r, s := Extend(Start, r, s, HandOff);
    r, s := Extend(Start, r, s, ReadOptions);
    r, s := Extend(Start, r, s, Watch);
  }

  const OneEvent := Event(Timestamp(1, 0), true)

  // The first stream passes one event and is then invalidated, which wipes the recorded time.
  lemma PassThenInvalidate() returns (r: seq<Step>, s: State)
    ensures RunsFreely(Start, r, s)
    ensures var fresh', dead := Stream(0, [], false), Stream(1, [], true);
            s == State([OneEvent], Gate(Zero, Some(1)), Starting(fresh'), Some(dead), true, 0, 1, [0])
  {
    r, s := TwoStreams();
    r, s := Extend(Start, r, s, Write(OneEvent));
    assert s.log == [OneEvent];
    r, s := Extend(Start, r, s, Produce(false, Deliver));
    assert s.current.value.buf == [Ev(0)];
    r, s := Extend(Start, r, s, Consume);
    assert s.current.value.buf == [] && s.passed == [0];
    r, s := Extend(Start, r, s, Produce(false, Invalidate));
    assert s.current.value.buf == [Invalidated(1)];
    r, s := Extend(Start, r, s, Consume);
    assert s.current.value.buf == [];
  }

  /** One invalidation that is not safe: once an invalidation has wiped the recorded
      time, a stream opened before it hands over an event that has already passed. */
  lemma InvalidationReplays()
    ensures exists s, steps, s' ::
              Init(s) && RunsFreely(s, steps, s') && |s'.passed| == 2 && s'.passed[0] == s'.passed[1]
  {
    var r, s := PassThenInvalidate();
    r, s := Extend(Start, r, s, StartEvent);
    r, s := Extend(Start, r, s, HandOff);
    r, s := Extend(Start, r, s, Consume);
    assert Init(Start) && s.passed == [0, 0];
  }
}
