/**
 * What bounds a server: tickets for running handlers, a wait group that Stop waits on, and a
 * limit on the streams of a channel.
 */
module CallTickets {
  type Rid = nat

  // Where a request is in processHeaders and in the goroutine it starts.
  datatype Phase = Added | Checked | Running | Finishing | Rejected | Gone

  // `workers` is the wait group, `tickets` the fill of the ticket channel, `stopping` says that
  // Stop holds its lock.
  datatype State = State(tickets: nat, workers: int, ctxDone: bool, stopping: bool, requests: map<Rid, Phase>)

  datatype Step =
    | Add(r: Rid)
    | CheckContext(r: Rid)
    | TakeTicket(r: Rid)
    | HandlerReturns(r: Rid)
    | ReturnTicket(r: Rid)
    | Cancel
    | LockForStop
    | WaitReturns

  predicate Is(s: State, r: Rid, phase: Phase) {
    r in s.requests && s.requests[r] == phase
  }

  predicate Enabled(s: State, step: Step) {
    match step
    case Add(r) => r !in s.requests && !s.stopping   // RLock
    case CheckContext(r) => Is(s, r, Added)
    case TakeTicket(r) => Is(s, r, Checked)
    case HandlerReturns(r) => Is(s, r, Running)
    case ReturnTicket(r) => Is(s, r, Finishing) && s.tickets > 0
    case Cancel => true
    case LockForStop => s.ctxDone && !s.stopping
    case WaitReturns => s.stopping && s.workers == 0
  }

  function Move(s: State, r: Rid, phase: Phase): State {
    s.(requests := s.requests[r := phase])
  }

  function Do(s: State, step: Step, capacity: nat): State
    requires Enabled(s, step)
  {
    match step
    case Add(r) => Move(s, r, Added).(workers := s.workers + 1)
    case CheckContext(r) => if s.ctxDone then Move(s, r, Gone).(workers := s.workers - 1) else Move(s, r, Checked)
    case TakeTicket(r) =>
      if s.tickets < capacity then Move(s, r, Running).(tickets := s.tickets + 1)
      else Move(s, r, Rejected)   // no Done on this path
    case HandlerReturns(r) => Move(s, r, Finishing).(workers := s.workers - 1)
    case ReturnTicket(r) => Move(s, r, Gone).(tickets := s.tickets - 1)
    case Cancel => s.(ctxDone := true)
    case LockForStop => s.(stopping := true)
    case WaitReturns => s.(stopping := false)
  }

  const Start := State(0, 0, false, false, map[])

  ghost predicate Runs(s: State, steps: seq<Step>, capacity: nat, s': State)
    decreases |steps|
  {
    if steps == [] then s == s'
    else Enabled(s, steps[0]) && Runs(Do(s, steps[0], capacity), steps[1..], capacity, s')
  }

  function At(requests: map<Rid, Phase>, phase: Phase): set<Rid> {
    set r | r in requests && requests[r] == phase
  }

  function Count(s: State, phase: Phase): nat {
    |At(s.requests, phase)|
  }

  // Moving a request changes the count it leaves and the count it joins.
  lemma MoveCounts(s: State, r: Rid, phase: Phase, other: Phase)
    ensures Count(Move(s, r, phase), other) ==
            Count(s, other) - (if Is(s, r, other) then 1 else 0) + (if phase == other then 1 else 0)
  {
    var before, after := At(s.requests, other), At(Move(s, r, phase).requests, other);
    assert after == if phase == other then before + {r} else before - {r};
  }

  ghost predicate TicketsOk(s: State, capacity: nat) {
    s.tickets == Count(s, Running) + Count(s, Finishing) <= capacity
  }

  ghost predicate WorkersOk(s: State) {
    s.workers == Count(s, Added) + Count(s, Checked) + Count(s, Running) + Count(s, Rejected)
  }

  ghost predicate Inv(s: State, capacity: nat) {
    TicketsOk(s, capacity) && WorkersOk(s)
  }

  // What a step does to the requests in a phase.
  lemma StepCounts(s: State, step: Step, capacity: nat, phase: Phase)
    requires Enabled(s, step)
    ensures var s' := Do(s, step, capacity);
            Count(s', phase) == if s'.requests == s.requests then Count(s, phase)
                                else Count(s, phase) - (if Is(s, step.r, phase) then 1 else 0)
                                     + (if Is(s', step.r, phase) then 1 else 0)
  {
    var s' := Do(s, step, capacity);
    if s'.requests != s.requests {
      MoveCounts(s, step.r, s'.requests[step.r], phase);
      assert s'.requests == Move(s, step.r, s'.requests[step.r]).requests;
    }
  }

  lemma StepTickets(s: State, step: Step, capacity: nat)
    requires TicketsOk(s, capacity) && Enabled(s, step)
    ensures TicketsOk(Do(s, step, capacity), capacity)
  {
    StepCounts(s, step, capacity, Running);
    StepCounts(s, step, capacity, Finishing);
  }

  lemma StepWorkers(s: State, step: Step, capacity: nat)
    requires WorkersOk(s) && Enabled(s, step)
    ensures WorkersOk(Do(s, step, capacity))
  {
    StepCounts(s, step, capacity, Added);
    StepCounts(s, step, capacity, Checked);
    StepCounts(s, step, capacity, Running);
    StepCounts(s, step, capacity, Rejected);
  }

  lemma StepInv(s: State, step: Step, capacity: nat)
    requires Inv(s, capacity) && Enabled(s, step)
    ensures Inv(Do(s, step, capacity), capacity)
    ensures forall r :: Is(s, r, Rejected) ==> Is(Do(s, step, capacity), r, Rejected)
  {
    StepTickets(s, step, capacity);
    StepWorkers(s, step, capacity);
  }

  lemma {:induction false} RunInv(s: State, steps: seq<Step>, capacity: nat, s': State)
    requires Inv(s, capacity) && Runs(s, steps, capacity, s')
    ensures Inv(s', capacity)
    ensures forall r :: Is(s, r, Rejected) ==> Is(s', r, Rejected)
    decreases |steps|
  {
    if steps != [] {
      StepInv(s, steps[0], capacity);
      RunInv(Do(s, steps[0], capacity), steps[1..], capacity, s');
    }
  }

  lemma StartInv(capacity: nat)
    ensures Inv(Start, capacity)
  {
    assert forall phase :: At(Start.requests, phase) == {};
  }

  lemma Reached(steps: seq<Step>, capacity: nat, s: State)
    requires Runs(Start, steps, capacity, s)
    ensures Inv(s, capacity)
  {
    StartInv(capacity);
    RunInv(Start, steps, capacity, s);
  }

  /** Tickets never exceed the capacity. Whenever no request is between two steps, the tickets held
      are the running handlers, and the wait group counts those and every request ever rejected
      for lack of a ticket. */
  lemma TicketsConserved(steps: seq<Step>, capacity: nat, s: State)
    requires Runs(Start, steps, capacity, s)
    ensures s.tickets <= capacity && Count(s, Running) <= s.tickets
    ensures Count(s, Finishing) == 0 ==> s.tickets == Count(s, Running)
    ensures Count(s, Added) == 0 && Count(s, Checked) == 0 ==> s.workers == Count(s, Running) + Count(s, Rejected)
  {
    Reached(steps, capacity, s);
  }

  /** Stop's wait can return exactly when Stop holds its lock and no request is admitted, running or
      rejected. */
  lemma WaitReturnsIff(steps: seq<Step>, capacity: nat, s: State)
    requires Runs(Start, steps, capacity, s)
    ensures Enabled(s, WaitReturns) <==>
            s.stopping && AllOver(s)
  {
    assert WorkersOk(s) by { Reached(steps, capacity, s); }
    NoneAt(s, Added);
    NoneAt(s, Checked);
    NoneAt(s, Running);
    NoneAt(s, Rejected);
  }

  ghost predicate AllOver(s: State) {
    forall r :: r in s.requests ==> s.requests[r] == Finishing || s.requests[r] == Gone
  }

  ghost predicate Nobody(s: State, phase: Phase) {
    forall r :: r in s.requests ==> s.requests[r] != phase
  }

  lemma NoneAt(s: State, phase: Phase)
    ensures Count(s, phase) == 0 <==> Nobody(s, phase)
  {
    if Count(s, phase) == 0 {
      forall r | r in s.requests
        ensures s.requests[r] != phase
      {
        assert r !in At(s.requests, phase);
      }
    } else {
      var r :| r in At(s.requests, phase);
    }
  }

  // Rejected, or bound to be: such a request never leaves the wait group.
  predicate Stuck(s: State, r: Rid, capacity: nat) {
    Is(s, r, Rejected) || (capacity == 0 && Is(s, r, Checked))
  }

  lemma {:induction false} StuckStays(s: State, steps: seq<Step>, capacity: nat, s': State, r: Rid)
    requires Inv(s, capacity) && Runs(s, steps, capacity, s') && Stuck(s, r, capacity)
    ensures Inv(s', capacity) && Stuck(s', r, capacity)
    decreases |steps|
  {
    if steps != [] {
      StepInv(s, steps[0], capacity);
      StuckStays(Do(s, steps[0], capacity), steps[1..], capacity, s', r);
    }
  }

  /** A single rejection keeps the wait group above zero for ever: Stop's wait never returns. */
  lemma RejectionBlocksStop(steps0: seq<Step>, capacity: nat, s: State, r: Rid, steps: seq<Step>, s': State)
    requires Runs(Start, steps0, capacity, s) && Stuck(s, r, capacity) && Runs(s, steps, capacity, s')
    ensures s'.workers >= 1 && !Enabled(s', WaitReturns)
  {
    Reached(steps0, capacity, s);
    StuckStays(s, steps, capacity, s', r);
    assert r in At(s'.requests, s'.requests[r]);
    assert Count(s', s'.requests[r]) > 0;
  }

  // ----- And nothing else does -----

  lemma Prepend(s: State, step: Step, rest: seq<Step>, capacity: nat, s': State) returns (steps: seq<Step>)
    requires Enabled(s, step) && Runs(Do(s, step, capacity), rest, capacity, s')
    ensures steps == [step] + rest && Runs(s, steps, capacity, s')
  {
    steps := [step] + rest;
    assert steps[1..] == rest;
  }

  // The steps left until every request is gone.
  ghost function Left(s: State): nat {
    Count(s, Added) + 3 * Count(s, Checked) + 2 * Count(s, Running) + Count(s, Finishing)
  }

  // Moving a request on, and what is left after that.
  lemma MoveOn(s: State, step: Step, capacity: nat)
    requires Inv(s, capacity) && Enabled(s, step) && s.ctxDone && Count(s, Rejected) == 0
    requires step.HandlerReturns? || step.ReturnTicket? || step.CheckContext? ||
               (step.TakeTicket? && s.tickets < capacity)
    ensures var s' := Do(s, step, capacity);
            && Inv(s', capacity) && s'.ctxDone && Count(s', Rejected) == 0 && Left(s') < Left(s)
            && (Count(s, Checked) == 0 ==> Count(s', Checked) == 0)
  {
    var s' := Do(s, step, capacity);
    StepInv(s, step, capacity);
    var r := step.r;
    MoveCounts(s, r, s'.requests[r], Added);
    MoveCounts(s, r, s'.requests[r], Checked);
    MoveCounts(s, r, s'.requests[r], Running);
    MoveCounts(s, r, s'.requests[r], Finishing);
    MoveCounts(s, r, s'.requests[r], Rejected);
  }

  // Something that can be done while a request is not gone: running handlers return first, so that
  // there is a ticket for those still to run.
  lemma NextMove(s: State, capacity: nat) returns (step: Step)
    requires Inv(s, capacity) && Count(s, Rejected) == 0 && Left(s) > 0 && (capacity > 0 || Count(s, Checked) == 0)
    ensures Enabled(s, step)
    ensures step.HandlerReturns? || step.ReturnTicket? || step.CheckContext? ||
              (step.TakeTicket? && s.tickets < capacity)
  {
    if Count(s, Running) > 0 {
      var r :| r in At(s.requests, Running);
      step := HandlerReturns(r);
    } else if Count(s, Finishing) > 0 {
      var r :| r in At(s.requests, Finishing);
      step := ReturnTicket(r);
    } else if Count(s, Added) > 0 {
      var r :| r in At(s.requests, Added);
      step := CheckContext(r);
    } else {
      var r :| r in At(s.requests, Checked);
      step := TakeTicket(r);
    }
  }

  lemma {:induction false} Drain(s: State, capacity: nat) returns (steps: seq<Step>, s': State)
    requires Inv(s, capacity) && s.ctxDone && Count(s, Rejected) == 0 && (capacity > 0 || Count(s, Checked) == 0)
    ensures Runs(s, steps, capacity, s') && Enabled(s', WaitReturns)
    decreases Left(s)
  {
    if Left(s) > 0 {
      var step := NextMove(s, capacity);
      MoveOn(s, step, capacity);
      steps, s' := Drain(Do(s, step, capacity), capacity);
      steps := Prepend(s, step, steps, capacity, s');
    } else if s.stopping {
      steps, s' := [], s;
    } else {
      s' := Do(s, LockForStop, capacity);
      steps := Prepend(s, LockForStop, [], capacity, s');
    }
  }

  ghost predicate StopCanReturn(s: State, capacity: nat) {
    exists steps, s' :: Runs(s, steps, capacity, s') && Enabled(s', WaitReturns)
  }

  /** Stop can still return if and only if no request was rejected for lack of a ticket, and none is
      bound to be because there are no tickets at all. */
  lemma StopCanReturnIff(steps0: seq<Step>, capacity: nat, s: State)
    requires Runs(Start, steps0, capacity, s)
    ensures StopCanReturn(s, capacity) <==> forall r :: r in s.requests ==> !Stuck(s, r, capacity)
  {
    Reached(steps0, capacity, s);
    if r :| r in s.requests && Stuck(s, r, capacity) {
      forall steps, s' | Runs(s, steps, capacity, s')
        ensures !Enabled(s', WaitReturns)
      {
        RejectionBlocksStop(steps0, capacity, s, r, steps, s');
      }
    } else {
      NotStuckReturns(s, capacity);
    }
  }

  lemma NotStuckReturns(s: State, capacity: nat)
    requires Inv(s, capacity) && forall r :: r in s.requests ==> !Stuck(s, r, capacity)
    ensures StopCanReturn(s, capacity)
  {
    NoneAt(s, Rejected);
    NoneAt(s, Checked);
    var s1 := Do(s, Cancel, capacity);
    assert s1.requests == s.requests && Inv(s1, capacity);
    var steps, s' := Drain(s1, capacity);
    steps := Prepend(s, Cancel, steps, capacity, s');
  }

  // ----- Which requests run -----

  /** A request that asks for a ticket is rejected if and only if as many handlers as there are tickets have not
      returned theirs; otherwise it runs. */
  lemma RejectedIffFull(steps: seq<Step>, capacity: nat, s: State, r: Rid)
    requires Runs(Start, steps, capacity, s) && Is(s, r, Checked)
    ensures var s' := Do(s, TakeTicket(r), capacity);
            && (Is(s', r, Rejected) <==> Count(s, Running) + Count(s, Finishing) == capacity)
            && (Is(s', r, Running) <==> Count(s, Running) + Count(s, Finishing) < capacity)
  {
    Reached(steps, capacity, s);
  }

  // The request can come to run.
  ghost predicate CanRun(s: State, r: Rid, capacity: nat) {
    exists steps, s' :: Runs(s, steps, capacity, s') && Is(s', r, Running)
  }

  // It has passed the test of the context, or will.
  predicate Admitted(s: State, r: Rid) {
    Is(s, r, Checked) || (Is(s, r, Added) && !s.ctxDone)
  }

  // A request that runs does so with a ticket, and was admitted.
  lemma {:induction false} RunsOnlyAdmitted(s: State, steps: seq<Step>, capacity: nat, s': State, r: Rid)
    requires r in s.requests && !Is(s, r, Running) && Runs(s, steps, capacity, s') && Is(s', r, Running)
    ensures Admitted(s, r) && capacity > 0
    decreases |steps|
  {
    var s1 := Do(s, steps[0], capacity);
    if !Is(s1, r, Running) {
      RunsOnlyAdmitted(s1, steps[1..], capacity, s', r);
    }
  }

  // With a ticket free, or made free by a handler that returns.
  lemma {:induction false} TakesTicket(s: State, r: Rid, capacity: nat) returns (steps: seq<Step>, s': State)
    requires Inv(s, capacity) && Is(s, r, Checked) && capacity > 0
    ensures Runs(s, steps, capacity, s') && Is(s', r, Running)
    decreases if s.tickets < capacity then 0 else if Count(s, Finishing) > 0 then 1 else 2
  {
    var step := TakeTicket(r);
    if s.tickets == capacity {
      if Count(s, Finishing) > 0 {
        var r' :| r' in At(s.requests, Finishing);
        step := ReturnTicket(r');
      } else {
        assert Count(s, Running) > 0;
        var r' :| r' in At(s.requests, Running);
        step := HandlerReturns(r');
        MoveCounts(s, r', Finishing, Finishing);
      }
      StepInv(s, step, capacity);
      steps, s' := TakesTicket(Do(s, step, capacity), r, capacity);
    } else {
      steps, s' := [], Do(s, step, capacity);
    }
    steps := Prepend(s, step, steps, capacity, s');
  }

  /** A request that is not running yet can come to run if and only if there are tickets at all and it has passed
      the test of the context, or will because the context is live. */
  lemma CanRunIffAdmitted(steps0: seq<Step>, capacity: nat, s: State, r: Rid)
    requires Runs(Start, steps0, capacity, s) && r in s.requests && !Is(s, r, Running)
    ensures CanRun(s, r, capacity) <==> Admitted(s, r) && capacity > 0
  {
    Reached(steps0, capacity, s);
    if steps, s' :| Runs(s, steps, capacity, s') && Is(s', r, Running) {
      RunsOnlyAdmitted(s, steps, capacity, s', r);
    }
    if Admitted(s, r) && capacity > 0 {
      if Is(s, r, Checked) {
        var steps, s' := TakesTicket(s, r, capacity);
      } else {
        StepInv(s, CheckContext(r), capacity);
        var steps, s' := TakesTicket(Do(s, CheckContext(r), capacity), r, capacity);
        steps := Prepend(s, CheckContext(r), steps, capacity, s');
      }
    }
  }
}

/** The stream maps of the two ends of a channel. */
module ChannelStreams {
  import opened Wrappers
  import opened FrameSize

  const MaxStreamCount: nat := 256   // WebRTCMaxStreamCount
  const Uint64: nat := 0x1_0000_0000_0000_0000

  // A stream is known by the order in which it was made.
  type Stream = nat

  class StreamTable {
    var streams: map<nat, Stream>
    var made: nat
    var streamIDCounter: nat
    ghost var calls: nat         // of NextStreamID
    ghost var issued: set<nat>   // the IDs it returned

    ghost predicate Valid()
      reads this
    {
      && |streams| <= MaxStreamCount
      && streamIDCounter == calls % Uint64
      && (forall id :: id in issued <==> 0 <= id < Uint64 && (calls >= Uint64 || 1 <= id <= calls))
      && (forall id :: id in streams ==> streams[id] < made)
      && (forall id, id' :: id in streams && id' in streams && id != id' ==> streams[id] != streams[id'])
    }

    // On a client, every stream has an ID of its own making.
    ghost predicate Own()
      reads this
    {
      forall id :: id in streams ==> id in issued
    }

    constructor ()
      ensures Valid() && Own() && streams == map[] && calls == 0
    {
      streams, made, streamIDCounter, calls, issued := map[], 0, 0, 0, {};
    }

    /** The server's onChannelMessage up to dispatch: a known ID gets its stream, an unknown one a
        stream of its own if its first frame is headers and there is room, and otherwise none. */
    method StreamForRequest(id: nat, isHeaders: bool) returns (stream: Option<Stream>)
      requires Valid()
      modifies this`streams, this`made
      ensures Valid()
      ensures id in old(streams) ==> stream == Some(old(streams)[id]) && streams == old(streams)
      ensures id !in old(streams) && (|old(streams)| == MaxStreamCount || !isHeaders) ==>
                stream == None && streams == old(streams)
      ensures id !in old(streams) && |old(streams)| < MaxStreamCount && isHeaders ==>
                stream.Some? && stream.value !in old(streams).Values && streams == old(streams)[id := stream.value]
    {
      if id in streams {
        return Some(streams[id]);
      }
      if |streams| == MaxStreamCount {
        return None;
      }
      if !isHeaders {
        return None;
      }
      stream := Some(made);
      streams := streams[id := made];
      made := made + 1;
    }

    /** The client's newStream. */
    method NewStream(id: nat) returns (stream: Option<Stream>)
      requires Valid()
      modifies this`streams, this`made
      ensures Valid()
      ensures id in old(streams) ==> stream == Some(old(streams)[id]) && streams == old(streams)
      ensures id !in old(streams) && |old(streams)| == MaxStreamCount ==> stream == None && streams == old(streams)
      ensures id !in old(streams) && |old(streams)| < MaxStreamCount ==>
                stream.Some? && stream.value !in old(streams).Values && streams == old(streams)[id := stream.value]
    {
      if id !in streams {
        if |streams| == MaxStreamCount {
          return None;
        }
        streams := streams[id := made];
        made := made + 1;
      }
      return Some(streams[id]);
    }

    /** nextStreamID, an atomic add on 64 bits: an ID is one never returned before if and only if this
        is one of the first 2^64 calls, and before the wrap-around it is the number of the call. */
    method NextStreamID() returns (id: nat)
      requires Valid()
      modifies this`streamIDCounter, this`calls, this`issued
      ensures Valid() && calls == old(calls) + 1 && issued == old(issued) + {id}
      ensures id !in old(issued) <==> calls <= Uint64
      ensures calls < Uint64 ==> id == calls
    {
      streamIDCounter := (streamIDCounter + 1) % Uint64;
      calls := calls + 1;
      id := streamIDCounter;
      issued := issued + {id};
    }

    /** The client's newClientStream up to its headers: always a stream of its own while there is room,
        for the first 2^64 streams; and every frame of a write fits the data channel, for the first
        2^35 - 1. */
    method NewClientStream() returns (id: nat, stream: Option<Stream>)
      requires Valid() && Own()
      modifies this
      ensures Valid() && Own() && calls == old(calls) + 1
      ensures calls <= Uint64 ==>
                if |old(streams)| == MaxStreamCount then stream == None && streams == old(streams)
                else
                  && id !in old(streams) && stream.Some? && stream.value !in old(streams).Values
                  && streams == old(streams)[id := stream.value]
      ensures calls < Fits ==> RequestsFit(id)
    {
      id := NextStreamID();
      stream := NewStream(id);
      if calls < Fits {
        FramesFitIffSmallId(id);
      }
    }

    method RemoveStreamByID(id: nat)
      requires Valid()
      modifies this`streams
      ensures Valid() && streams == old(streams) - {id}
    {
      var kept := streams - {id};
      assert kept.Keys == streams.Keys - {id};
      assert |kept.Keys| <= |streams.Keys|;
      streams := kept;
    }
  }
}
