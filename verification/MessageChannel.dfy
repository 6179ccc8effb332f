/**
 * The guarded message channel of a stream. One dispatch thread reassembles messages and sends
 * them on a channel of capacity one; resets, Close, write errors and the dispatch thread itself
 * close that channel. Sending on it or closing it after it is closed would panic.
 *
 * The steps are the individual operations of the code: lock, flag test, wait-group add, send,
 * compare-and-swap, wait, close, cancel, onDone. The mutex is not a variable of its own: it is
 * held by whoever is between its lock and its unlock.
 */
module MessageChannel {
  import opened Wrappers
  import Packets

  type Msg = Packets.Bytes
  type Tid = nat

  datatype Who = Dispatch | Thread(t: Tid)

  // How a closer holds the mutex: not at all, with RLock, with Lock.
  datatype Hold = Free | Shared | Exclusive

  // closeWithError from start to end; closeRecv alone is its middle part.
  datatype Stage = Enter | CasClosed | CasRecv | WaitSenders | CloseCh | Cancel | OnDone | Leave

  datatype Closer = Closer(stage: Stage, hold: Hold, recvOnly: bool)

  // The dispatch thread: idle, on its way to send a message, or closing.
  datatype Pc =
    | Idle
    | WantLock(m: Msg) | Locked(m: Msg) | Checked(m: Msg) | Added(m: Msg) | Sending(m: Msg)
    | Sent
    | Closing(c: Closer)

  // `chClosed` and `doneCalls` count, `senders` is the wait group; the owners are history: who
  // won each compare-and-swap and has not finished what it entitles to.
  datatype Flags = Flags(
    recvClosed: bool, closed: bool, senders: nat, chClosed: nat, doneCalls: nat, ctxDone: bool,
    recvOwner: Option<Who>, doneOwner: Option<Who>)

  // `reassembled`: messages handed to the channel's guard. `queued`: those sent on the channel, and
  // `queuedLive` while the context was live; `received`: those taken from it. `sentOnClosed`: the panic to
  // rule out.
  datatype Traffic = Traffic(reassembled: seq<Msg>, queuedLive: seq<Msg>, queued: seq<Msg>, buffer: seq<Msg>,
    received: seq<Msg>, sentOnClosed: bool)

  datatype State = State(flags: Flags, pc: Pc, closers: map<Tid, Closer>, traffic: Traffic)

  datatype Step =
    | Deliver(m: Msg)
    | Lock | Check | Add | Unlock | Send | Drop | DoneSending
    | DispatchCloses(hold: Hold, recvOnly: bool) | DispatchStep
    | Spawn(t: Tid, hold: Hold, recvOnly: bool) | ThreadStep(t: Tid)
    | CancelContext
    | RecvMsg

  // ----- The mutex -----

  function CloserHolds(c: Closer): Hold {
    if c.stage == Enter then Free else c.hold
  }

  function DispatchHolds(pc: Pc): Hold {
    match pc
    case Locked(_) => Exclusive
    case Checked(_) => Exclusive
    case Added(_) => Exclusive
    case Closing(c) => CloserHolds(c)
    case _ => Free
  }

  predicate CanLock(s: State, hold: Hold) {
    match hold
    case Free => true
    case Shared =>
      && DispatchHolds(s.pc) != Exclusive
      && forall t | t in s.closers :: CloserHolds(s.closers[t]) != Exclusive
    case Exclusive => DispatchHolds(s.pc) == Free && forall t | t in s.closers :: CloserHolds(s.closers[t]) == Free
  }

  // ----- Closing -----

  function DoClose(f: Flags, who: Who, c: Closer): (r: (Flags, Closer)) {
    match c.stage
    case Enter => (f, c.(stage := if c.recvOnly then CasRecv else CasClosed))
    case CasClosed =>
      if f.closed then (f, c.(stage := Leave))
      else (f.(closed := true, doneOwner := Some(who)), c.(stage := CasRecv))
    case CasRecv =>
      if f.recvClosed then (f, c.(stage := if c.recvOnly then Leave else Cancel))
      else (f.(recvClosed := true, recvOwner := Some(who)), c.(stage := WaitSenders))
    case WaitSenders => (f, c.(stage := CloseCh))
    case CloseCh =>
      (f.(chClosed := f.chClosed + 1, recvOwner := None), c.(stage := if c.recvOnly then Leave else Cancel))
    case Cancel => (f.(ctxDone := true), c.(stage := OnDone))
    case OnDone => (f.(doneCalls := f.doneCalls + 1, doneOwner := None), c.(stage := Leave))
    case Leave => (f, c)
  }

  predicate CanStep(s: State, c: Closer) {
    && (c.stage == Enter ==> CanLock(s, c.hold))
    && (c.stage == WaitSenders ==> s.flags.senders == 0)
  }

  // ----- Steps -----

  predicate Enabled(s: State, step: Step) {
    match step
    case Deliver(_) => s.pc == Idle
    case Lock => s.pc.WantLock? && CanLock(s, Exclusive)
    case Check => s.pc.Locked?
    case Add => s.pc.Checked?
    case Unlock => s.pc.Added?
    case Send => s.pc.Sending? && (|s.traffic.buffer| < 1 || s.flags.chClosed > 0)
    case Drop => s.pc.Sending? && s.flags.ctxDone
    case DoneSending => s.pc.Sent? && s.flags.senders > 0
    // on the dispatch thread: a protocol error closes without the mutex; trailers, and the end of
    // the requests, with it
    case DispatchCloses(hold, _) => s.pc == Idle && hold != Shared
    case DispatchStep => s.pc.Closing? && CanStep(s, s.pc.c)
    // on any other thread: with Lock, or inside writeMessage with RLock
    case Spawn(t, hold, _) => t !in s.closers && hold != Free
    case ThreadStep(t) => t in s.closers && CanStep(s, s.closers[t])
    case CancelContext => true
    case RecvMsg => |s.traffic.buffer| > 0
  }

  function DoSend(s: State): State
    requires s.pc.Sending?
  {
    s.(pc := Sent,
       traffic := s.traffic.(buffer := s.traffic.buffer + [s.pc.m], queued := s.traffic.queued + [s.pc.m],
                             queuedLive := s.traffic.queuedLive + (if s.flags.ctxDone then [] else [s.pc.m]),
                             sentOnClosed := s.traffic.sentOnClosed || s.flags.chClosed > 0))
  }

  function Do(s: State, step: Step): State
    requires Enabled(s, step)
  {
    match step
    case Deliver(m) => s.(pc := WantLock(m), traffic := s.traffic.(reassembled := s.traffic.reassembled + [m]))
    case Lock => s.(pc := Locked(s.pc.m))
    case Check => s.(pc := if s.flags.recvClosed then Idle else Checked(s.pc.m))
    case Add => s.(pc := Added(s.pc.m), flags := s.flags.(senders := s.flags.senders + 1))
    case Unlock => s.(pc := Sending(s.pc.m))
    case Send => DoSend(s)
    case Drop => s.(pc := Sent)
    case DoneSending => s.(pc := Idle, flags := s.flags.(senders := s.flags.senders - 1))
    case DispatchCloses(hold, recvOnly) => s.(pc := Closing(Closer(Enter, hold, recvOnly)))
    case DispatchStep =>
      var (f, c) := DoClose(s.flags, Dispatch, s.pc.c);
      s.(flags := f, pc := if s.pc.c.stage == Leave then Idle else Closing(c))
    case Spawn(t, hold, recvOnly) => s.(closers := s.closers[t := Closer(Enter, hold, recvOnly)])
    case ThreadStep(t) =>
      var (f, c) := DoClose(s.flags, Thread(t), s.closers[t]);
      s.(flags := f, closers := if s.closers[t].stage == Leave then s.closers - {t} else s.closers[t := c])
    case CancelContext => s.(flags := s.flags.(ctxDone := true))
    case RecvMsg =>
      s.(traffic := s.traffic.(buffer := s.traffic.buffer[1..], received := s.traffic.received + [s.traffic.buffer[0]]))
  }

  const Start := State(Flags(false, false, 0, 0, 0, false, None, None), Idle, map[], Traffic([], [], [], [], [], false))

  ghost predicate Runs(s: State, steps: seq<Step>, s': State)
    decreases |steps|
  {
    if steps == [] then s == s'
    else Enabled(s, steps[0]) && Runs(Do(s, steps[0]), steps[1..], s')
  }

  // ----- The invariant -----

  // A closer is in the part a won compare-and-swap entitles to exactly when it won it.
  ghost predicate CloserOk(f: Flags, who: Who, c: Closer) {
    && (c.stage in {WaitSenders, CloseCh} <==> f.recvOwner == Some(who))
    && (!c.recvOnly && c.stage in {CasRecv, WaitSenders, CloseCh, Cancel, OnDone} <==> f.doneOwner == Some(who))
    && (c.recvOnly ==> c.stage in {Enter, CasRecv, WaitSenders, CloseCh, Leave})
    && (c.stage == CloseCh ==> f.senders == 0)
  }

  ghost predicate FlagsOk(f: Flags) {
    && f.chClosed == (if f.recvClosed && f.recvOwner == None then 1 else 0)
    && (f.recvOwner.Some? ==> f.recvClosed)
    && f.doneCalls == (if f.closed && f.doneOwner == None then 1 else 0)
    && (f.doneOwner.Some? ==> f.closed)
  }

  // The mutex excludes: with a writer there is nobody else.
  ghost predicate MutexOk(s: State) {
    && (DispatchHolds(s.pc) == Exclusive ==> forall t :: t in s.closers ==> CloserHolds(s.closers[t]) == Free)
    && (DispatchHolds(s.pc) != Free ==> forall t :: t in s.closers ==> CloserHolds(s.closers[t]) != Exclusive)
    && (forall t, t' :: t in s.closers && t' in s.closers && t != t' && CloserHolds(s.closers[t]) == Exclusive ==>
         CloserHolds(s.closers[t']) == Free)
    && (forall t :: t in s.closers ==> s.closers[t].hold != Free)
  }

  ghost predicate OwnersOk(s: State) {
    && (forall t :: t in s.closers ==> CloserOk(s.flags, Thread(t), s.closers[t]))
    && (s.pc.Closing? ==> CloserOk(s.flags, Dispatch, s.pc.c))
    && (!s.pc.Closing? ==> s.flags.recvOwner != Some(Dispatch) && s.flags.doneOwner != Some(Dispatch))
    && (forall t: Tid :: t !in s.closers ==>
         s.flags.recvOwner != Some(Thread(t)) && s.flags.doneOwner != Some(Thread(t)))
  }

  // Past the check the channel cannot be closed: not yet marked, or waiting for this sender.
  ghost predicate SenderOk(f: Flags, pc: Pc) {
    && f.senders == (if pc.Added? || pc.Sending? || pc.Sent? then 1 else 0)
    && (pc.Checked? ==> !f.recvClosed)
    && (pc.Added? || pc.Sending? ==> f.chClosed == 0)
  }

  // While the context is live nothing is lost before the channel is marked closed.
  ghost predicate TrafficOk(f: Flags, pc: Pc, tr: Traffic) {
    && !tr.sentOnClosed
    && tr.queuedLive <= tr.reassembled
    && (!f.ctxDone && (!f.recvClosed || pc.Added? || pc.Sending?) ==>
          var holds := pc.WantLock? || pc.Locked? || pc.Checked? || pc.Added? || pc.Sending?;
          tr.reassembled == tr.queuedLive + (if holds then [pc.m] else []))
  }

  ghost predicate Inv(s: State) {
    FlagsOk(s.flags) && MutexOk(s) && OwnersOk(s) && SenderOk(s.flags, s.pc) && TrafficOk(s.flags, s.pc, s.traffic)
  }

  // One step of a closer keeps the flags consistent, and does not disturb other closers.
  lemma CloseOk(f: Flags, who: Who, c: Closer)
    requires FlagsOk(f) && CloserOk(f, who, c) && (c.stage == WaitSenders ==> f.senders == 0)
    ensures var (f', c') := DoClose(f, who, c);
            && FlagsOk(f') && CloserOk(f', who, c')
            && f'.senders == f.senders && c'.hold == c.hold
            && (f.ctxDone ==> f'.ctxDone) && (f.recvClosed ==> f'.recvClosed)
            && (f'.recvClosed && !f.recvClosed ==> c.stage == CasRecv)
            && (f'.chClosed != f.chClosed ==> c.stage == CloseCh)
            && forall who2, c2 :: who2 != who && CloserOk(f, who2, c2) ==> CloserOk(f', who2, c2)
    ensures forall who2 :: who2 != who ==>
              (DoClose(f, who, c).0.recvOwner == Some(who2) <==> f.recvOwner == Some(who2))
              && (DoClose(f, who, c).0.doneOwner == Some(who2) <==> f.doneOwner == Some(who2))
  {
  }

  lemma ThreadMutex(s: State, t: Tid)
    requires Inv(s) && Enabled(s, ThreadStep(t))
    ensures MutexOk(Do(s, ThreadStep(t)))
  {
  }

  lemma ThreadInv(s: State, t: Tid)
    requires Inv(s) && Enabled(s, ThreadStep(t))
    ensures Inv(Do(s, ThreadStep(t)))
  {
    ThreadMutex(s, t);
    CloseOk(s.flags, Thread(t), s.closers[t]);
    // whoever marks the channel closed holds the mutex, so the dispatch thread is not past its check
    if s.closers[t].stage == CasRecv { assert CloserHolds(s.closers[t]) != Free; }
  }

  lemma DispatchMutex(s: State)
    requires Inv(s) && Enabled(s, DispatchStep)
    ensures MutexOk(Do(s, DispatchStep))
  {
  }

  lemma DispatchInv(s: State)
    requires Inv(s) && Enabled(s, DispatchStep)
    ensures Inv(Do(s, DispatchStep))
  {
    DispatchMutex(s);
    CloseOk(s.flags, Dispatch, s.pc.c);
  }

  lemma StartCloseInv(s: State, step: Step)
    requires Inv(s) && Enabled(s, step) && (step.DispatchCloses? || step.Spawn?)
    ensures Inv(Do(s, step))
  {
  }

  lemma SendInv(s: State, step: Step)
    requires Inv(s) && Enabled(s, step)
    requires step.Deliver? || step.Lock? || step.Check? || step.Add? || step.Unlock? || step.Send? || step.Drop? ||
               step.DoneSending?
    ensures Inv(Do(s, step))
  {
  }

  lemma StepInv(s: State, step: Step)
    requires Inv(s) && Enabled(s, step)
    ensures Inv(Do(s, step))
  {
    match step {
      case ThreadStep(t) => ThreadInv(s, t);
      case DispatchStep => DispatchInv(s);
      case DispatchCloses(_, _) => StartCloseInv(s, step);
      case Spawn(_, _, _) => StartCloseInv(s, step);
      case CancelContext =>
      case RecvMsg =>
      case _ => SendInv(s, step);
    }
  }

  lemma {:induction false} RunInv(s: State, steps: seq<Step>, s': State)
    requires Inv(s) && Runs(s, steps, s')
    ensures Inv(s')
    decreases |steps|
  {
    if steps != [] {
      StepInv(s, steps[0]);
      RunInv(Do(s, steps[0]), steps[1..], s');
    }
  }

  // ----- What is sent is received -----

  ghost predicate BufferOk(tr: Traffic) {
    tr.received + tr.buffer == tr.queued && tr.queuedLive <= tr.queued && |tr.buffer| <= 1
  }

  // As long as the context is live, everything queued was queued live.
  ghost predicate LiveOk(s: State) {
    !s.flags.ctxDone ==> s.traffic.queuedLive == s.traffic.queued
  }

  lemma BufferStep(s: State, step: Step)
    requires Inv(s) && BufferOk(s.traffic) && LiveOk(s) && Enabled(s, step)
    ensures BufferOk(Do(s, step).traffic) && LiveOk(Do(s, step))
  {
    var tr := s.traffic;
    match step {
      case Send => Assoc(tr.received, tr.buffer, [s.pc.m]);
      case RecvMsg =>
        assert tr.buffer == [tr.buffer[0]] + tr.buffer[1..];
        Assoc(tr.received, [tr.buffer[0]], tr.buffer[1..]);
      case _ =>
    }
  }

  // ----- What a close completes -----

  // Past its compare-and-swaps, a closer has marked the channel closed, and past its cancel the context is done.
  ghost predicate LateOk(f: Flags, c: Closer) {
    && (c.stage in {WaitSenders, CloseCh, Cancel, OnDone} ==> f.recvClosed)
    && (c.stage == OnDone ==> f.ctxDone)
  }

  ghost predicate CompleteInv(s: State) {
    && (s.flags.closed && s.flags.doneOwner == None ==> s.flags.recvClosed && s.flags.ctxDone)
    && (s.pc.Closing? ==> LateOk(s.flags, s.pc.c))
    && (forall t :: t in s.closers ==> LateOk(s.flags, s.closers[t]))
  }

  lemma CloseCompletes(f: Flags, who: Who, c: Closer)
    requires CloserOk(f, who, c) && LateOk(f, c)
    requires f.closed && f.doneOwner == None ==> f.recvClosed && f.ctxDone
    ensures var (f', c') := DoClose(f, who, c);
            && LateOk(f', c') && (f'.closed && f'.doneOwner == None ==> f'.recvClosed && f'.ctxDone)
            && (f.recvClosed ==> f'.recvClosed) && (f.ctxDone ==> f'.ctxDone)
  {
  }

  lemma CompleteStep(s: State, step: Step)
    requires Inv(s) && CompleteInv(s) && Enabled(s, step)
    ensures CompleteInv(Do(s, step))
  {
    match step {
      case DispatchStep => CloseCompletes(s.flags, Dispatch, s.pc.c);
      case ThreadStep(t) => CloseCompletes(s.flags, Thread(t), s.closers[t]);
      case _ =>
    }
  }

  ghost predicate FullInv(s: State) {
    Inv(s) && BufferOk(s.traffic) && LiveOk(s) && CompleteInv(s)
  }

  lemma FullStep(s: State, step: Step)
    requires FullInv(s) && Enabled(s, step)
    ensures FullInv(Do(s, step))
  {
    StepInv(s, step);
    BufferStep(s, step);
    CompleteStep(s, step);
  }

  lemma {:induction false} FullRun(s: State, steps: seq<Step>, s': State)
    requires FullInv(s) && Runs(s, steps, s')
    ensures FullInv(s')
    decreases |steps|
  {
    if steps != [] {
      FullStep(s, steps[0]);
      FullRun(Do(s, steps[0]), steps[1..], s');
    }
  }

  // ----- The results -----

  /** Over all interleavings nothing is sent on the closed channel, it is closed at most once, and
      onDone runs at most once. The messages queued while the context is live are a prefix of those
      reassembled, and all of them when the dispatch thread is idle and the channel is not marked closed. What
      is received is what was queued, in order. */
  lemma ChannelIsSafe(steps: seq<Step>, s: State)
    requires Runs(Start, steps, s)
    ensures !s.traffic.sentOnClosed
    ensures s.flags.chClosed <= 1 && s.flags.doneCalls <= 1
    ensures s.traffic.queuedLive <= s.traffic.reassembled
    ensures s.pc == Idle && !s.flags.recvClosed && !s.flags.ctxDone ==> s.traffic.queuedLive == s.traffic.reassembled
    ensures s.traffic.received + s.traffic.buffer == s.traffic.queued && s.traffic.queuedLive <= s.traffic.queued
    ensures !s.flags.ctxDone ==> s.traffic.queuedLive == s.traffic.queued
  {
    FullRun(Start, steps, s);
  }

  lemma NobodyOwns(s: State)
    requires OwnersOk(s) && s.closers == map[] && !s.pc.Closing?
    ensures s.flags.recvOwner == None && s.flags.doneOwner == None
  {
    forall t: Tid
      ensures s.flags.recvOwner != Some(Thread(t)) && s.flags.doneOwner != Some(Thread(t))
    {
      assert t !in s.closers;
    }
    match s.flags.recvOwner {
      case Some(Thread(t)) => assert false;
      case _ =>
    }
    match s.flags.doneOwner {
      case Some(Thread(t)) => assert false;
      case _ =>
    }
  }

  /** When nobody is closing, the stream is closed if and only if onDone has run, and the channel is marked closed
      if and only if it has been closed; a closed stream's channel is closed and its context done. */
  lemma ClosedIsComplete(steps: seq<Step>, s: State)
    requires Runs(Start, steps, s) && s.closers == map[] && !s.pc.Closing?
    ensures s.flags.doneCalls == if s.flags.closed then 1 else 0
    ensures s.flags.chClosed == if s.flags.recvClosed then 1 else 0
    ensures s.flags.closed ==> s.flags.recvClosed && s.flags.ctxDone
  {
    FullRun(Start, steps, s);
    NobodyOwns(s);
  }
}

/**
 * The client stream's dispatch of response frames on top of the guarded channel.
 */
module ClientStream {
  import opened Wrappers
  import opened Packets
  import MC = MessageChannel

  datatype Frame = Headers | Message(packet: Packet) | Trailers | Unknown

  // `frames`, history: all frames dispatched to the stream.
  datatype State = State(core: MC.State, headersReceived: bool, trailersReceived: bool, buf: Bytes, frames: seq<Frame>)

  datatype Step = OnResponse(f: Frame) | Other(step: MC.Step)

  predicate Enabled(s: State, step: Step) {
    match step
    case OnResponse(f) => s.core.pc == MC.Idle
    case Other(step) => !step.Deliver? && !step.DispatchCloses? && MC.Enabled(s.core, step)
  }

  // closeWithError without the mutex, for a protocol error.
  function Fail(s: State): State
    requires s.core.pc == MC.Idle
  {
    s.(core := MC.Do(s.core, MC.DispatchCloses(MC.Free, false)))
  }

  function Dispatch(s: State, f: Frame): State
    requires s.core.pc == MC.Idle
  {
    match f
    case Headers =>
      if s.headersReceived || s.trailersReceived then Fail(s) else s.(headersReceived := true)
    case Message(p) =>
      if !s.headersReceived || s.trailersReceived then Fail(s)
      else
        var (buf, message) := GoStep(s.buf, p);
        if message.None? then s.(buf := buf) else s.(buf := buf, core := MC.Do(s.core, MC.Deliver(message.value)))
    case Trailers => s.(trailersReceived := true, core := MC.Do(s.core, MC.DispatchCloses(MC.Exclusive, false)))
    case Unknown => s
  }

  function Do(s: State, step: Step): State
    requires Enabled(s, step)
  {
    match step
    case OnResponse(f) => Dispatch(s, f).(frames := s.frames + [f])
    case Other(step) => s.(core := MC.Do(s.core, step))
  }

  const Start := State(MC.Start, false, false, [], [])

  ghost predicate Runs(s: State, steps: seq<Step>, s': State)
    decreases |steps|
  {
    if steps == [] then s == s'
    else Enabled(s, steps[0]) && Runs(Do(s, steps[0]), steps[1..], s')
  }

  // ----- Reference: the frames that may carry messages -----

  // The position of the first frame of a kind.
  function First(frames: seq<Frame>, kind: Frame): nat {
    if frames == [] || frames[0] == kind then 0 else 1 + First(frames[1..], kind)
  }

  // The frames after the headers and before the trailers.
  function Inside(frames: seq<Frame>): seq<Frame> {
    Slice(frames, First(frames, Headers), First(frames, Trailers))
  }

  function Slice(frames: seq<Frame>, h: nat, t: nat): seq<Frame> {
    if h < t <= |frames| then frames[h + 1..t] else []
  }

  function PacketsOf(frames: seq<Frame>): seq<Packet> {
    if frames == [] then []
    else (if frames[0].Message? then [frames[0].packet] else []) + PacketsOf(frames[1..])
  }

  lemma {:induction false} FirstSnoc(frames: seq<Frame>, f: Frame, kind: Frame)
    ensures First(frames, kind) <= |frames|
    ensures First(frames + [f], kind) ==
            if First(frames, kind) < |frames| || f == kind then First(frames, kind) else |frames| + 1
    decreases |frames|
  {
    if frames == [] {
      assert frames + [f] == [f];
    } else {
      assert (frames + [f])[1..] == frames[1..] + [f];
      FirstSnoc(frames[1..], f, kind);
    }
  }

  lemma {:induction false} PacketsOfSnoc(frames: seq<Frame>, f: Frame)
    ensures PacketsOf(frames + [f]) == PacketsOf(frames) + (if f.Message? then [f.packet] else [])
    decreases |frames|
  {
    if frames == [] {
      assert frames + [f] == [f];
    } else {
      var head, last := if frames[0].Message? then [frames[0].packet] else [], if f.Message? then [f.packet] else [];
      PacketsOfSnoc(frames[1..], f);
      calc {
        PacketsOf(frames + [f]);
        { assert (frames + [f])[1..] == frames[1..] + [f]; }
        head + (PacketsOf(frames[1..]) + last);
        (head + PacketsOf(frames[1..])) + last;
      }
    }
  }

  lemma SliceSnoc(frames: seq<Frame>, f: Frame, h: nat, t: nat, h': nat, t': nat)
    requires h <= |frames| && t <= |frames|
    requires h' == h || (h == |frames| && h' == |frames| + 1)
    requires t' == if t < |frames| || f == Trailers then t else |frames| + 1
    ensures Slice(frames + [f], h', t') ==
            if h < |frames| && t == |frames| && f != Trailers then Slice(frames, h, t) + [f] else Slice(frames, h, t)
  {
    if h < t && t' == t {
      assert (frames + [f])[h + 1..t] == frames[h + 1..t];
    } else if h < |frames| && t == |frames| {
      assert (frames + [f])[h + 1..t + 1] == frames[h + 1..t] + [f];
    }
  }

  lemma InsideSnoc(frames: seq<Frame>, f: Frame)
    ensures var open := First(frames, Headers) < |frames| && First(frames, Trailers) == |frames|;
            Inside(frames + [f]) == if open && f != Trailers then Inside(frames) + [f] else Inside(frames)
  {
    FirstSnoc(frames, f, Headers);
    FirstSnoc(frames, f, Trailers);
    SliceSnoc(frames, f, First(frames, Headers), First(frames, Trailers), First(frames + [f], Headers),
        First(frames + [f], Trailers));
  }

  // The stream's own state against the reference.
  ghost predicate BooksOk(headersReceived: bool, trailersReceived: bool, buf: Bytes, reassembled: seq<Bytes>,
    frames: seq<Frame>) {
    && (trailersReceived <==> First(frames, Trailers) < |frames|)
    && (headersReceived <==> First(frames, Headers) < First(frames, Trailers))
    && buf == BufferAfter(false, [], PacketsOf(Inside(frames)))
    && reassembled == Received(false, [], PacketsOf(Inside(frames)))
  }

  // A message frame inside feeds the receiver; no other frame does.
  lemma BooksFeed(headersReceived: bool, trailersReceived: bool, buf: Bytes, reassembled: seq<Bytes>,
    frames: seq<Frame>, f: Frame)
    requires BooksOk(headersReceived, trailersReceived, buf, reassembled, frames)
    ensures var feeds := f.Message? && headersReceived && !trailersReceived;
            var (buf', message) := if feeds then GoStep(buf, f.packet) else (buf, None);
            BooksOk(headersReceived || (f == Headers && !trailersReceived), trailersReceived || f == Trailers, buf',
                    reassembled + (if message.Some? then [message.value] else []), frames + [f])
  {
    FirstSnoc(frames, f, Headers);
    FirstSnoc(frames, f, Trailers);
    InsideSnoc(frames, f);
    PacketsOfSnoc(Inside(frames), f);
    if f.Message? && headersReceived && !trailersReceived {
      ReceiveConcat(false, [], PacketsOf(Inside(frames)), [f.packet]);
      assert [f.packet][1..] == [];
    } else {
      assert PacketsOf(Inside(frames + [f])) == PacketsOf(Inside(frames));
      assert reassembled + [] == reassembled;
    }
  }

  ghost predicate Inv(s: State) {
    MC.FullInv(s.core) && BooksOk(s.headersReceived, s.trailersReceived, s.buf, s.core.traffic.reassembled, s.frames)
  }

  lemma OnResponseInv(s: State, f: Frame)
    requires Inv(s) && Enabled(s, OnResponse(f))
    ensures Inv(Do(s, OnResponse(f)))
  {
    BooksFeed(s.headersReceived, s.trailersReceived, s.buf, s.core.traffic.reassembled, s.frames, f);
    MC.FullStep(s.core, MC.DispatchCloses(MC.Free, false));
    MC.FullStep(s.core, MC.DispatchCloses(MC.Exclusive, false));
    if f.Message? && GoStep(s.buf, f.packet).1.Some? {
      MC.FullStep(s.core, MC.Deliver(GoStep(s.buf, f.packet).1.value));
    }
  }

  lemma StepInv(s: State, step: Step)
    requires Inv(s) && Enabled(s, step)
    ensures Inv(Do(s, step))
  {
    match step {
      case OnResponse(f) => OnResponseInv(s, f);
      case Other(step) => MC.FullStep(s.core, step);
    }
  }

  lemma {:induction false} RunInv(s: State, steps: seq<Step>, s': State)
    requires Inv(s) && Runs(s, steps, s')
    ensures Inv(s')
    decreases |steps|
  {
    if steps != [] {
      StepInv(s, steps[0]);
      RunInv(Do(s, steps[0]), steps[1..], s');
    }
  }

  /** A client's messages come only from frames after the headers and before the trailers: what is
      queued while the context is live is a prefix of what those frames reassemble to, and all of it when the
      dispatch thread is idle and the channel open. The channel stays safe under every such dispatch. */
  lemma MessagesBetweenHeadersAndTrailers(steps: seq<Step>, s: State)
    requires Runs(Start, steps, s)
    ensures s.core.traffic.queuedLive <= Received(false, [], PacketsOf(Inside(s.frames)))
    ensures s.core.pc == MC.Idle && !s.core.flags.recvClosed && !s.core.flags.ctxDone ==>
              s.core.traffic.queuedLive == Received(false, [], PacketsOf(Inside(s.frames)))
    ensures !s.core.traffic.sentOnClosed && s.core.flags.chClosed <= 1 && s.core.flags.doneCalls <= 1
  {
    RunInv(Start, steps, s);
  }

  // ----- Which frames close the stream -----

  // A frame that ends the stream after the frames before it: the trailers, or one that is out of place.
  predicate Ends(before: seq<Frame>, f: Frame) {
    match f
    case Trailers => true
    case Headers => Headers in before || Trailers in before
    case Message(_) => Headers !in before || Trailers in before
    case Unknown => false
  }

  predicate Ended(frames: seq<Frame>) {
    exists i :: 0 <= i < |frames| && Ends(frames[..i], frames[i])
  }

  lemma EndedSnoc(frames: seq<Frame>, f: Frame)
    ensures Ended(frames + [f]) <==> Ended(frames) || Ends(frames, f)
  {
    var all := frames + [f];
    assert all[..|frames|] == frames && all[|frames|] == f;
    assert forall i :: 0 <= i < |frames| ==> all[..i] == frames[..i] && all[i] == frames[i];
  }

  lemma {:induction false} FirstMeans(frames: seq<Frame>, kind: Frame)
    ensures First(frames, kind) <= |frames| && (First(frames, kind) < |frames| <==> kind in frames)
    decreases |frames|
  {
    if frames != [] {
      FirstMeans(frames[1..], kind);
      assert frames == [frames[0]] + frames[1..];
    }
  }

  // How far the dispatch thread is with a close: before its first compare-and-swap, or before the second.
  predicate ToClose(pc: MC.Pc, second: bool) {
    && pc.Closing? && !pc.c.recvOnly
    && (pc.c.stage in {MC.Enter, MC.CasClosed} || (second && pc.c.stage == MC.CasRecv))
  }

  // After such a frame the stream is closed, or the dispatch thread is about to; after the trailers, which are
  // dispatched with the mutex, the channel is marked closed as well. It closes for no other reason.
  ghost predicate EndOk(core: MC.State, ended: bool, trailers: bool) {
    && (ended ==> core.flags.closed || ToClose(core.pc, false))
    && (trailers ==>
         || (core.flags.closed && core.flags.recvClosed)
         || (ToClose(core.pc, true) && core.pc.c.hold == MC.Exclusive))
    && (core.pc.Closing? ==> ended)
  }

  // Under the mutex a stream found closed is one whose channel is marked closed.
  lemma FoundClosed(core: MC.State)
    requires MC.FullInv(core) && ToClose(core.pc, false) && core.pc.c.stage == MC.CasClosed
    requires core.pc.c.hold == MC.Exclusive && core.flags.closed
    ensures core.flags.recvClosed
  {
    match core.flags.doneOwner {
      case Some(Thread(t)) => assert core.flags.recvClosed || MC.CloserHolds(core.closers[t]) != MC.Free;
      case _ =>
    }
  }

  lemma ClosingEnds(core: MC.State, ended: bool, trailers: bool)
    requires MC.FullInv(core) && EndOk(core, ended, trailers) && MC.Enabled(core, MC.DispatchStep)
    ensures EndOk(MC.Do(core, MC.DispatchStep), ended, trailers)
  {
    var c := core.pc.c;
    if ToClose(core.pc, false) && c.stage == MC.CasClosed && c.hold == MC.Exclusive && core.flags.closed {
      FoundClosed(core);
    }
  }

  lemma ThreadEnds(core: MC.State, step: MC.Step, ended: bool, trailers: bool)
    requires EndOk(core, ended, trailers) && MC.Enabled(core, step)
    requires !step.DispatchStep? && !step.Deliver? && !step.DispatchCloses?
    ensures EndOk(MC.Do(core, step), ended, trailers)
  {
  }

  lemma DispatchEnds(s: State, f: Frame)
    requires Inv(s) && EndOk(s.core, Ended(s.frames), Trailers in s.frames) && Enabled(s, OnResponse(f))
    ensures EndOk(Do(s, OnResponse(f)).core, Ended(s.frames) || Ends(s.frames, f),
                  Trailers in s.frames || f == Trailers)
  {
    FirstMeans(s.frames, Headers);
    FirstMeans(s.frames, Trailers);
  }

  lemma {:induction false} EndRun(s: State, steps: seq<Step>, s': State)
    requires Inv(s) && EndOk(s.core, Ended(s.frames), Trailers in s.frames) && Runs(s, steps, s')
    ensures EndOk(s'.core, Ended(s'.frames), Trailers in s'.frames)
    decreases |steps|
  {
    if steps != [] {
      StepInv(s, steps[0]);
      match steps[0] {
        case OnResponse(f) =>
          DispatchEnds(s, f);
          EndedSnoc(s.frames, f);
        case Other(step) =>
          if step.DispatchStep? {
            ClosingEnds(s.core, Ended(s.frames), Trailers in s.frames);
          } else {
            ThreadEnds(s.core, step, Ended(s.frames), Trailers in s.frames);
          }
      }
      EndRun(Do(s, steps[0]), steps[1..], s');
    }
  }

  // Another thread has marked the stream closed and is about to mark its channel.
  ghost predicate OtherAtWork(core: MC.State) {
    exists t :: t in core.closers && !core.closers[t].recvOnly && core.closers[t].stage == MC.CasRecv
  }

  lemma LagsBehindOther(core: MC.State)
    requires MC.FullInv(core) && !core.pc.Closing? && core.flags.closed && !core.flags.recvClosed
    ensures OtherAtWork(core)
  {
    var who := core.flags.doneOwner.value;
    assert who.Thread? && who.t in core.closers;
    assert MC.CloserOk(core.flags, who, core.closers[who.t]) && MC.LateOk(core.flags, core.closers[who.t]);
  }

  /**
   * In every run, when the dispatch thread is idle: after the trailers the stream is closed and its channel
   * marked closed; after a frame that is out of place the stream is closed, and its channel marked closed unless
   * another thread is about to. When nobody else is closing, the channel is closed and onDone has run. The
   * dispatch thread closes the stream after no other frame.
   */
  lemma EndingFramesClose(steps: seq<Step>, s: State)
    requires Runs(Start, steps, s)
    ensures s.core.pc == MC.Idle && Trailers in s.frames ==> s.core.flags.closed && s.core.flags.recvClosed
    ensures s.core.pc == MC.Idle && Ended(s.frames) ==>
              s.core.flags.closed && (s.core.flags.recvClosed || OtherAtWork(s.core))
    ensures s.core.pc.Closing? ==> Ended(s.frames)
    ensures s.core.pc == MC.Idle && s.core.closers == map[] && Ended(s.frames) ==>
              s.core.flags.recvClosed && s.core.flags.chClosed == 1 && s.core.flags.doneCalls == 1
  {
    assert !Ended(Start.frames);
    RunInv(Start, steps, s);
    EndRun(Start, steps, s);
    if s.core.pc == MC.Idle && s.core.closers == map[] {
      MC.NobodyOwns(s.core);
    }
    if s.core.pc == MC.Idle && Ended(s.frames) && !s.core.flags.recvClosed {
      LagsBehindOther(s.core);
    }
  }

  lemma Prepend(s: State, step: Step, rest: seq<Step>, s': State) returns (steps: seq<Step>)
    requires Enabled(s, step) && Runs(Do(s, step), rest, s')
    ensures steps == [step] + rest && Runs(s, steps, s')
  {
    steps := [step] + rest;
    assert steps[1..] == rest;
  }

  /** A protocol error is handled without the mutex, so it can find the stream closed by another thread that has
      not marked the channel yet: the dispatch thread is then idle again before the channel is marked closed. */
  lemma ProtocolErrorRunsAhead() returns (steps: seq<Step>, s: State)
    ensures Runs(Start, steps, s) && s.core.pc == MC.Idle && Ended(s.frames) && !s.core.flags.recvClosed
  {
    var f, go, closing := OnResponse(Message(Packet([], true))), Other(MC.DispatchStep), Other(MC.ThreadStep(0));
    var s1 := Do(Start, Other(MC.Spawn(0, MC.Exclusive, false)));
    var s2 := Do(s1, closing);
    var s3 := Do(s2, closing);
    var s4 := Do(s3, f);
    var s5 := Do(s4, go);
    var s6 := Do(s5, go);
    s := Do(s6, go);
    steps := Prepend(s6, go, [], s);
    steps := Prepend(s5, go, steps, s);
    steps := Prepend(s4, go, steps, s);
    steps := Prepend(s3, f, steps, s);
    steps := Prepend(s2, closing, steps, s);
    steps := Prepend(s1, closing, steps, s);
    steps := Prepend(Start, Other(MC.Spawn(0, MC.Exclusive, false)), steps, s);
    assert Ends(s.frames[..0], s.frames[0]);
  }
}
