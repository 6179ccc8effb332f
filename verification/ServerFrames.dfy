/**
 * The frames a server stream writes. SendHeader, SendMsg and closeWithSendError may run on the
 * handler's thread and on the dispatch thread (a reset or protocol error) at the same time; two
 * atomic flags decide who writes the headers and who the trailers.
 */
module ServerFrames {
  import opened Wrappers

  type Tid = nat

  datatype Frame = Headers | Message | Trailers

  // What a task does once the headers are dealt with.
  datatype After = ThenEnd | ThenBody(packets: nat) | ThenTrailers

  // Where a task is. `pipe`: the error is io.ErrClosedPipe, after which nothing is written.
  datatype Task =
    | CheckHeader                      // SendHeader: SetHeader fails once the headers are written
    | CheckSend(packets: nat)          // SendMsg: the test of sendClosed
    | HeadersCas(after: After)
    | HeadersWrite(after: After)
    | Body(packets: nat)
    | CloseCas(pipe: bool)             // closeWithSendError
    | CheckClosed(pipe: bool)
    | TrailersWrite
    | CloseStream

  // `headersFailed`: the write of the headers failed. `hOwner`, `tOwner` and `sendFailed` are history: who
  // won the headers, and who won the trailers, and has not written them yet; whether a write of SendMsg failed.
  datatype Shared = Shared(
    headersWritten: bool, sendClosed: bool, closed: bool, headersFailed: bool,
    wire: seq<Frame>, hOwner: Option<Tid>, tOwner: Option<Tid>, sendFailed: bool)

  datatype State = State(sh: Shared, tasks: map<Tid, Task>)

  // How a write ends. Each may fail on its own: its frame may not encode, or the channel may be gone.
  datatype Outcome = Written | Refused(pipe: bool)

  datatype Step =
    | Begin(t: Tid, task: Task)
    | Advance(t: Tid, outcome: Outcome)   // the outcome matters only to a task that writes
    | CloseElsewhere                      // the stream or its channel is closed by another path

  predicate Enabled(s: State, step: Step) {
    match step
    case Begin(t, task) => t !in s.tasks && (task.CheckHeader? || task.CheckSend? || task.CloseCas?)
    case Advance(t, _) => t in s.tasks
    case CloseElsewhere => true
  }

  function Next(after: After): Option<Task> {
    match after
    case ThenEnd => None
    case ThenBody(n) => Some(Body(n))
    case ThenTrailers => Some(TrailersWrite)
  }

  // What a failing write of the headers leads to: SendMsg closes with the error, closing goes on
  // to close the stream, SendHeader returns the error.
  function OnHeadersError(after: After, pipe: bool): Option<Task> {
    match after
    case ThenEnd => None
    case ThenBody(_) => Some(CloseCas(pipe))
    case ThenTrailers => Some(CloseStream)
  }

  function Write(sh: Shared, f: Frame): Shared {
    sh.(wire := sh.wire + [f])
  }

  // One step of a task: what it does to the stream, and where it goes, if anywhere.
  function StepTask(sh: Shared, t: Tid, task: Task, outcome: Outcome): (r: (Shared, Option<Task>)) {
    match task
    case CheckHeader => (sh, if sh.headersWritten then None else Some(HeadersCas(ThenEnd)))
    case CheckSend(n) => (sh, if sh.sendClosed then None else Some(HeadersCas(ThenBody(n))))
    case HeadersCas(after) =>
      if sh.headersWritten then (sh, Next(after))
      else (sh.(headersWritten := true, hOwner := Some(t)), Some(HeadersWrite(after)))
    case HeadersWrite(after) =>
      if outcome.Written? then (Write(sh.(hOwner := None), Headers), Next(after))
      else
        (sh.(hOwner := None, headersFailed := true, sendFailed := sh.sendFailed || after.ThenBody?),
         OnHeadersError(after, outcome.pipe))
    case Body(n) =>
      if n == 0 then (sh, None)
      else if outcome.Written? then (Write(sh, Message), Some(Body(n - 1)))
      else (sh.(sendFailed := true), Some(CloseCas(outcome.pipe)))
    case CloseCas(pipe) =>
      if sh.sendClosed then (sh, None)
      else (sh.(sendClosed := true, tOwner := Some(t)), Some(CheckClosed(pipe)))
    case CheckClosed(pipe) => (sh, Some(if pipe || sh.closed then CloseStream else HeadersCas(ThenTrailers)))
    case TrailersWrite => (if outcome.Written? then Write(sh.(tOwner := None), Trailers) else sh, Some(CloseStream))
    case CloseStream => (sh.(closed := true), None)
  }

  function Do(s: State, step: Step): State
    requires Enabled(s, step)
  {
    match step
    case Begin(t, task) => s.(tasks := s.tasks[t := task])
    case Advance(t, outcome) =>
      var (sh, task) := StepTask(s.sh, t, s.tasks[t], outcome);
      State(sh, if task.Some? then s.tasks[t := task.value] else s.tasks - {t})
    case CloseElsewhere => s.(sh := s.sh.(closed := true))
  }

  const Start := State(Shared(false, false, false, false, [], None, None, false), map[])

  ghost predicate Runs(s: State, steps: seq<Step>, s': State)
    decreases |steps|
  {
    if steps == [] then s == s'
    else Enabled(s, steps[0]) && Runs(Do(s, steps[0]), steps[1..], s')
  }

  // ----- At most one of each -----

  predicate ClosesTrailers(task: Task) {
    task.CheckClosed? || task.TrailersWrite? || ((task.HeadersCas? || task.HeadersWrite?) && task.after.ThenTrailers?)
  }

  ghost predicate HeadersOnce(sh: Shared) {
    && multiset(sh.wire)[Headers] <= (if sh.headersWritten && sh.hOwner == None then 1 else 0)
    && (sh.hOwner.Some? ==> sh.headersWritten)
  }

  ghost predicate TrailersOnce(sh: Shared) {
    && multiset(sh.wire)[Trailers] <= (if sh.sendClosed && sh.tOwner == None then 1 else 0)
    && (sh.tOwner.Some? ==> sh.sendClosed)
  }

  ghost predicate SharedOnce(sh: Shared) {
    HeadersOnce(sh) && TrailersOnce(sh)
  }

  ghost predicate TaskOnce(sh: Shared, t: Tid, task: Task) {
    && (task.HeadersWrite? ==> sh.hOwner == Some(t))
    && (ClosesTrailers(task) ==> sh.tOwner == Some(t))
  }

  ghost predicate OnceInv(s: State) {
    SharedOnce(s.sh) && forall t :: t in s.tasks ==> TaskOnce(s.sh, t, s.tasks[t])
  }

  lemma CountMore(wire: seq<Frame>, f: Frame, kind: Frame)
    ensures multiset(wire + [f])[kind] == multiset(wire)[kind] + if f == kind then 1 else 0
  {
    assert multiset(wire + [f]) == multiset(wire) + multiset{f};
  }

  // The frame a step writes, if it writes one.
  function Writes(task: Task, outcome: Outcome): Option<Frame> {
    if outcome.Refused? then None
    else
      match task
      case HeadersWrite(_) => Some(Headers)
      case Body(n) => if n == 0 then None else Some(Message)
      case TrailersWrite => Some(Trailers)
      case _ => None
  }

  lemma StepWrites(sh: Shared, t: Tid, task: Task, outcome: Outcome)
    ensures StepTask(sh, t, task, outcome).0.wire ==
            sh.wire + if Writes(task, outcome).Some? then [Writes(task, outcome).value] else []
  {
    assert sh.wire + [] == sh.wire;
  }

  lemma StepCounts(sh: Shared, t: Tid, task: Task, outcome: Outcome, kind: Frame)
    ensures multiset(StepTask(sh, t, task, outcome).0.wire)[kind] ==
            multiset(sh.wire)[kind] + if Writes(task, outcome) == Some(kind) then 1 else 0
  {
    StepWrites(sh, t, task, outcome);
    if Writes(task, outcome).Some? {
      CountMore(sh.wire, Writes(task, outcome).value, kind);
    } else {
      assert sh.wire + [] == sh.wire;
    }
  }

  lemma StepHeadersOnce(sh: Shared, t: Tid, task: Task, outcome: Outcome)
    requires HeadersOnce(sh) && TaskOnce(sh, t, task)
    ensures HeadersOnce(StepTask(sh, t, task, outcome).0)
  {
    StepCounts(sh, t, task, outcome, Headers);
  }

  lemma StepTrailersOnce(sh: Shared, t: Tid, task: Task, outcome: Outcome)
    requires TrailersOnce(sh) && TaskOnce(sh, t, task)
    ensures TrailersOnce(StepTask(sh, t, task, outcome).0)
  {
    StepCounts(sh, t, task, outcome, Trailers);
  }

  lemma StepOnce(sh: Shared, t: Tid, task: Task, outcome: Outcome)
    requires SharedOnce(sh) && TaskOnce(sh, t, task)
    ensures SharedOnce(StepTask(sh, t, task, outcome).0)
  {
    StepHeadersOnce(sh, t, task, outcome);
    StepTrailersOnce(sh, t, task, outcome);
  }

  lemma StepKeepsOwn(sh: Shared, t: Tid, task: Task, outcome: Outcome)
    requires SharedOnce(sh) && TaskOnce(sh, t, task)
    ensures var (sh', task') := StepTask(sh, t, task, outcome); task'.Some? ==> TaskOnce(sh', t, task'.value)
  {
  }

  // A step takes nothing from another task.
  lemma StepKeepsOthers(sh: Shared, t: Tid, task: Task, outcome: Outcome, t2: Tid, task2: Task)
    requires SharedOnce(sh) && TaskOnce(sh, t, task) && TaskOnce(sh, t2, task2) && t2 != t
    ensures TaskOnce(StepTask(sh, t, task, outcome).0, t2, task2)
  {
  }

  lemma {:induction false} OnceRun(s: State, steps: seq<Step>, s': State)
    requires OnceInv(s) && Runs(s, steps, s')
    ensures OnceInv(s')
    decreases |steps|
  {
    if steps != [] {
      if steps[0].Advance? {
        var t, o := steps[0].t, steps[0].outcome;
        StepOnce(s.sh, t, s.tasks[t], o);
        StepKeepsOwn(s.sh, t, s.tasks[t], o);
        forall t2 | t2 in s.tasks && t2 != t
          ensures TaskOnce(StepTask(s.sh, t, s.tasks[t], o).0, t2, s.tasks[t2])
        {
          StepKeepsOthers(s.sh, t, s.tasks[t], o, t2, s.tasks[t2]);
        }
      }
      OnceRun(Do(s, steps[0]), steps[1..], s');
    }
  }

  /** In every run, whatever races: at most one Headers and at most one Trailers frame. */
  lemma OneHeadersOneTrailers(steps: seq<Step>, s: State)
    requires Runs(Start, steps, s)
    ensures multiset(s.sh.wire)[Headers] <= 1 && multiset(s.sh.wire)[Trailers] <= 1
  {
    OnceRun(Start, steps, s);
  }

  // ----- What closes -----

  // A task on its way to close the stream.
  predicate Closes(task: Task) {
    ClosesTrailers(task) || task.CloseStream?
  }

  ghost predicate SomeCloses(s: State) {
    exists t :: t in s.tasks && Closes(s.tasks[t])
  }

  ghost predicate SomeCas(s: State) {
    exists t :: t in s.tasks && s.tasks[t].CloseCas?
  }

  // Whoever wins sendClosed closes the stream, and a failed SendMsg tries to win it.
  ghost predicate CloseInv(s: State) {
    && (s.sh.sendClosed ==> s.sh.closed || SomeCloses(s))
    && (s.sh.sendFailed ==> s.sh.sendClosed || SomeCas(s))
  }

  lemma StepCloses(sh: Shared, t: Tid, task: Task, outcome: Outcome)
    ensures var (sh', task') := StepTask(sh, t, task, outcome);
            && (sh.sendClosed ==> sh'.sendClosed) && (sh.closed ==> sh'.closed)
            && (Closes(task) ==> sh'.closed || (task'.Some? && Closes(task'.value)))
            && (task.CloseCas? ==> sh'.sendClosed)
            && (sh'.sendClosed && !sh.sendClosed ==> task'.Some? && Closes(task'.value))
            && (sh'.sendFailed && !sh.sendFailed ==> task'.Some? && task'.value.CloseCas?)
  {
  }

  lemma CloseStep(s: State, step: Step)
    requires CloseInv(s) && Enabled(s, step)
    ensures CloseInv(Do(s, step))
  {
    var s' := Do(s, step);
    if step.Advance? {
      StepCloses(s.sh, step.t, s.tasks[step.t], step.outcome);
      assert step.t in s'.tasks ==> s'.tasks[step.t] == StepTask(s.sh, step.t, s.tasks[step.t], step.outcome).1.value;
    }
    if t :| t in s.tasks && Closes(s.tasks[t]) {
      assert s'.sh.closed || (t in s'.tasks && Closes(s'.tasks[t]));
    }
    if t :| t in s.tasks && s.tasks[t].CloseCas? {
      assert s'.sh.sendClosed || (t in s'.tasks && s'.tasks[t].CloseCas?);
    }
  }

  lemma {:induction false} CloseRun(s: State, steps: seq<Step>, s': State)
    requires CloseInv(s) && Runs(s, steps, s')
    ensures CloseInv(s')
    decreases |steps|
  {
    if steps != [] {
      CloseStep(s, steps[0]);
      CloseRun(Do(s, steps[0]), steps[1..], s');
    }
  }

  /** In every run, when no operation is under way: a stream whose sending side was closed is closed, and so is one
      on which a write of SendMsg failed. */
  lemma FailedSendCloses(steps: seq<Step>, s: State)
    requires Runs(Start, steps, s) && s.tasks == map[]
    ensures s.sh.sendClosed ==> s.sh.closed
    ensures s.sh.sendFailed ==> s.sh.sendClosed
  {
    CloseRun(Start, steps, s);
  }

  // ----- An operation on its own -----

  // Thread t alone goes on, and every write succeeds, until its operation is over.
  ghost predicate Alone(s: State, t: Tid, s': State, turns: nat)
    decreases turns
  {
    if t !in s.tasks then s == s'
    else turns > 0 && Alone(Do(s, Advance(t, Written)), t, s', turns - 1)
  }

  function Messages(n: nat): seq<Frame> {
    seq(n, i => Message)
  }

  lemma {:induction false} BodyAlone(s: State, t: Tid, n: nat)
    requires t in s.tasks && s.tasks[t] == Body(n)
    ensures Alone(s, t, State(s.sh.(wire := s.sh.wire + Messages(n)), s.tasks - {t}), n + 1)
    decreases n
  {
    var s1 := Do(s, Advance(t, Written));
    if n == 0 {
      assert s.sh.wire + Messages(0) == s.sh.wire;
      assert Alone(s1, t, s1, 0);
    } else {
      BodyAlone(s1, t, n - 1);
      assert [Message] + Messages(n - 1) == Messages(n);
      Assoc(s.sh.wire, [Message], Messages(n - 1));
      assert s1.tasks - {t} == s.tasks - {t};
    }
  }

  function HeadersIfFirst(sh: Shared): seq<Frame> {
    if sh.headersWritten then [] else [Headers]
  }

  /** SendMsg on its own, while the sending side is open: the headers if nobody took them yet, and then a message
      frame for each of its packets. */
  lemma SendMsgAlone(s: State, t: Tid, n: nat)
    requires t !in s.tasks && !s.sh.sendClosed
    ensures exists turns, s' :: Alone(Do(s, Begin(t, CheckSend(n))), t, s', turns)
                               && s'.sh.wire == s.sh.wire + HeadersIfFirst(s.sh) + Messages(n) && s'.tasks == s.tasks
  {
    var s0 := Do(s, Begin(t, CheckSend(n)));
    var s1 := Do(s0, Advance(t, Written));
    var s2 := Do(s1, Advance(t, Written));
    var body := if s.sh.headersWritten then s2 else Do(s2, Advance(t, Written));
    assert body.tasks[t] == Body(n) && body.sh.wire == s.sh.wire + HeadersIfFirst(s.sh);
    BodyAlone(body, t, n);
    var s' := State(body.sh.(wire := body.sh.wire + Messages(n)), body.tasks - {t});
    assert s'.tasks == s.tasks;
    assert Alone(s2, t, s', n + 2) || Alone(s2, t, s', n + 1);
    assert Alone(s0, t, s', n + 4) || Alone(s0, t, s', n + 3);
  }

  /** Closing on its own, with the stream open: the headers if nobody took them yet, then the trailers; after that
      the stream is closed, and so is its sending side. */
  lemma CloseAlone(s: State, t: Tid)
    requires t !in s.tasks && !s.sh.sendClosed && !s.sh.closed
    ensures exists turns, s' :: Alone(Do(s, Begin(t, CloseCas(false))), t, s', turns)
                               && s'.sh.wire == s.sh.wire + HeadersIfFirst(s.sh) + [Trailers] && s'.tasks == s.tasks
                               && s'.sh.closed && s'.sh.sendClosed
  {
    var go := Advance(t, Written);
    var s0 := Do(s, Begin(t, CloseCas(false)));
    var s1 := Do(s0, go);
    var s2 := Do(s1, go);
    var s3 := Do(s2, go);
    var last := if s.sh.headersWritten then s3 else Do(s3, go);
    assert last.tasks[t] == TrailersWrite && last.sh.wire == s.sh.wire + HeadersIfFirst(s.sh);
    var s5 := Do(last, go);
    var s' := Do(s5, go);
    assert s'.tasks == s.tasks;
    assert Alone(s', t, s', 0) && Alone(s5, t, s', 1) && Alone(last, t, s', 2);
    assert Alone(s3, t, s', 3);
    assert Alone(s1, t, s', 5);
    assert Alone(s0, t, s', 6);
  }

  // ----- Without races, in order -----

  // No task starts while another is under way.
  ghost predicate RunsSerially(s: State, steps: seq<Step>, s': State)
    decreases |steps|
  {
    if steps == [] then s == s'
    else
      && Enabled(s, steps[0]) && (steps[0].Begin? ==> s.tasks == map[])
      && RunsSerially(Do(s, steps[0]), steps[1..], s')
  }

  // A prefix of Headers Message* Trailers.
  ghost predicate InOrder(wire: seq<Frame>) {
    && (forall i :: 0 <= i < |wire| ==> (wire[i] == Headers <==> i == 0))
    && (forall i :: 0 <= i < |wire| - 1 ==> wire[i] != Trailers)
  }

  // Nothing can follow a wire that ends with Trailers.
  ghost predicate Open(wire: seq<Frame>) {
    Trailers !in wire
  }

  // What the only task that may write knows, by where it is.
  ghost predicate TaskOk(sh: Shared, task: Task) {
    && (sh.hOwner.Some? <==> task.HeadersWrite?)
    && match task
       case HeadersCas(after) =>
         && (after.ThenBody? ==> Open(sh.wire))
         && (after.ThenTrailers? ==> sh.sendClosed && Open(sh.wire))
       case HeadersWrite(after) => after.ThenTrailers? ==> sh.sendClosed
       case Body(_) => sh.headersWritten && Open(sh.wire)
       case CheckClosed(_) => sh.sendClosed && Open(sh.wire)
       case TrailersWrite => sh.sendClosed && sh.headersWritten && Open(sh.wire)
       case CloseStream => sh.sendClosed
       case _ => true
  }

  // In order, unless the headers failed; then there are none.
  ghost predicate WireOk(sh: Shared) {
    && (!sh.headersWritten ==> sh.wire == [] && !sh.headersFailed)
    && (!sh.sendClosed ==> Open(sh.wire))
    && (sh.hOwner.Some? ==> sh.headersWritten && sh.wire == [] && !sh.headersFailed)
    && (if sh.headersFailed then Headers !in sh.wire
        else InOrder(sh.wire) && (sh.headersWritten && sh.hOwner == None ==> sh.wire != []))
  }

  lemma WriteInOrder(wire: seq<Frame>, f: Frame)
    requires InOrder(wire) && Open(wire) && (f == Headers <==> wire == [])
    ensures InOrder(wire + [f]) && (f != Trailers ==> Open(wire + [f]))
  {
  }

  lemma StepInOrder(sh: Shared, t: Tid, task: Task, outcome: Outcome)
    requires WireOk(sh) && TaskOk(sh, task)
    ensures var (sh', task') := StepTask(sh, t, task, outcome);
            WireOk(sh') && (if task'.Some? then TaskOk(sh', task'.value) else sh'.hOwner == None)
  {
    if outcome.Written? && !sh.headersFailed {
      match task {
        case HeadersWrite(_) => WriteInOrder(sh.wire, Headers);
        case Body(n) => if n > 0 { WriteInOrder(sh.wire, Message); }
        case TrailersWrite => WriteInOrder(sh.wire, Trailers);
        case _ =>
      }
    }
  }

  ghost predicate SerialInv(s: State) {
    && WireOk(s.sh)
    && (s.tasks == map[] ==> s.sh.hOwner == None)
    && (s.tasks != map[] ==> exists t, task :: s.tasks == map[t := task] && TaskOk(s.sh, task))
  }

  lemma {:induction false} SerialRun(s: State, steps: seq<Step>, s': State)
    requires SerialInv(s) && RunsSerially(s, steps, s')
    ensures SerialInv(s')
    decreases |steps|
  {
    if steps != [] {
      var s1 := Do(s, steps[0]);
      match steps[0] {
        case Begin(t, task) => assert s1.tasks == map[t := task] && TaskOk(s1.sh, task);
        case Advance(t, outcome) =>
          StepInOrder(s.sh, t, s.tasks[t], outcome);
          assert s1.tasks == map[] || s1.tasks == map[t := s1.tasks[t]];
        case _ =>
          if s.tasks != map[] {
            var t, task :| s.tasks == map[t := task] && TaskOk(s.sh, task);
            assert s1.tasks == map[t := task] && TaskOk(s1.sh, task);
          }
      }
      SerialRun(s1, steps[1..], s');
    }
  }

  /** As long as no two of these operations overlap, whatever writes fail: the wire is a prefix of
      Headers Message* Trailers if and only if the headers did not fail or nothing was written. */
  lemma SerialFramesInOrder(steps: seq<Step>, s: State)
    requires RunsSerially(Start, steps, s)
    ensures InOrder(s.sh.wire) <==> !s.sh.headersFailed || s.sh.wire == []
  {
    SerialRun(Start, steps, s);
    assert s.sh.wire != [] ==> s.sh.wire[0] in s.sh.wire;
  }

  lemma {:induction false} ExtendSerially(s: State, steps: seq<Step>, mid: State, step: Step)
    returns (more: seq<Step>, next: State)
    requires RunsSerially(s, steps, mid) && Enabled(mid, step) && (step.Begin? ==> mid.tasks == map[])
    ensures next == Do(mid, step) && more == steps + [step] && RunsSerially(s, more, next)
    decreases |steps|
  {
    more, next := steps + [step], Do(mid, step);
    if steps != [] {
      var rest, end := ExtendSerially(Do(s, steps[0]), steps[1..], mid, step);
      assert more[1..] == rest;
    }
  }

  /** Headers that alone fail to be written: SendMsg closes with the error, and the trailers go out
      without them. No race is needed. */
  lemma FailedHeadersLoseOrder()
    ensures exists steps, s :: RunsSerially(Start, steps, s) && s.sh.wire == [Trailers]
  {
    assert RunsSerially(Start, [], Start);
    var r, s := ExtendSerially(Start, [], Start, Begin(0, CheckSend(1)));
    r, s := ExtendSerially(Start, r, s, Advance(0, Written));
    r, s := ExtendSerially(Start, r, s, Advance(0, Written));
    r, s := ExtendSerially(Start, r, s, Advance(0, Refused(false)));
    assert s.tasks == map[0 := CloseCas(false)];
    r, s := ExtendSerially(Start, r, s, Advance(0, Written));
    r, s := ExtendSerially(Start, r, s, Advance(0, Written));
    r, s := ExtendSerially(Start, r, s, Advance(0, Written));
    r, s := ExtendSerially(Start, r, s, Advance(0, Written));
    assert s.sh.wire == [Trailers];
  }

  // ----- A reset that races -----

  // The handler's operations run on its own thread, one at a time; what the other threads begin are
  // resets and protocol errors.
  const Handler: Tid := 0
  const Reset := CloseCas(false)

  predicate Threaded(step: Step) {
    step.Begin? ==> step.t == Handler || step.task == Reset
  }

  ghost predicate RunsThreaded(s: State, steps: seq<Step>, s': State)
    decreases |steps|
  {
    if steps == [] then s == s'
    else Enabled(s, steps[0]) && Threaded(steps[0]) && RunsThreaded(Do(s, steps[0]), steps[1..], s')
  }

  // Until somebody wins sendClosed, resets have done nothing, and the handler is alone.
  ghost predicate Untouched(s: State) {
    && WireOk(s.sh)
    && (forall t :: t in s.tasks && t != Handler ==> s.tasks[t] == Reset)
    && (if Handler in s.tasks then TaskOk(s.sh, s.tasks[Handler]) else s.sh.hOwner == None)
  }

  lemma UntouchedStep(s: State, step: Step)
    requires Untouched(s) && Enabled(s, step) && Threaded(step)
    requires !Do(s, step).sh.sendClosed
    ensures Untouched(Do(s, step))
  {
    if step.Advance? && step.t == Handler {
      StepInOrder(s.sh, Handler, s.tasks[Handler], step.outcome);
    }
  }

  lemma {:induction false} UntouchedRun(s: State, steps: seq<Step>, s': State)
    requires (!s.sh.sendClosed ==> Untouched(s)) && RunsThreaded(s, steps, s') && !s'.sh.sendClosed
    ensures !s.sh.sendClosed && Untouched(s')
    decreases |steps|
  {
    if steps != [] {
      var s1 := Do(s, steps[0]);
      if !s.sh.sendClosed && !s1.sh.sendClosed {
        UntouchedStep(s, steps[0]);
      }
      UntouchedRun(s1, steps[1..], s');
    }
  }

  /** Whatever resets begin: as long as nobody has won sendClosed, the wire is in order if and only if
      the headers did not fail or nothing was written. */
  lemma InOrderUntilClosed(steps: seq<Step>, s: State)
    requires RunsThreaded(Start, steps, s) && !s.sh.sendClosed
    ensures InOrder(s.sh.wire) <==> !s.sh.headersFailed || s.sh.wire == []
  {
    UntouchedRun(Start, steps, s);
    assert s.sh.wire != [] ==> s.sh.wire[0] in s.sh.wire;
  }

  // The order can be lost from here on, by what is under way or yet to begin, whatever writes fail.
  ghost predicate CanLoseOrder(s: State) {
    exists steps, s' :: RunsThreaded(s, steps, s') && !InOrder(s'.sh.wire)
  }

  // The handler holds the headers, or is past the test of sendClosed and has a message left.
  predicate FrameLeft(s: State) {
    && Handler in s.tasks
    && match s.tasks[Handler]
       case HeadersWrite(_) => true
       case HeadersCas(ThenBody(n)) => n > 0
       case Body(n) => n > 0
       case _ => false
  }

  // When the one that wins sendClosed leaves room for the order to be lost: a reset must still send
  // trailers, and the headers be free for the handler to take, or the handler have a frame left. Once
  // the headers have failed, any frame will do.
  predicate Racy(s: State, t: Tid)
    requires t in s.tasks && s.tasks[t].CloseCas?
  {
    var sendsTrailers := !s.tasks[t].pipe && !s.sh.closed;
    if s.sh.headersFailed then s.sh.wire != [] || sendsTrailers || FrameLeft(s)
    else t != Handler && sendsTrailers && (!s.sh.headersWritten || FrameLeft(s))
  }

  // ----- What cannot be lost -----

  // With sendClosed won, a task that writes nothing any more.
  predicate Passive(sh: Shared, task: Task) {
    match task
    case CheckHeader => sh.headersWritten
    case CheckSend(_) => true
    case HeadersCas(ThenEnd) => sh.headersWritten
    case HeadersCas(ThenBody(n)) => sh.headersWritten && n == 0
    case Body(n) => n == 0
    case CloseCas(_) => true
    case CheckClosed(pipe) => pipe || sh.closed
    case CloseStream => true
    case _ => false
  }

  // After failed headers: a task that will write something, if it goes on.
  predicate Sends(sh: Shared, task: Task) {
    match task
    case HeadersCas(ThenBody(n)) => n > 0
    case HeadersCas(ThenTrailers) => true
    case Body(n) => n > 0
    case CheckClosed(pipe) => !pipe && !sh.closed
    case TrailersWrite => true
    case _ => false
  }

  // Thread w alone may write. Where it is not the handler, the handler cannot take the headers.
  ghost predicate OneWriter(s: State, w: Tid) {
    && s.sh.sendClosed && WireOk(s.sh) && (w != Handler ==> s.sh.headersWritten)
    && (forall t :: t in s.tasks && t != w ==> Passive(s.sh, s.tasks[t]))
    && (if w in s.tasks then TaskOk(s.sh, s.tasks[w]) else s.sh.hOwner == None)
    && (s.sh.headersFailed ==> s.sh.wire == [] && (w in s.tasks ==> !Sends(s.sh, s.tasks[w])))
  }

  // The writer's own step: in order, and no more frames once the headers have failed.
  lemma WriterStep(sh: Shared, w: Tid, task: Task, outcome: Outcome)
    requires sh.sendClosed && WireOk(sh) && TaskOk(sh, task)
    requires sh.headersFailed ==> sh.wire == [] && !Sends(sh, task)
    ensures var (sh', task') := StepTask(sh, w, task, outcome);
            && sh'.sendClosed && WireOk(sh') && (sh.headersWritten ==> sh'.headersWritten) && (sh.closed ==> sh'.closed)
            && (if task'.Some? then TaskOk(sh', task'.value) else sh'.hOwner == None)
            && (sh'.headersFailed ==> sh'.wire == [] && (task'.Some? ==> !Sends(sh', task'.value)))
  {
    StepInOrder(sh, w, task, outcome);
  }

  lemma PassiveStep(sh: Shared, t: Tid, task: Task, outcome: Outcome)
    requires sh.sendClosed && Passive(sh, task)
    ensures var (sh', task') := StepTask(sh, t, task, outcome);
            (sh' == sh || sh' == sh.(closed := true)) && (task'.Some? ==> Passive(sh', task'.value))
  {
  }

  lemma OneWriterStep(s: State, step: Step, w: Tid)
    requires OneWriter(s, w) && Enabled(s, step) && Threaded(step)
    ensures OneWriter(Do(s, step), w)
  {
    if step.Advance? {
      if step.t == w {
        WriterStep(s.sh, w, s.tasks[w], step.outcome);
      } else {
        PassiveStep(s.sh, step.t, s.tasks[step.t], step.outcome);
      }
    }
  }

  lemma {:induction false} OneWriterRun(s: State, steps: seq<Step>, s': State, w: Tid)
    requires OneWriter(s, w) && RunsThreaded(s, steps, s')
    ensures InOrder(s'.sh.wire)
    decreases |steps|
  {
    if steps != [] {
      OneWriterStep(s, steps[0], w);
      OneWriterRun(Do(s, steps[0]), steps[1..], s', w);
    }
  }

  // Headers failed, nothing is on the wire, and nobody will write.
  ghost predicate Silent(s: State) {
    && s.sh.sendClosed && s.sh.headersFailed && s.sh.headersWritten && s.sh.wire == []
    && forall t :: t in s.tasks ==> !s.tasks[t].HeadersWrite? && !Sends(s.sh, s.tasks[t])
  }

  lemma {:induction false} SilentRun(s: State, steps: seq<Step>, s': State)
    requires Silent(s) && RunsThreaded(s, steps, s')
    ensures s'.sh.wire == []
    decreases |steps|
  {
    if steps != [] {
      SilentRun(Do(s, steps[0]), steps[1..], s');
    }
  }

  lemma NotRacyKeepsOrder(s: State, t: Tid, steps: seq<Step>, s': State)
    requires Untouched(s) && !s.sh.sendClosed && t in s.tasks && s.tasks[t].CloseCas? && !Racy(s, t)
    requires RunsThreaded(Do(s, Advance(t, Written)), steps, s')
    ensures InOrder(s'.sh.wire)
  {
    var s1 := Do(s, Advance(t, Written));
    if s.sh.headersFailed {
      SilentRun(s1, steps, s');
    } else {
      var w := if t == Handler || s.sh.closed then Handler else t;
      assert OneWriter(s1, w);
      OneWriterRun(s1, steps, s', w);
    }
  }

  // ----- What can -----

  lemma Prepend(s: State, step: Step, rest: seq<Step>, s': State) returns (steps: seq<Step>)
    requires Enabled(s, step) && Threaded(step) && RunsThreaded(Do(s, step), rest, s')
    ensures steps == [step] + rest && RunsThreaded(s, steps, s')
  {
    steps := [step] + rest;
    assert steps[1..] == rest;
  }

  // The winner runs to its trailers while everybody else stands still; the handler may then go on.
  lemma TrailersFirst(s: State, t: Tid, more: bool) returns (steps: seq<Step>, s': State)
    requires t in s.tasks && s.tasks[t] == CheckClosed(false) && s.sh.headersWritten && !s.sh.closed
    requires more ==> Handler in s.tasks && t != Handler && s.tasks[Handler].Body? && s.tasks[Handler].packets > 0
    ensures RunsThreaded(s, steps, s')
    ensures s'.sh.wire == s.sh.wire + [Trailers] + (if more then [Message] else [])
  {
    var s1 := Do(s, Advance(t, Written));
    var s2 := Do(s1, Advance(t, Written));
    var s3 := Do(s2, Advance(t, Written));
    s', steps := s3, [];
    if more {
      s' := Do(s3, Advance(Handler, Written));
      steps := Prepend(s3, Advance(Handler, Written), [], s');
    }
    steps := Prepend(s2, Advance(t, Written), steps, s');
    steps := Prepend(s1, Advance(t, Written), steps, s');
    steps := Prepend(s, Advance(t, Written), steps, s');
  }

  // How far the handler is from holding the headers, or from its next message.
  function Distance(s: State): nat {
    if Handler !in s.tasks then 4
    else
      match s.tasks[Handler]
      case CheckSend(_) => 5
      case CloseCas(_) => 5
      case CheckHeader => 3
      case HeadersCas(_) => 2
      case _ => 0
  }

  // The handler is let up to its next write, then the trailers go first.
  lemma {:induction false} RaceBreaks(s: State, t: Tid) returns (steps: seq<Step>, s': State)
    requires WireOk(s.sh) && !s.sh.headersFailed && s.sh.sendClosed && !s.sh.closed
    requires t != Handler && t in s.tasks && s.tasks[t] == CheckClosed(false)
    requires if Handler in s.tasks then TaskOk(s.sh, s.tasks[Handler]) else s.sh.hOwner == None
    requires Handler in s.tasks ==> !ClosesTrailers(s.tasks[Handler]) && !s.tasks[Handler].CloseStream?
    requires !s.sh.headersWritten || FrameLeft(s)
    ensures RunsThreaded(s, steps, s') && !InOrder(s'.sh.wire)
    decreases Distance(s)
  {
    if s.sh.hOwner.Some? {
      steps, s' := TrailersFirst(s, t, false);
      assert s'.sh.wire[0] == Trailers;
    } else if Handler in s.tasks && s.tasks[Handler].Body? {
      steps, s' := TrailersFirst(s, t, true);
      assert s'.sh.wire[|s.sh.wire|] == Trailers;
    } else {
      var step := if Handler in s.tasks then Advance(Handler, Written) else Begin(Handler, CheckHeader);
      if Handler in s.tasks {
        StepInOrder(s.sh, Handler, s.tasks[Handler], Written);
      }
      steps, s' := RaceBreaks(Do(s, step), t);
      steps := Prepend(s, step, steps, s');
    }
  }

  lemma FailedHeadersBreak(s: State, t: Tid) returns (steps: seq<Step>, s': State)
    requires s.sh.headersFailed && s.sh.headersWritten && s.sh.wire == []
    requires Handler in s.tasks ==> !s.tasks[Handler].HeadersWrite?
    requires (t in s.tasks && s.tasks[t] == CheckClosed(false) && !s.sh.closed) || FrameLeft(s)
    ensures RunsThreaded(s, steps, s') && !InOrder(s'.sh.wire)
  {
    if FrameLeft(s) {
      var s1 := if s.tasks[Handler].Body? then s else Do(s, Advance(Handler, Written));
      s' := Do(s1, Advance(Handler, Written));
      steps := Prepend(s1, Advance(Handler, Written), [], s');
      if s1 != s {
        steps := Prepend(s, Advance(Handler, Written), steps, s');
      }
    } else {
      steps, s' := TrailersFirst(s, t, false);
    }
    assert s'.sh.wire[0] != Headers;
  }

  lemma RacyLosesOrder(s: State, t: Tid)
    requires Untouched(s) && !s.sh.sendClosed && t in s.tasks && s.tasks[t].CloseCas? && Racy(s, t)
    ensures CanLoseOrder(Do(s, Advance(t, Written)))
  {
    var s1 := Do(s, Advance(t, Written));
    if !s.sh.headersFailed {
      var steps, s' := RaceBreaks(s1, t);
    } else if s.sh.wire != [] {
      assert s.sh.wire[0] in s.sh.wire;
      assert RunsThreaded(s1, [], s1) && !InOrder(s1.sh.wire);
    } else {
      var steps, s' := FailedHeadersBreak(s1, t);
    }
  }

  /**
   * The moment somebody wins sendClosed, in any run of the handler and any number of resets, decides
   * whether the order can still be lost, whatever begins, races or fails later: if and only if the
   * winner is a reset that will send trailers while the headers are not taken, or the handler still has
   * them or a message to write; and, once the headers have failed, if and only if something was written,
   * or the winner or the handler still has something to write.
   */
  lemma OrderLostIffRacy(steps: seq<Step>, s: State, t: Tid)
    requires RunsThreaded(Start, steps, s) && !s.sh.sendClosed && t in s.tasks && s.tasks[t].CloseCas?
    ensures CanLoseOrder(Do(s, Advance(t, Written))) <==> Racy(s, t)
  {
    UntouchedRun(Start, steps, s);
    if Racy(s, t) {
      RacyLosesOrder(s, t);
    } else {
      forall more, s' | RunsThreaded(Do(s, Advance(t, Written)), more, s')
        ensures InOrder(s'.sh.wire)
      {
        NotRacyKeepsOrder(s, t, more, s');
      }
    }
  }

  lemma {:induction false} Extend(s: State, steps: seq<Step>, mid: State, step: Step)
    returns (more: seq<Step>, next: State)
    requires RunsThreaded(s, steps, mid) && Enabled(mid, step) && Threaded(step)
    ensures next == Do(mid, step) && more == steps + [step] && RunsThreaded(s, more, next)
    decreases |steps|
  {
    more, next := steps + [step], Do(mid, step);
    if steps != [] {
      var rest, end := Extend(Do(s, steps[0]), steps[1..], mid, step);
      assert more[1..] == rest;
    }
  }

  /** Such a race: a reset that arrives after the handler has won the headers but before it writes
      them puts the trailers on the wire first. */
  lemma ResetRaceReorders()
    ensures exists steps, s :: RunsThreaded(Start, steps, s) && s.sh.wire == [Trailers, Headers]
  {
    assert RunsThreaded(Start, [], Start);
    var r, s := Extend(Start, [], Start, Begin(Handler, CheckSend(1)));
    r, s := Extend(Start, r, s, Advance(Handler, Written));
    r, s := Extend(Start, r, s, Advance(Handler, Written));
    assert s.tasks == map[Handler := HeadersWrite(ThenBody(1))];
    r, s := Extend(Start, r, s, Begin(1, Reset));
    r, s := Extend(Start, r, s, Advance(1, Written));
    r, s := Extend(Start, r, s, Advance(1, Written));
    r, s := Extend(Start, r, s, Advance(1, Written));
    r, s := Extend(Start, r, s, Advance(1, Written));
    assert s.sh.wire == [Trailers];
    r, s := Extend(Start, r, s, Advance(Handler, Written));
    assert s.sh.wire == [Trailers, Headers];
  }
}
