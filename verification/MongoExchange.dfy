/**
 * The exchange over the MongoDB queue for one call: competing claims, updates of the shared
 * document by both sides, events that carry any version of the document in any order, the
 * forwarder goroutine, and the loop of Call, freely interleaved.
 */
module MongoExchange {
  import opened Wrappers
  import opened CallDocuments
  import opened CandidateForwarding
  import opened Signaling

  // The document, every value it has had, who claimed it, the claimer's run of Answer, and the
  // events sent to the caller's subscription.
  datatype Exchange = Exchange(doc: CallDoc, versions: seq<CallDoc>, claimer: Option<nat>, side: Side,
      events: seq<CallEvent>)

  datatype Phase = Looping | Stopping | Gone(cancelled: bool)

  // The forwarder and Call. `queue`: the answers between the two, of which the first `sent` are
  // in the channel and the rest are still to be sent for the event at hand. `seen`, history: the
  // events the forwarder has taken.
  datatype Pipe = Pipe(
    fwd: Forwarder, phase: Phase, queue: seq<Answer>, sent: nat, call: Caller, seen: seq<CallEvent>)

  datatype State = State(ex: Exchange, pipe: Pipe)

  // How an update by the answerer ends: applied, applied although an error is returned, refused.
  datatype Outcome = Applied | AppliedUnheard | Refused

  datatype Step = OnDocument(d: DocStep) | OnPipe(p: PipeStep)

  datatype DocStep =
    | Claim(r: nat, operatorId: string)
    | Answerer(r: nat, m: AnswerMessage, outcome: Outcome)
    | AnswererGone
    | Touch(u: Update)              // the caller's updates, setErr and AnswererDone
    | Notify(version: nat)
    | NotifyExpired

  datatype PipeStep =
    | Forward
    | SendOne
    | Finish
    | CancelForwarder(last: bool)   // the context ends; the last attempt to send may succeed
    | CallReceives
    | CallReceivesClosed
    | EndCall

  predicate IsTouch(u: Update) {
    u.PushCallerCandidate? || u.SetCallerDone? || u.SetCallerError? || u.SetAnswererError? || u.SetAnswererDone?
  }

  predicate EnabledDoc(ex: Exchange, step: DocStep) {
    match step
    case Claim(_, _) => EventMatches(ex.doc)
    case Answerer(r, _, _) => ex.claimer == Some(r) && ex.side.running
    case AnswererGone => ex.claimer.Some?
    case Touch(u) => IsTouch(u)
    case Notify(v) => v < |ex.versions|
    case NotifyExpired => true
  }

  predicate EnabledPipe(p: Pipe, events: seq<CallEvent>, step: PipeStep) {
    match step
    case Forward => p.phase.Looping? && p.sent == |p.queue| && events != []
    case SendOne => p.sent < |p.queue|
    case Finish => p.phase.Stopping? && p.sent == |p.queue|
    case CancelForwarder(_) => !p.phase.Gone? && p.sent <= |p.queue|
    case CallReceives => p.call.running && 0 < p.sent <= |p.queue|
    case CallReceivesClosed => p.call.running && p.queue == [] && p.phase.Gone?
    case EndCall => true
  }

  // AnswererRespond's update.
  function UpdateFor(a: Answer): Update {
    match a
    case InitialSdp(sdp) => SetAnswererSdp(sdp)
    case Trickle(c) => PushAnswererCandidate(c)
    case Failure(message) => SetAnswererError(message)
  }

  function WithDoc(ex: Exchange, doc: CallDoc): Exchange {
    ex.(doc := doc, versions := ex.versions + [doc])
  }

  function DoDoc(ex: Exchange, step: DocStep): Exchange
    requires EnabledDoc(ex, step)
  {
    match step
    case Claim(r, op) => WithDoc(ex, Claimed(ex.doc, op)).(claimer := Some(r))
    case Answerer(_, m, outcome) =>
      var respond := AnswererStep(ex.side.haveInit, m).respond;
      var side := Hear(ex.side, m);
      var ex' := ex.(side := if respond.None? || outcome.Applied? then side else side.(running := false));
      if respond.None? || outcome.Refused? then ex' else WithDoc(ex', Apply(ex.doc, UpdateFor(respond.value)))
    case AnswererGone => ex.(side := ex.side.(running := false))
    case Touch(u) => WithDoc(ex, Apply(ex.doc, u))
    case Notify(v) => ex.(events := ex.events + [CallEvent(ex.versions[v], None, false)])
    case NotifyExpired => ex.(events := ex.events + [CallEvent(NewCall("", ""), None, true)])
  }

  function DoPipe(p: Pipe, events: seq<CallEvent>, step: PipeStep): Pipe
    requires EnabledPipe(p, events, step)
  {
    match step
    case Forward =>
      var (answers, f, stop) := OnEvent(p.fwd, events[0]);
      p.(queue := p.queue + answers, fwd := f, phase := if stop then Stopping else Looping,
         seen := p.seen + [events[0]])
    case SendOne => p.(sent := p.sent + 1)
    case Finish => p.(phase := Gone(false))
    case CancelForwarder(last) =>
      var queue := if !last then p.queue[..p.sent]
                   else if p.sent < |p.queue| then p.queue[..p.sent + 1]
                   else p.queue + [Failure(ContextError)];
      p.(phase := Gone(true), queue := queue, sent := |queue|)
    case CallReceives => p.(queue := p.queue[1..], sent := p.sent - 1, call := Receive(p.call, Some(p.queue[0])))
    case CallReceivesClosed => p.(call := Receive(p.call, None))
    case EndCall => p.(call := p.call.(running := false))
  }

  predicate Enabled(s: State, step: Step) {
    match step
    case OnDocument(d) => EnabledDoc(s.ex, d)
    case OnPipe(p) => EnabledPipe(s.pipe, s.ex.events, p)
  }

  function Do(s: State, step: Step): State
    requires Enabled(s, step)
  {
    match step
    case OnDocument(d) => s.(ex := DoDoc(s.ex, d))
    case OnPipe(p) =>
      State(if p.Forward? then s.ex.(events := s.ex.events[1..]) else s.ex, DoPipe(s.pipe, s.ex.events, p))
  }

  ghost predicate Init(s: State) {
    exists operatorId, host ::
      s == State(Exchange(NewCall(operatorId, host), [NewCall(operatorId, host)], None, Side(false, true, []), []),
                 Pipe(Forwarder(false, 0), Looping, [], 0, Caller(false, true, []), []))
  }

  ghost predicate Runs(s: State, steps: seq<Step>, s': State)
    decreases |steps|
  {
    if steps == [] then s == s'
    else Enabled(s, steps[0]) && Runs(Do(s, steps[0]), steps[1..], s')
  }

  // A version of the document is behind the current one.
  predicate Behind(v: CallDoc, doc: CallDoc) {
    v.answererCandidates <= doc.answererCandidates && (v.answererSdp == "" || v.answererSdp == doc.answererSdp)
  }

  ghost predicate DocOk(ex: Exchange) {
    && SideOk(ex.side)
    && ex.doc.answered == ex.claimer.Some?
    && (ex.claimer.None? ==> ex.side == Side(false, true, []))
    && ex.doc.answererCandidates <= SentCandidates(ex.side.heard)
    && (ex.side.running ==> ex.doc.answererCandidates == SentCandidates(ex.side.heard))
    && (ex.doc.answererSdp != "" ==> OpenedWith(ex.side, ex.doc.answererSdp))
    && (ex.side.running && !ex.side.haveInit ==> ex.doc.answererSdp == "")
    && (ex.side.running && ex.side.haveInit ==> OpenedWith(ex.side, ex.doc.answererSdp))
    && (forall i :: 0 <= i < |ex.versions| ==> Behind(ex.versions[i], ex.doc))
    && (forall i :: 0 <= i < |ex.events| ==> Behind(ex.events[i].call, ex.doc))
  }

  // What is at Call and what is on its way there are, in order, the candidates forwarded so far;
  // once the forwarder is gone some may be missing at the end.
  ghost predicate PipeOk(p: Pipe, cands: seq<Candidate>, side: Side) {
    && CallerOk(p.call)
    && p.sent <= |p.queue|
    && (forall i :: 0 <= i < |p.queue| && p.queue[i].InitialSdp? ==> OpenedWith(side, p.queue[i].sdp))
    && (p.call.out != [] ==> OpenedWith(side, p.call.out[0].sdp))
    && p.fwd.candLen <= |cands|
    && (p.phase.Gone? ==> p.sent == |p.queue|)
    && CandidatesIn(p.call.out) <= cands
    && (p.call.running ==> CandidatesIn(p.call.out) + CandidatesOf(p.queue) <= cands)
    && (p.call.running && p.phase != Gone(true) ==>
         CandidatesIn(p.call.out) + CandidatesOf(p.queue) == cands[..p.fwd.candLen])
  }

  ghost predicate Inv(s: State) {
    DocOk(s.ex) && PipeOk(s.pipe, s.ex.doc.answererCandidates, s.ex.side)
  }

  // ----- The document -----

  // A change to the document keeps every older version behind it.
  lemma ChangeOk(ex: Exchange, ex': Exchange)
    requires DocOk(ex) && Behind(ex.doc, ex'.doc) && ex'.events == ex.events && ex'.versions == ex.versions + [ex'.doc]
    ensures forall i :: 0 <= i < |ex'.versions| ==> Behind(ex'.versions[i], ex'.doc)
    ensures forall i :: 0 <= i < |ex'.events| ==> Behind(ex'.events[i].call, ex'.doc)
  {
  }

  lemma AnswererOk(ex: Exchange, step: DocStep)
    requires DocOk(ex) && EnabledDoc(ex, step) && step.Answerer?
    ensures DocOk(DoDoc(ex, step))
    ensures Behind(ex.doc, DoDoc(ex, step).doc)
    ensures forall sdp :: OpenedWith(ex.side, sdp) ==> OpenedWith(DoDoc(ex, step).side, sdp)
  {
    HearOk(ex.side, step.m);
    var ex' := DoDoc(ex, step);
    if ex'.doc != ex.doc { ChangeOk(ex, ex'); }
  }

  lemma DocStepOk(ex: Exchange, step: DocStep)
    requires DocOk(ex) && EnabledDoc(ex, step)
    ensures DocOk(DoDoc(ex, step))
    ensures Behind(ex.doc, DoDoc(ex, step).doc)
    ensures forall sdp :: OpenedWith(ex.side, sdp) ==> OpenedWith(DoDoc(ex, step).side, sdp)
  {
    match step {
      case Answerer(_, _, _) => AnswererOk(ex, step);
      case Claim(_, _) => ChangeOk(ex, DoDoc(ex, step));
      case Touch(_) => ChangeOk(ex, DoDoc(ex, step));
      case _ =>
    }
  }

  // ----- The pipe -----

  // More candidates in the document do not disturb what is on its way.
  lemma PipeKept(p: Pipe, cands: seq<Candidate>, side: Side, cands': seq<Candidate>, side': Side)
    requires PipeOk(p, cands, side) && cands <= cands'
    requires forall sdp :: OpenedWith(side, sdp) ==> OpenedWith(side', sdp)
    ensures PipeOk(p, cands', side')
  {
    assert cands'[..p.fwd.candLen] == cands[..p.fwd.candLen];
  }

  // An event extends the forwarded candidates up to what its document holds.
  lemma ForwardExtends(f: Forwarder, ev: CallEvent, cands: seq<Candidate>)
    requires f.candLen <= |cands| && ev.call.answererCandidates <= cands
    ensures OnEvent(f, ev).1.candLen <= |cands|
    ensures cands[..OnEvent(f, ev).1.candLen] == cands[..f.candLen] + CandidatesOf(OnEvent(f, ev).0)
  {
    CandidatesOfEvent(f, ev);
    if AnswererSnapshot(ev).stopsBefore {
      assert OnEvent(f, ev).1 == f;
    } else {
      var n := |ev.call.answererCandidates|;
      assert OnEvent(f, ev).1.candLen == Max(f.candLen, n);
      if n > f.candLen {
        assert NewCandidates(f.candLen, ev.call.answererCandidates) == cands[f.candLen..n];
      }
    }
  }

  lemma OnlyOwnSdp(f: Forwarder, ev: CallEvent)
    ensures forall i :: 0 <= i < |OnEvent(f, ev).0| && OnEvent(f, ev).0[i].InitialSdp? ==>
              OnEvent(f, ev).0[i].sdp == ev.call.answererSdp != ""
  {
  }

  lemma ForwardOk(p: Pipe, events: seq<CallEvent>, doc: CallDoc, side: Side)
    requires PipeOk(p, doc.answererCandidates, side) && EnabledPipe(p, events, Forward)
    requires Behind(events[0].call, doc) && (doc.answererSdp != "" ==> OpenedWith(side, doc.answererSdp))
    ensures PipeOk(DoPipe(p, events, Forward), doc.answererCandidates, side)
  {
    var p', answers := DoPipe(p, events, Forward), OnEvent(p.fwd, events[0]).0;
    ForwardExtends(p.fwd, events[0], doc.answererCandidates);
    if p.call.running {
      CandidatesOfConcat(p.queue, answers);
      Assoc(CandidatesIn(p.call.out), CandidatesOf(p.queue), CandidatesOf(answers));
    }
    OnlyOwnSdp(p.fwd, events[0]);
  }

  lemma CancelOk(p: Pipe, events: seq<CallEvent>, step: PipeStep, cands: seq<Candidate>, side: Side)
    requires PipeOk(p, cands, side) && EnabledPipe(p, events, step) && step.CancelForwarder?
    ensures PipeOk(DoPipe(p, events, step), cands, side)
  {
    var queue := DoPipe(p, events, step).queue;
    if queue <= p.queue {
      assert p.queue == queue + p.queue[|queue|..];
      CandidatesOfConcat(queue, p.queue[|queue|..]);
    } else {
      CandidatesOfConcat(p.queue, [Failure(ContextError)]);
      assert CandidatesOf([Failure(ContextError)][1..]) == [];
    }
  }

  lemma CallOk(p: Pipe, events: seq<CallEvent>, step: PipeStep, cands: seq<Candidate>, side: Side)
    requires PipeOk(p, cands, side) && EnabledPipe(p, events, step) && (step.CallReceives? || step.CallReceivesClosed?)
    ensures PipeOk(DoPipe(p, events, step), cands, side)
  {
    if step.CallReceives? {
      ReceivePasses(p.call, Some(p.queue[0]));
      Assoc(CandidatesIn(p.call.out), CandidatesOf(p.queue[..1]), CandidatesOf(p.queue[1..]));
      CandidatesOfConcat(p.queue[..1], p.queue[1..]);
      assert p.queue[..1] + p.queue[1..] == p.queue && CandidatesOf(p.queue[..1][1..]) == [];
    } else {
      ReceivePasses(p.call, None);
    }
  }

  // ----- The Init -----

  // The SDP of the first event that has one, among those without an error.
  function SdpSoFar(seen: seq<CallEvent>): Option<string> {
    if seen == [] then None
    else
      var before, last := SdpSoFar(seen[..|seen| - 1]), seen[|seen| - 1];
      if before.Some? || ErrorOf(last).Some? || last.call.answererSdp == "" then before
      else Some(last.call.answererSdp)
  }

  function SdpsOf(answers: seq<Answer>): (r: seq<string>) {
    if answers == [] then []
    else (if answers[0].InitialSdp? then [answers[0].sdp] else []) + SdpsOf(answers[1..])
  }

  lemma {:induction false} SdpsOfConcat(a: seq<Answer>, b: seq<Answer>)
    ensures SdpsOf(a + b) == SdpsOf(a) + SdpsOf(b)
    decreases |a|
  {
    if a == [] {
      assert a + b == b;
    } else {
      SdpsOfConcat(a[1..], b);
      assert (a + b)[1..] == a[1..] + b;
      Assoc(if a[0].InitialSdp? then [a[0].sdp] else [], SdpsOf(a[1..]), SdpsOf(b));
    }
  }

  lemma {:induction false} SdpsOfTrickles(cands: seq<Candidate>)
    ensures SdpsOf(Trickles(cands)) == []
    decreases |cands|
  {
    if cands != [] {
      assert Trickles(cands)[1..] == Trickles(cands[1..]);
      SdpsOfTrickles(cands[1..]);
    }
  }

  lemma SdpsOfEvent(f: Forwarder, ev: CallEvent)
    ensures var (answers, f', stop) := OnEvent(f, ev);
            var first := ErrorOf(ev).None? && !f.haveInitSdp && ev.call.answererSdp != "";
            && SdpsOf(answers) == (if first then [ev.call.answererSdp] else [])
            && f'.haveInitSdp == (f.haveInitSdp || first)
  {
    if ErrorOf(ev).Some? {
      assert OnEvent(f, ev).0[1..] == [];
    } else {
      var cands := NewCandidates(f.candLen, ev.call.answererCandidates);
      var init := if !f.haveInitSdp && ev.call.answererSdp != "" then [InitialSdp(ev.call.answererSdp)] else [];
      SdpsOfConcat(init, Trickles(cands));
      SdpsOfTrickles(cands);
      assert init != [] ==> init[1..] == [];
    }
  }

  // An event that ends the exchange for the caller.
  predicate EndsIt(ev: CallEvent) {
    ErrorOf(ev).Some? || ev.call.answererDone
  }

  // The forwarder goes on exactly until it has taken such an event.
  ghost predicate SeenOk(p: Pipe) {
    && (forall i :: 0 <= i < |p.seen| - 1 ==> !EndsIt(p.seen[i]))
    && (p.phase.Looping? ==> p.seen == [] || !EndsIt(p.seen[|p.seen| - 1]))
    && (p.phase.Stopping? || p.phase == Gone(false) ==> p.seen != [] && EndsIt(p.seen[|p.seen| - 1]))
  }

  function SdpIn(call: Caller): seq<string> {
    if call.out != [] && call.out[0].Init? then [call.out[0].sdp] else []
  }

  // What is at Call and what is on its way there hold the one SDP that was forwarded.
  ghost predicate InitOk(p: Pipe) {
    && CallerOk(p.call) && p.sent <= |p.queue| && (p.fwd.haveInitSdp <==> SdpSoFar(p.seen).Some?)
    && (p.call.running && p.phase != Gone(true) ==>
         SdpIn(p.call) + SdpsOf(p.queue) == if SdpSoFar(p.seen).Some? then [SdpSoFar(p.seen).value] else [])
  }

  lemma ForwardInit(p: Pipe, events: seq<CallEvent>)
    requires InitOk(p) && EnabledPipe(p, events, Forward)
    ensures InitOk(DoPipe(p, events, Forward))
  {
    var ev := events[0];
    SdpsOfEvent(p.fwd, ev);
    assert (p.seen + [ev])[..|p.seen|] == p.seen;
    SdpsOfConcat(p.queue, OnEvent(p.fwd, ev).0);
    Assoc(SdpIn(p.call), SdpsOf(p.queue), SdpsOf(OnEvent(p.fwd, ev).0));
  }

  lemma ReceiveInit(p: Pipe, events: seq<CallEvent>, step: PipeStep)
    requires InitOk(p) && EnabledPipe(p, events, step) && (step.CallReceives? || step.CallReceivesClosed?)
    ensures InitOk(DoPipe(p, events, step))
  {
    ReceivePasses(p.call, if step.CallReceives? then Some(p.queue[0]) else None);
  }

  lemma PipeStepInit(p: Pipe, events: seq<CallEvent>, step: PipeStep)
    requires InitOk(p) && EnabledPipe(p, events, step)
    ensures InitOk(DoPipe(p, events, step))
  {
    match step {
      case Forward => ForwardInit(p, events);
      case CallReceives => ReceiveInit(p, events, step);
      case CallReceivesClosed => ReceiveInit(p, events, step);
      case _ =>
    }
  }

  lemma StepInv(s: State, step: Step)
    requires Inv(s) && Enabled(s, step)
    ensures Inv(Do(s, step))
  {
    var cands, cands' := s.ex.doc.answererCandidates, Do(s, step).ex.doc.answererCandidates;
    match step {
      case OnDocument(d) =>
        DocStepOk(s.ex, d);
        PipeKept(s.pipe, cands, s.ex.side, cands', Do(s, step).ex.side);
      case OnPipe(Forward) => ForwardOk(s.pipe, s.ex.events, s.ex.doc, s.ex.side);
      case OnPipe(CancelForwarder(_)) => CancelOk(s.pipe, s.ex.events, step.p, cands, s.ex.side);
      case OnPipe(CallReceives) => CallOk(s.pipe, s.ex.events, step.p, cands, s.ex.side);
      case OnPipe(CallReceivesClosed) => CallOk(s.pipe, s.ex.events, step.p, cands, s.ex.side);
      case OnPipe(_) =>
    }
  }

  lemma {:induction false} RunInv(s: State, steps: seq<Step>, s': State)
    requires Inv(s) && Runs(s, steps, s')
    ensures Inv(s')
    decreases |steps|
  {
    if steps != [] {
      StepInv(s, steps[0]);
      RunInv(Do(s, steps[0]), steps[1..], s');
    }
  }

  lemma {:induction false} RunInit(s: State, steps: seq<Step>, s': State)
    requires InitOk(s.pipe) && Runs(s, steps, s')
    ensures InitOk(s'.pipe)
    decreases |steps|
  {
    if steps != [] {
      if steps[0].OnPipe? {
        PipeStepInit(s.pipe, s.ex.events, steps[0].p);
      }
      RunInit(Do(s, steps[0]), steps[1..], s');
    }
  }

  // ----- What the document has of the answerer -----

  // The error a step writes to the document: one of the queue's own, or the answerer's.
  function ErrorBy(step: Step): Option<string> {
    if !step.OnDocument? then None
    else
      match step.d
      case Touch(SetAnswererError(err)) => Some(err)
      case Answerer(_, m, outcome) =>
        if m.uuidMatches && m.stage.ErrorStage? && !outcome.Refused? then Some(m.stage.message) else None
      case _ => None
  }

  function LastErrorBy(steps: seq<Step>): Option<string> {
    if steps == [] then None
    else if LastErrorBy(steps[1..]).Some? then LastErrorBy(steps[1..])
    else ErrorBy(steps[0])
  }

  predicate SetsDone(step: Step, host: string) {
    step == OnDocument(Touch(SetAnswererDone(host)))
  }

  ghost predicate DoneIn(steps: seq<Step>, host: string) {
    exists i :: 0 <= i < |steps| && SetsDone(steps[i], host)
  }

  // A document's error and done mark after a step that writes an error, or sets the mark, or neither.
  ghost predicate Marks(doc: CallDoc, doc': CallDoc, err: Option<string>, done: bool) {
    && doc'.host == doc.host && doc'.answererError == (if err.Some? then err.value else doc.answererError)
    && (doc'.answererDone <==> doc.answererDone || done)
  }

  lemma TouchMarks(ex: Exchange, u: Update)
    requires EnabledDoc(ex, Touch(u))
    ensures Marks(ex.doc, DoDoc(ex, Touch(u)).doc, ErrorBy(OnDocument(Touch(u))),
                  SetsDone(OnDocument(Touch(u)), ex.doc.host))
  {
  }

  lemma AnswererMarks(ex: Exchange, d: DocStep)
    requires EnabledDoc(ex, d) && d.Answerer?
    ensures Marks(ex.doc, DoDoc(ex, d).doc, ErrorBy(OnDocument(d)), false)
  {
  }

  lemma StepMarks(s: State, step: Step)
    requires Enabled(s, step)
    ensures Marks(s.ex.doc, Do(s, step).ex.doc, ErrorBy(step), SetsDone(step, s.ex.doc.host))
  {
    match step {
      case OnDocument(Touch(u)) => TouchMarks(s.ex, u);
      case OnDocument(Answerer(_, _, _)) => AnswererMarks(s.ex, step.d);
      case _ =>
    }
  }

  lemma {:induction false} RunOnAnswerer(s: State, steps: seq<Step>, s': State)
    requires Runs(s, steps, s')
    ensures s'.ex.doc.answererError ==
            if LastErrorBy(steps).Some? then LastErrorBy(steps).value else s.ex.doc.answererError
    ensures s'.ex.doc.answererDone <==> s.ex.doc.answererDone || DoneIn(steps, s.ex.doc.host)
    decreases |steps|
  {
    if steps != [] {
      StepMarks(s, steps[0]);
      RunOnAnswerer(Do(s, steps[0]), steps[1..], s');
      assert forall i :: 0 < i < |steps| ==> steps[i] == steps[1..][i - 1];
      assert DoneIn(steps, s.ex.doc.host) <==>
             SetsDone(steps[0], s.ex.doc.host) || DoneIn(steps[1..], s.ex.doc.host);
    }
  }

  /** The document's answerer's part: its error is the last one the answerer or the queue wrote, it is done if and
      only if AnswererDone was called for this call, and while the claimer's Answer runs it has the SDP and all
      the candidates that the answerer sent. */
  lemma DocumentRecordsAnswerer(s: State, steps: seq<Step>, s': State)
    requires Init(s) && Runs(s, steps, s')
    ensures s'.ex.doc.answererError == if LastErrorBy(steps).Some? then LastErrorBy(steps).value else ""
    ensures s'.ex.doc.answererDone <==> DoneIn(steps, s.ex.doc.host)
    ensures s'.ex.side.running ==>
              && s'.ex.doc.answererCandidates == SentCandidates(s'.ex.side.heard)
              && (s'.ex.side.haveInit ==> OpenedWith(s'.ex.side, s'.ex.doc.answererSdp))
  {
    RunOnAnswerer(s, steps, s');
    RunInv(s, steps, s');
  }

  /** Over any interleaving, with stale, repeated and lost events: the caller's stream is at most
      one Init, with the claimer's SDP, and then updates: a prefix of the claimer's candidates in
      the order sent. */
  lemma CallerSeesPrefix(s: State, steps: seq<Step>, s': State)
    requires Init(s) && Runs(s, steps, s')
    ensures Delivered(s'.pipe.call, s'.ex.side)
  {
    RunInv(s, steps, s');
  }

  lemma SeenStep(p: Pipe, events: seq<CallEvent>, step: PipeStep)
    requires SeenOk(p) && EnabledPipe(p, events, step)
    ensures SeenOk(DoPipe(p, events, step))
  {
    if step.Forward? {
      assert OnEvent(p.fwd, events[0]).2 == EndsIt(events[0]);
    }
  }

  lemma {:induction false} SeenRun(s: State, steps: seq<Step>, s': State)
    requires SeenOk(s.pipe) && Runs(s, steps, s')
    ensures SeenOk(s'.pipe)
    decreases |steps|
  {
    if steps != [] {
      if steps[0].OnPipe? {
        SeenStep(s.pipe, s.ex.events, steps[0].p);
      }
      SeenRun(Do(s, steps[0]), steps[1..], s');
    }
  }

  /** The forwarder takes no event after one with an error or the answerer's done mark, and unless it is cancelled
      it stops for no other reason. */
  lemma ForwarderStopsIff(s: State, steps: seq<Step>, s': State)
    requires Init(s) && Runs(s, steps, s')
    ensures SeenOk(s'.pipe)
  {
    SeenRun(s, steps, s');
  }

  /**
   * And nothing forwarded is lost: while Call runs, unless the forwarder was cancelled, and with nothing on
   * its way, the caller's stream has its Init if and only if the forwarder was given an event with an SDP,
   * and then the first such SDP; and its updates are all the candidates counted.
   */
  lemma CallerHasInitIff(s: State, steps: seq<Step>, s': State)
    requires Init(s) && Runs(s, steps, s')
    requires s'.pipe.call.running && s'.pipe.phase != Gone(true) && s'.pipe.queue == []
    ensures var sdp, call := SdpSoFar(s'.pipe.seen), s'.pipe.call;
            && (call.out != [] <==> sdp.Some?) && (sdp.Some? ==> call.out[0] == Response.Init(sdp.value))
            && s'.pipe.fwd.candLen <= |s'.ex.doc.answererCandidates|
            && CandidatesIn(call.out) == s'.ex.doc.answererCandidates[..s'.pipe.fwd.candLen]
  {
    RunInv(s, steps, s');
    RunInit(s, steps, s');
    assert SdpIn(s'.pipe.call) + [] == SdpIn(s'.pipe.call);
  }
}
