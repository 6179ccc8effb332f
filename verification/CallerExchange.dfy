/**
 * The other direction of the exchange over the MongoDB queue: the caller's candidates travel through
 * CallUpdate, the call document, the forwarder goroutine of RecvOffer and the caller loop of Answer to
 * the answerer, while everything in `MongoExchange` goes on.
 */
module CallerExchange {
  import opened Wrappers
  import opened CallDocuments
  import opened CandidateForwarding
  import M = MongoExchange

  // What Answer sends to the answerer.
  datatype Request = Init | Update(c: Candidate) | Error(message: string) | Done

  // The forwarder goroutine. `todo`: what it is sending on its unbuffered channel. `done`: the document
  // says that the caller is done.
  datatype Feed =
    | Unclaimed
    | Looking(latest: CallDoc)
    | Sending(todo: seq<Candidate>, done: bool)
    | Waiting
    | Ended(done: bool, err: Option<string>)

  // The caller loop. It is over because it saw the forwarder end, `told` if it could send an error then, or
  // for a reason of its own.
  datatype End = SawEnd(told: bool) | Stopped
  datatype Phase = Before | Running | Over(end: End)
  datatype Loop = Loop(phase: Phase, out: seq<Request>)

  // How the forwarder comes to its end: by what the document says, by the call's expiry, or cut short.
  datatype Way = ByDocument | ByExpiry | CutShort

  // `start`: the number of candidates in the document as the claimer read it. `looked` and `way` are
  // history: the document looked at last, and how the forwarder ended.
  datatype Flow = Flow(feed: Feed, start: nat, candLen: nat, loop: Loop, looked: Option<CallDoc>, way: Way)

  // `events`: those sent to the answerer's subscription. `doneAt`, history: how many candidates had been
  // accepted when the caller was done.
  datatype State = State(base: M.State, flow: Flow, events: seq<CallEvent>, doneAt: Option<nat>)

  datatype Step =
    | Base(step: M.Step, seen: nat)   // a claimer has read the document or, from an event, an older version
    | Notify(version: nat)
    | NotifyEnd(error: Option<string>)   // the subscription fails, or the call expires
    | OnFlow(f: FlowStep)

  // `bye`: the Done that the caller loop defers is sent.
  datatype FlowStep =
    | Look
    | Hand(ok: bool, bye: bool)
    | Settle
    | Next
    | Cancel
    | SendInit(ok: bool)
    | SeeDone(told: bool, bye: bool)
    | Stop(bye: bool)

  const OfferExpired := "offer expired"

  predicate HasError(doc: CallDoc) {
    doc.callerError.Some? && doc.callerError.value != ""
  }

  predicate EnabledFlow(f: Flow, events: seq<CallEvent>, step: FlowStep) {
    match step
    case Look => f.feed.Looking?
    case Hand(_, _) => f.feed.Sending? && f.feed.todo != [] && f.loop.phase.Running?
    case Settle => f.feed.Sending? && f.feed.todo == []
    case Next => f.feed.Waiting? && events != []
    case Cancel => f.feed.Waiting? || (f.feed.Sending? && (f.feed.todo != [] || !f.feed.done))
    case SendInit(_) => !f.feed.Unclaimed? && f.loop.phase.Before?
    case SeeDone(_, _) => f.loop.phase.Running? && f.feed.Ended?
    case Stop(_) => f.loop.phase.Running?
  }

  function Close(loop: Loop, last: seq<Request>, end: End, bye: bool): Loop {
    Loop(Over(end), loop.out + last + if bye then [Done] else [])
  }

  function DoFlow(f: Flow, events: seq<CallEvent>, step: FlowStep): Flow
    requires EnabledFlow(f, events, step)
  {
    match step
    case Look =>
      var doc := f.feed.latest;
      if HasError(doc) then f.(feed := Ended(false, doc.callerError), looked := Some(doc))
      else f.(feed := Sending(NewCandidates(f.candLen, doc.callerCandidates), doc.callerDone),
              candLen := Max(f.candLen, |doc.callerCandidates|), looked := Some(doc))
    case Hand(ok, bye) =>
      var c := f.feed.todo[0];
      f.(feed := f.feed.(todo := f.feed.todo[1..]),
         loop := if ok then f.loop.(out := f.loop.out + [Update(c)]) else Close(f.loop, [], Stopped, bye))
    case Settle => f.(feed := if f.feed.done then Ended(true, None) else Waiting)
    case Next =>
      if events[0].error.Some? then f.(feed := Ended(false, None), way := CutShort)
      else if events[0].expired then f.(feed := Ended(false, Some(OfferExpired)), way := ByExpiry)
      else f.(feed := Looking(events[0].call))
    case Cancel => f.(feed := Ended(false, None), way := CutShort)
    case SendInit(ok) => f.(loop := if ok then Loop(Running, [Init]) else Loop(Over(Stopped), []))
    case SeeDone(told, bye) =>
      var last := if f.feed.err.Some? && told then [Error(f.feed.err.value)] else [];
      f.(loop := Close(f.loop, last, SawEnd(told), bye))
    case Stop(bye) => f.(loop := Close(f.loop, [], Stopped, bye))
  }

  predicate IsClaim(step: M.Step) {
    step.OnDocument? && step.d.Claim?
  }

  predicate Enabled(s: State, step: Step) {
    match step
    case Base(b, seen) => M.Enabled(s.base, b) && (IsClaim(b) ==> seen < |s.base.ex.versions|)
    case Notify(v) => v < |s.base.ex.versions|
    case NotifyEnd(_) => true
    case OnFlow(f) => EnabledFlow(s.flow, s.events, f)
  }

  function Claimed(f: Flow, doc: CallDoc): Flow {
    f.(feed := Looking(doc), start := |doc.callerCandidates|, candLen := |doc.callerCandidates|)
  }

  function DoneAt(doneAt: Option<nat>, doc: CallDoc): Option<nat> {
    if doneAt.None? && doc.callerDone then Some(|doc.callerCandidates|) else doneAt
  }

  function Do(s: State, step: Step): State
    requires Enabled(s, step)
  {
    match step
    case Base(b, seen) =>
      var base := M.Do(s.base, b);
      s.(base := base, doneAt := DoneAt(s.doneAt, base.ex.doc),
         flow := if IsClaim(b) then Claimed(s.flow, s.base.ex.versions[seen]) else s.flow)
    case Notify(v) => s.(events := s.events + [CallEvent(s.base.ex.versions[v], None, false)])
    case NotifyEnd(error) => s.(events := s.events + [CallEvent(NewCall("", ""), error, true)])
    case OnFlow(f) =>
      s.(flow := DoFlow(s.flow, s.events, f), events := if f.Next? then s.events[1..] else s.events)
  }

  ghost predicate Starts(s: State) {
    M.Init(s.base) && s == State(s.base, Flow(Unclaimed, 0, 0, Loop(Before, []), None, ByDocument), [], None)
  }

  ghost predicate Runs(s: State, steps: seq<Step>, s': State)
    decreases |steps|
  {
    if steps == [] then s == s'
    else Enabled(s, steps[0]) && Runs(Do(s, steps[0]), steps[1..], s')
  }

  // ----- What the answerer has -----

  function Updates(out: seq<Request>): (r: seq<Candidate>) {
    if out == [] then []
    else Updates(out[..|out| - 1]) + if out[|out| - 1].Update? then [out[|out| - 1].c] else []
  }

  lemma UpdatesSnoc(out: seq<Request>, r: Request)
    ensures Updates(out + [r]) == Updates(out) + if r.Update? then [r.c] else []
  {
    assert (out + [r])[..|out|] == out;
  }

  // One Init, then updates, then at most an error and a Done.
  ghost predicate Shaped(loop: Loop) {
    && (forall i :: 0 <= i < |loop.out| ==> (loop.out[i].Init? <==> i == 0))
    && (forall i :: 0 < i < |loop.out| - 2 ==> loop.out[i].Update?)
    && (|loop.out| >= 2 ==> !loop.out[|loop.out| - 2].Done?)
    && (|loop.out| >= 2 && loop.out[|loop.out| - 2].Error? ==> loop.out[|loop.out| - 1].Done?)
    && (loop.phase.Running? ==> loop.out != [] && forall i :: 0 < i < |loop.out| ==> loop.out[i].Update?)
    && (loop.phase.Before? ==> loop.out == [])
  }

  lemma CloseUpdates(loop: Loop, last: seq<Request>, end: End, bye: bool)
    requires last == [] || (|last| == 1 && last[0].Error?)
    ensures Updates(Close(loop, last, end, bye).out) == Updates(loop.out)
  {
    var mid := loop.out + last;
    if last == [] {
      assert mid == loop.out;
    } else {
      assert mid == loop.out + [last[0]];
      UpdatesSnoc(loop.out, last[0]);
    }
    if bye {
      UpdatesSnoc(mid, Done);
    } else {
      assert mid + [] == mid;
    }
  }

  lemma CloseShaped(loop: Loop, last: seq<Request>, end: End, bye: bool)
    requires Shaped(loop) && loop.phase.Running? && (last == [] || (|last| == 1 && last[0].Error?))
    ensures Shaped(Close(loop, last, end, bye)) && Updates(Close(loop, last, end, bye).out) == Updates(loop.out)
  {
    CloseUpdates(loop, last, end, bye);
  }

  lemma UpdateShaped(loop: Loop, c: Candidate)
    requires Shaped(loop) && loop.phase.Running?
    ensures Shaped(loop.(out := loop.out + [Update(c)]))
  {
  }

  // A version of the document; one that says the caller is done has all that was accepted before.
  ghost predicate Reads(d: CallDoc, cands: seq<Candidate>, doneAt: Option<nat>) {
    d.callerCandidates <= cands && (d.callerDone ==> doneAt.Some? && doneAt.value <= |d.callerCandidates|)
  }

  ghost predicate Past(done: bool, candLen: nat, doneAt: Option<nat>) {
    done ==> doneAt.Some? && doneAt.value <= candLen
  }

  // What is at the answerer, and what is being sent, are the candidates counted, past the start.
  ghost predicate FlowOk(f: Flow, cands: seq<Candidate>, doneAt: Option<nat>) {
    && f.start <= f.candLen <= |cands| && Updates(f.loop.out) <= cands[f.start..]
    && (f.feed.Unclaimed? ==> f.loop == Loop(Before, []))
    && (f.feed.Looking? ==> Reads(f.feed.latest, cands, doneAt))
    && (f.feed.Sending? || f.feed.Ended? ==> Past(f.feed.done, f.candLen, doneAt))
    && (!f.loop.phase.Over? && f.feed.Sending? ==> Updates(f.loop.out) + f.feed.todo == cands[f.start..f.candLen])
    && (!f.loop.phase.Over? && (f.feed.Looking? || f.feed.Waiting? || (f.feed.Ended? && f.feed.done)) ==>
         Updates(f.loop.out) == cands[f.start..f.candLen])
    && (SawEndOf(f) ==> f.feed.Ended? && (f.feed.done ==> Updates(f.loop.out) == cands[f.start..f.candLen]))
  }

  predicate SawEndOf(f: Flow) {
    f.loop.phase.Over? && f.loop.phase.end.SawEnd?
  }

  // The loop saw the forwarder end because the caller is done.
  predicate SawDone(f: Flow) {
    SawEndOf(f) && f.feed.Ended? && f.feed.done
  }

  ghost predicate DocsOk(ex: M.Exchange, events: seq<CallEvent>, doneAt: Option<nat>) {
    && (doneAt.Some? <==> ex.doc.callerDone) && (doneAt.Some? ==> doneAt.value <= |ex.doc.callerCandidates|)
    && (forall i :: 0 <= i < |ex.versions| ==> Reads(ex.versions[i], ex.doc.callerCandidates, doneAt))
    && (forall i :: 0 <= i < |events| ==> Reads(events[i].call, ex.doc.callerCandidates, doneAt))
  }

  ghost predicate Inv(s: State) {
    && DocsOk(s.base.ex, s.events, s.doneAt) && FlowOk(s.flow, s.base.ex.doc.callerCandidates, s.doneAt)
    && Shaped(s.flow.loop) && (s.flow.feed.Unclaimed? <==> !s.base.ex.doc.answered)
  }

  // ----- The document -----

  // What a step of the other exchange makes of the caller's part of the document.
  ghost predicate Grows(ex: M.Exchange, ex': M.Exchange, claim: bool) {
    && ex.doc.callerCandidates <= ex'.doc.callerCandidates && (ex.doc.callerDone ==> ex'.doc.callerDone)
    && (ex'.versions == ex.versions || ex'.versions == ex.versions + [ex'.doc])
    && ex'.doc.answered == (ex.doc.answered || claim)
  }

  lemma DocGrows(ex: M.Exchange, d: M.DocStep)
    requires M.EnabledDoc(ex, d)
    ensures Grows(ex, M.DoDoc(ex, d), d.Claim?)
  {
  }

  lemma BaseGrows(base: M.State, b: M.Step)
    requires M.Enabled(base, b)
    ensures Grows(base.ex, M.Do(base, b).ex, IsClaim(b))
  {
    if b.OnDocument? { DocGrows(base.ex, b.d); }
  }

  lemma DocsKept(ex: M.Exchange, ex': M.Exchange, events: seq<CallEvent>, doneAt: Option<nat>, claim: bool)
    requires DocsOk(ex, events, doneAt) && Grows(ex, ex', claim)
    ensures DocsOk(ex', events, DoneAt(doneAt, ex'.doc))
  {
  }

  lemma FlowKept(f: Flow, cands: seq<Candidate>, doneAt: Option<nat>, cands': seq<Candidate>, doneAt': Option<nat>)
    requires FlowOk(f, cands, doneAt) && cands <= cands' && (doneAt.Some? ==> doneAt' == doneAt)
    ensures FlowOk(f, cands', doneAt')
  {
    assert cands'[f.start..f.candLen] == cands[f.start..f.candLen];
    assert cands[f.start..] <= cands'[f.start..];
  }

  lemma BaseInv(s: State, b: M.Step, seen: nat)
    requires Inv(s) && Enabled(s, Base(b, seen))
    ensures Inv(Do(s, Base(b, seen)))
  {
    var s' := Do(s, Base(b, seen));
    var cands, cands' := s.base.ex.doc.callerCandidates, s'.base.ex.doc.callerCandidates;
    BaseGrows(s.base, b);
    DocsKept(s.base.ex, s'.base.ex, s.events, s.doneAt, IsClaim(b));
    FlowKept(s.flow, cands, s.doneAt, cands', s'.doneAt);
    if IsClaim(b) {
      var doc := s.base.ex.versions[seen];
      assert Reads(doc, cands, s.doneAt);
      assert cands'[|doc.callerCandidates|..|doc.callerCandidates|] == [];
    }
  }

  // ----- The flow -----

  lemma LookOk(f: Flow, events: seq<CallEvent>, cands: seq<Candidate>, doneAt: Option<nat>)
    requires FlowOk(f, cands, doneAt) && EnabledFlow(f, events, Look)
    ensures FlowOk(DoFlow(f, events, Look), cands, doneAt)
  {
    var mine := f.feed.latest.callerCandidates;
    if |mine| > f.candLen {
      assert mine[f.candLen..] == cands[f.candLen..|mine|];
      assert cands[f.start..f.candLen] + cands[f.candLen..|mine|] == cands[f.start..|mine|];
    }
  }

  lemma OneMore(got: seq<Candidate>, todo: seq<Candidate>, cands: seq<Candidate>, start: nat, candLen: nat)
    requires start <= candLen <= |cands| && todo != [] && got + todo == cands[start..candLen]
    ensures (got + [todo[0]]) + todo[1..] == cands[start..candLen] && got + [todo[0]] <= cands[start..]
  {
    assert todo == [todo[0]] + todo[1..];
    Assoc(got, [todo[0]], todo[1..]);
    assert got + [todo[0]] <= cands[start..candLen] <= cands[start..];
  }

  lemma HandOver(f: Flow, events: seq<CallEvent>, bye: bool, cands: seq<Candidate>, doneAt: Option<nat>)
    requires FlowOk(f, cands, doneAt) && EnabledFlow(f, events, Hand(true, bye))
    ensures FlowOk(DoFlow(f, events, Hand(true, bye)), cands, doneAt)
  {
    UpdatesSnoc(f.loop.out, Update(f.feed.todo[0]));
    OneMore(Updates(f.loop.out), f.feed.todo, cands, f.start, f.candLen);
  }

  lemma HandOk(f: Flow, events: seq<CallEvent>, step: FlowStep, cands: seq<Candidate>, doneAt: Option<nat>)
    requires FlowOk(f, cands, doneAt) && Shaped(f.loop) && EnabledFlow(f, events, step) && step.Hand?
    ensures FlowOk(DoFlow(f, events, step), cands, doneAt) && Shaped(DoFlow(f, events, step).loop)
  {
    if step.ok {
      HandOver(f, events, step.bye, cands, doneAt);
      UpdateShaped(f.loop, f.feed.todo[0]);
    } else {
      CloseShaped(f.loop, [], Stopped, step.bye);
    }
  }

  // A loop that ends sends nothing more of the flow.
  lemma LoopEnds(f: Flow, loop: Loop, cands: seq<Candidate>, doneAt: Option<nat>)
    requires FlowOk(f, cands, doneAt) && f.loop.phase.Running? && loop.phase.Over?
    requires Updates(loop.out) == Updates(f.loop.out) && (loop.phase.end.SawEnd? ==> f.feed.Ended?)
    ensures FlowOk(f.(loop := loop), cands, doneAt)
  {
  }

  lemma InitOk(f: Flow, events: seq<CallEvent>, ok: bool, cands: seq<Candidate>, doneAt: Option<nat>)
    requires FlowOk(f, cands, doneAt) && Shaped(f.loop) && EnabledFlow(f, events, SendInit(ok))
    ensures FlowOk(DoFlow(f, events, SendInit(ok)), cands, doneAt) && Shaped(DoFlow(f, events, SendInit(ok)).loop)
  {
    UpdatesSnoc([], Init);
    assert [] + [Init] == [Init];
  }

  lemma EndOk(f: Flow, events: seq<CallEvent>, step: FlowStep, cands: seq<Candidate>, doneAt: Option<nat>)
    requires FlowOk(f, cands, doneAt) && Shaped(f.loop) && EnabledFlow(f, events, step)
    requires step.SeeDone? || step.Stop?
    ensures FlowOk(DoFlow(f, events, step), cands, doneAt) && Shaped(DoFlow(f, events, step).loop)
  {
    match step {
      case SeeDone(told, bye) =>
        var last := if f.feed.err.Some? && told then [Error(f.feed.err.value)] else [];
        CloseShaped(f.loop, last, SawEnd(told), bye);
        LoopEnds(f, Close(f.loop, last, SawEnd(told), bye), cands, doneAt);
      case Stop(bye) =>
        CloseShaped(f.loop, [], Stopped, bye);
        LoopEnds(f, Close(f.loop, [], Stopped, bye), cands, doneAt);
    }
  }

  lemma FlowStepOk(f: Flow, events: seq<CallEvent>, step: FlowStep, cands: seq<Candidate>, doneAt: Option<nat>)
    requires FlowOk(f, cands, doneAt) && Shaped(f.loop) && EnabledFlow(f, events, step)
    requires events != [] ==> Reads(events[0].call, cands, doneAt)
    ensures FlowOk(DoFlow(f, events, step), cands, doneAt) && Shaped(DoFlow(f, events, step).loop)
  {
    match step {
      case Look => LookOk(f, events, cands, doneAt);
      case Hand(_, _) => HandOk(f, events, step, cands, doneAt);
      case Settle => assert Updates(f.loop.out) + [] == Updates(f.loop.out);
      case Next =>
      case Cancel =>
      case SendInit(ok) => InitOk(f, events, ok, cands, doneAt);
      case _ => EndOk(f, events, step, cands, doneAt);
    }
  }

  lemma StepInv(s: State, step: Step)
    requires Inv(s) && Enabled(s, step)
    ensures Inv(Do(s, step))
  {
    match step {
      case Base(b, seen) => BaseInv(s, b, seen);
      case OnFlow(f) => FlowStepOk(s.flow, s.events, f, s.base.ex.doc.callerCandidates, s.doneAt);
      case _ =>
    }
  }

  lemma {:induction false} RunInv(s: State, steps: seq<Step>, s': State)
    requires Inv(s) && Runs(s, steps, s')
    ensures Inv(s')
    decreases |steps|
  {
    if steps != [] {
      StepInv(s, steps[0]);
      RunInv(Do(s, steps[0]), steps[1..], s');
    }
  }

  /**
   * Over any interleaving, with stale, repeated and lost events: the answerer is sent one Init, then updates,
   * then at most one error and one Done. The updates are a contiguous stretch of the candidates accepted from
   * the caller, in order, that starts after those the claimed document held. When the loop ends because the
   * caller is done, the stretch reaches at least to the last candidate accepted before that.
   */
  lemma AnswererSeesStretch(s: State, steps: seq<Step>, s': State)
    requires Starts(s) && Runs(s, steps, s')
    ensures Shaped(s'.flow.loop)
    ensures var f, cands := s'.flow, s'.base.ex.doc.callerCandidates;
            && f.start <= |cands| && Updates(f.loop.out) <= cands[f.start..]
            && (SawDone(f) ==>
                 s'.doneAt.Some? && s'.doneAt.value <= f.start + |Updates(f.loop.out)|)
  {
    RunInv(s, steps, s');
  }

  // ----- What the document has of the caller -----

  // The update of the caller that a step carries out on the call's document.
  function CallUpdateOf(step: Step, host: string): Option<Update> {
    if !(step.Base? && step.step.OnDocument? && step.step.d.Touch?) then None
    else
      match step.step.d.u
      case PushCallerCandidate(h, _) => if h == host then Some(step.step.d.u) else None
      case SetCallerDone(h) => if h == host then Some(step.step.d.u) else None
      case SetCallerError(h, _) => if h == host then Some(step.step.d.u) else None
      case _ => None
  }

  // All updates of the caller for this call, in the order they were made.
  function CallUpdates(steps: seq<Step>, host: string): seq<Update> {
    if steps == [] then []
    else
      var u := CallUpdateOf(steps[0], host);
      (if u.Some? then [u.value] else []) + CallUpdates(steps[1..], host)
  }

  function Candidates(updates: seq<Update>): seq<Candidate> {
    if updates == [] then []
    else (if updates[0].PushCallerCandidate? then [updates[0].c] else []) + Candidates(updates[1..])
  }

  predicate HasDone(updates: seq<Update>) {
    exists i :: 0 <= i < |updates| && updates[i].SetCallerDone?
  }

  // The last error that came before the caller was done.
  function LastError(updates: seq<Update>): Option<string> {
    if updates == [] || updates[0].SetCallerDone? then None
    else if LastError(updates[1..]).Some? then LastError(updates[1..])
    else if updates[0].SetCallerError? then Some(updates[0].err)
    else None
  }

  // The caller's part of a document after updates.
  ghost predicate Records(doc: CallDoc, doc': CallDoc, updates: seq<Update>) {
    && doc'.host == doc.host
    && doc'.callerCandidates == doc.callerCandidates + Candidates(updates)
    && (doc'.callerDone <==> doc.callerDone || HasDone(updates))
    && doc'.callerError == if !doc.callerDone && LastError(updates).Some? then LastError(updates) else doc.callerError
  }

  lemma OfOne(u: Update)
    ensures Candidates([u]) == if u.PushCallerCandidate? then [u.c] else []
    ensures HasDone([u]) <==> u.SetCallerDone?
    ensures LastError([u]) == if u.SetCallerError? then Some(u.err) else None
  {
    assert [u][1..] == [] && [u][0] == u;
  }

  lemma OfMore(u: Update, rest: seq<Update>)
    ensures Candidates([u] + rest) == Candidates([u]) + Candidates(rest)
    ensures HasDone([u] + rest) <==> u.SetCallerDone? || HasDone(rest)
    ensures LastError([u] + rest) ==
            if u.SetCallerDone? then None else if LastError(rest).Some? then LastError(rest) else LastError([u])
  {
    var all := [u] + rest;
    OfOne(u);
    assert all[1..] == rest && all[0] == u;
    assert forall i :: 0 < i < |all| ==> all[i] == rest[i - 1];
  }

  lemma ApplyRecords(doc: CallDoc, u: Update)
    requires u.PushCallerCandidate? || u.SetCallerDone? || u.SetCallerError?
    ensures u.host == doc.host ==> Records(doc, Apply(doc, u), [u])
    ensures u.host != doc.host ==> Apply(doc, u) == doc
  {
    OfOne(u);
    assert doc.callerCandidates + [] == doc.callerCandidates;
  }

  predicate SameCaller(doc: CallDoc, doc': CallDoc) {
    && doc'.host == doc.host && doc'.callerCandidates == doc.callerCandidates
    && doc'.callerDone == doc.callerDone && doc'.callerError == doc.callerError
  }

  // Whatever is not an update of the caller leaves the caller's part alone.
  lemma OthersKeepCaller(ex: M.Exchange, d: M.DocStep)
    requires M.EnabledDoc(ex, d)
    requires d.Touch? ==> !d.u.PushCallerCandidate? && !d.u.SetCallerDone? && !d.u.SetCallerError?
    ensures SameCaller(ex.doc, M.DoDoc(ex, d).doc)
  {
  }

  lemma StepRecords(s: State, step: Step)
    requires Enabled(s, step)
    ensures var u, doc, doc' := CallUpdateOf(step, s.base.ex.doc.host), s.base.ex.doc, Do(s, step).base.ex.doc;
            if u.Some? then Records(doc, doc', [u.value]) else SameCaller(doc, doc')
  {
    if step.Base? && step.step.OnDocument? {
      var d := step.step.d;
      if d.Touch? && (d.u.PushCallerCandidate? || d.u.SetCallerDone? || d.u.SetCallerError?) {
        ApplyRecords(s.base.ex.doc, d.u);
      } else {
        OthersKeepCaller(s.base.ex, d);
      }
    }
  }

  lemma RecordsMore(doc: CallDoc, mid: CallDoc, doc': CallDoc, u: Update, rest: seq<Update>)
    requires Records(doc, mid, [u]) && Records(mid, doc', rest)
    ensures Records(doc, doc', [u] + rest)
  {
    OfOne(u);
    OfMore(u, rest);
    Assoc(doc.callerCandidates, Candidates([u]), Candidates(rest));
  }

  lemma {:induction false} RunRecords(s: State, steps: seq<Step>, s': State)
    requires Runs(s, steps, s')
    ensures Records(s.base.ex.doc, s'.base.ex.doc, CallUpdates(steps, s.base.ex.doc.host))
    decreases |steps|
  {
    var doc := s.base.ex.doc;
    if steps == [] {
      assert doc.callerCandidates + [] == doc.callerCandidates;
    } else {
      var s1, u := Do(s, steps[0]), CallUpdateOf(steps[0], doc.host);
      StepRecords(s, steps[0]);
      RunRecords(s1, steps[1..], s');
      var rest := CallUpdates(steps[1..], doc.host);
      if u.Some? {
        RecordsMore(doc, s1.base.ex.doc, s'.base.ex.doc, u.value, rest);
      } else {
        assert [] + rest == rest;
      }
    }
  }

  /** The document's caller's part is what the caller sent for this call: all its candidates in order, that it is
      done if and only if it said so, and the last error it reported before that. */
  lemma DocumentRecordsCaller(s: State, steps: seq<Step>, s': State)
    requires Starts(s) && Runs(s, steps, s')
    ensures var doc, updates := s'.base.ex.doc, CallUpdates(steps, s.base.ex.doc.host);
            && doc.callerCandidates == Candidates(updates) && (doc.callerDone <==> HasDone(updates))
            && doc.callerError == LastError(updates)
  {
    RunRecords(s, steps, s');
    var cands := Candidates(CallUpdates(steps, s.base.ex.doc.host));
    assert [] + cands == cands;
  }

  // ----- What the answerer is told at the end -----

  // The error the forwarder ends with: the caller's, when the document looked at last has one; that the offer
  // expired; or none.
  function EndError(way: Way, looked: Option<CallDoc>): Option<string> {
    match way
    case ByDocument =>
      if looked.Some? && looked.value.callerError.Some? && looked.value.callerError.value != "" then
        looked.value.callerError
      else None
    case ByExpiry => Some(OfferExpired)
    case CutShort => None
  }

  // It ends by what the document says exactly at an error, or when the caller is done.
  ghost predicate FeedEnds(f: Flow) {
    && (!f.feed.Ended? ==> f.way == ByDocument)
    && (f.feed.Sending? ==> f.looked.Some? && !HasError(f.looked.value) && f.feed.done == f.looked.value.callerDone)
    && (f.feed.Waiting? ==> f.looked.Some? && !HasError(f.looked.value) && !f.looked.value.callerDone)
    && (f.feed.Ended? ==>
         && f.feed.err == EndError(f.way, f.looked)
         && (f.way == ByDocument ==> f.looked.Some? && (HasError(f.looked.value) || f.looked.value.callerDone))
         && (f.feed.done <==> f.way == ByDocument && !HasError(f.looked.value)))
  }

  function Errors(out: seq<Request>): seq<string> {
    if out == [] then []
    else Errors(out[..|out| - 1]) + if out[|out| - 1].Error? then [out[|out| - 1].message] else []
  }

  lemma ErrorsSnoc(out: seq<Request>, r: Request)
    ensures Errors(out + [r]) == Errors(out) + if r.Error? then [r.message] else []
  {
    assert (out + [r])[..|out|] == out;
  }

  // The loop tells the error it saw, once, if it can.
  ghost predicate LoopTells(f: Flow) {
    && (!SawEndOf(f) ==> Errors(f.loop.out) == [])
    && (SawEndOf(f) ==>
         && f.feed.Ended?
         && Errors(f.loop.out) == if f.feed.err.Some? && f.loop.phase.end.told then [f.feed.err.value] else [])
  }

  lemma {:induction false} ErrorsConcat(out: seq<Request>, more: seq<Request>)
    ensures Errors(out + more) == Errors(out) + Errors(more)
    decreases |more|
  {
    if more == [] {
      assert out + more == out;
    } else {
      var init, last := more[..|more| - 1], more[|more| - 1];
      assert out + more == (out + init) + [last];
      ErrorsSnoc(out + init, last);
      ErrorsConcat(out, init);
      Assoc(Errors(out), Errors(init), if last.Error? then [last.message] else []);
    }
  }

  lemma ErrorsOfOne(r: Request)
    ensures Errors([r]) == if r.Error? then [r.message] else []
  {
    assert Errors([r][..0]) == [];
  }

  lemma CloseTells(loop: Loop, last: seq<Request>, end: End, bye: bool)
    ensures Errors(Close(loop, last, end, bye).out) == Errors(loop.out) + Errors(last)
  {
    ErrorsConcat(loop.out, last);
    ErrorsConcat(loop.out + last, if bye then [Done] else []);
    ErrorsOfOne(Done);
  }

  lemma FlowTells(f: Flow, events: seq<CallEvent>, step: FlowStep)
    requires FeedEnds(f) && LoopTells(f) && EnabledFlow(f, events, step)
    ensures FeedEnds(DoFlow(f, events, step)) && LoopTells(DoFlow(f, events, step))
  {
    match step {
      case Hand(ok, bye) =>
        if ok {
          ErrorsSnoc(f.loop.out, Update(f.feed.todo[0]));
        } else {
          CloseTells(f.loop, [], Stopped, bye);
        }
      case SendInit(_) =>
        ErrorsSnoc([], Init);
        assert [] + [Init] == [Init];
      case SeeDone(told, bye) =>
        var last := if f.feed.err.Some? && told then [Error(f.feed.err.value)] else [];
        CloseTells(f.loop, last, SawEnd(told), bye);
        if last != [] { ErrorsOfOne(last[0]); }
      case Stop(bye) => CloseTells(f.loop, [], Stopped, bye);
      case _ =>
    }
  }

  // Every document on its way is a version of the call's.
  ghost predicate OfCall(s: State) {
    && (forall i :: 0 <= i < |s.events| && s.events[i].error.None? && !s.events[i].expired ==>
         s.events[i].call in s.base.ex.versions)
    && (s.flow.feed.Looking? ==> s.flow.feed.latest in s.base.ex.versions)
    && (s.flow.looked.Some? ==> s.flow.looked.value in s.base.ex.versions)
  }

  lemma OfCallStep(s: State, step: Step)
    requires OfCall(s) && Enabled(s, step)
    ensures OfCall(Do(s, step))
  {
    if step.Base? {
      BaseGrows(s.base, step.step);
      assert forall d :: d in s.base.ex.versions ==> d in M.Do(s.base, step.step).ex.versions;
    }
  }

  lemma {:induction false} TellsRun(s: State, steps: seq<Step>, s': State)
    requires FeedEnds(s.flow) && LoopTells(s.flow) && OfCall(s) && Runs(s, steps, s')
    requires s.flow.feed.Unclaimed? <==> !s.base.ex.doc.answered
    ensures FeedEnds(s'.flow) && LoopTells(s'.flow) && OfCall(s')
    decreases |steps|
  {
    if steps != [] {
      if steps[0].OnFlow? {
        FlowTells(s.flow, s.events, steps[0].f);
      } else if steps[0].Base? {
        BaseGrows(s.base, steps[0].step);
      }
      OfCallStep(s, steps[0]);
      TellsRun(Do(s, steps[0]), steps[1..], s');
    }
  }

  /**
   * The answerer is sent at most one error, and only by a loop that saw the forwarder end and could send it:
   * then exactly the error the forwarder ended with. That is the caller's own, from the version of the
   * document it looked at last, or that the offer expired, unless it was cut short. It goes on waiting only
   * after a version that has no error and does not say that the caller is done.
   */
  lemma AnswererIsTold(s: State, steps: seq<Step>, s': State)
    requires Starts(s) && Runs(s, steps, s')
    ensures var f := s'.flow;
            && Errors(f.loop.out) ==
               (if SawEndOf(f) && f.loop.phase.end.told && EndError(f.way, f.looked).Some? then
                  [EndError(f.way, f.looked).value]
                else [])
            && (f.looked.Some? ==> f.looked.value in s'.base.ex.versions)
            && (SawEndOf(f) && f.way == ByDocument ==>
                 f.looked.Some? && (EndError(ByDocument, f.looked).Some? || f.looked.value.callerDone))
            && (f.feed.Waiting? ==>
                 f.looked.Some? && EndError(ByDocument, f.looked).None? && !f.looked.value.callerDone)
  {
    TellsRun(s, steps, s');
  }

  // ----- A caller that waits for its Init -----

  // A candidate is accepted only once the caller's stream has its Init, and with it the UUID.
  predicate Knowing(s: State, step: Step) {
    step.Base? && step.step.OnDocument? && step.step.d.Touch? && step.step.d.u.PushCallerCandidate? ==>
      s.base.pipe.call.out != []
  }

  ghost predicate RunsKnowing(s: State, steps: seq<Step>, s': State)
    decreases |steps|
  {
    if steps == [] then s == s'
    else Enabled(s, steps[0]) && Knowing(s, steps[0]) && RunsKnowing(Do(s, steps[0]), steps[1..], s')
  }

  ghost predicate NoneYet(ex: M.Exchange) {
    && ex.doc.callerCandidates == []
    && forall i :: 0 <= i < |ex.versions| ==> ex.versions[i].callerCandidates == []
  }

  // Before the Init nothing was accepted, and so nothing before the claim.
  ghost predicate KnowingInv(s: State) {
    M.Inv(s.base) && s.flow.start == 0 && (s.base.pipe.call.out == [] ==> NoneYet(s.base.ex))
  }

  lemma NoneYetKept(ex: M.Exchange, d: M.DocStep)
    requires NoneYet(ex) && M.EnabledDoc(ex, d) && !(d.Touch? && d.u.PushCallerCandidate?)
    ensures NoneYet(M.DoDoc(ex, d))
  {
  }

  lemma OutGrows(p: M.Pipe, events: seq<CallEvent>, step: M.PipeStep)
    requires M.EnabledPipe(p, events, step)
    ensures p.call.out <= M.DoPipe(p, events, step).call.out
  {
  }

  lemma ClaimFirst(base: M.State, b: M.Step)
    requires M.Inv(base) && M.Enabled(base, b) && IsClaim(b)
    ensures base.pipe.call.out == []
  {
    assert base.ex.claimer.None?;
  }

  lemma KnowingStep(s: State, step: Step)
    requires KnowingInv(s) && Enabled(s, step) && Knowing(s, step)
    ensures KnowingInv(Do(s, step))
  {
    if step.Base? {
      var b := step.step;
      M.StepInv(s.base, b);
      if b.OnDocument? {
        if b.d.Claim? { ClaimFirst(s.base, b); }
        if s.base.pipe.call.out == [] { NoneYetKept(s.base.ex, b.d); }
      } else {
        OutGrows(s.base.pipe, s.base.ex.events, b.p);
      }
    }
  }

  lemma {:induction false} KnowingRun(s: State, steps: seq<Step>, s': State)
    requires KnowingInv(s) && RunsKnowing(s, steps, s')
    ensures KnowingInv(s') && Runs(s, steps, s')
    decreases |steps|
  {
    if steps != [] {
      KnowingStep(s, steps[0]);
      KnowingRun(Do(s, steps[0]), steps[1..], s');
    }
  }

  /** Such a caller loses no candidate at the front: the updates are a prefix of the candidates accepted, and
      all that was accepted before the caller was done when the loop ends because of that. */
  lemma AnswererSeesPrefix(s: State, steps: seq<Step>, s': State)
    requires Starts(s) && RunsKnowing(s, steps, s')
    ensures var got, cands := Updates(s'.flow.loop.out), s'.base.ex.doc.callerCandidates;
            && got <= cands
            && (SawDone(s'.flow) ==> s'.doneAt.Some? && s'.doneAt.value <= |got|)
  {
    KnowingRun(s, steps, s');
    AnswererSeesStretch(s, steps, s');
  }
}
