/** The shared call documents of the MongoDB call queue and their atomic conditional updates. */
module CallDocuments {
  import opened Wrappers

  // A stored ICE candidate.
  datatype Candidate = Candidate(
    candidate: string, sdpMid: Option<string>, sdpMLineIndex: Option<nat>, usernameFragment: Option<string>)

  // Unset operator IDs, SDPs and answerer errors are empty strings, as in the stored documents;
  // caller_error is the one field whose presence is queried.
  datatype CallDoc = CallDoc(
    callerOperatorId: string, answererOperatorId: string, host: string,
    callerCandidates: seq<Candidate>, callerDone: bool, callerError: Option<string>,
    answered: bool,
    answererSdp: string, answererCandidates: seq<Candidate>, answererDone: bool, answererError: string)

  // The document SendOfferInit inserts.
  function NewCall(operatorId: string, host: string): CallDoc {
    CallDoc(operatorId, "", host, [], false, None, false, "", [], false, "")
  }

  // The updates other than a claim.
  datatype Update =
    | PushCallerCandidate(host: string, c: Candidate)
    | SetCallerDone(host: string)
    | SetCallerError(host: string, err: string)
    | SetAnswererSdp(sdp: string)
    | PushAnswererCandidate(ac: Candidate)
    | SetAnswererError(aerr: string)
    | SetAnswererDone(host: string)

  // Filter and modification of each update; a document the filter rejects is left alone.
  function Apply(doc: CallDoc, u: Update): CallDoc {
    match u
    case PushCallerCandidate(host, c) =>
      if doc.host == host then doc.(callerCandidates := doc.callerCandidates + [c]) else doc
    case SetCallerDone(host) => if doc.host == host then doc.(callerDone := true) else doc
    case SetCallerError(host, err) =>
      if doc.host == host && !doc.callerDone then doc.(callerError := Some(err)) else doc
    case SetAnswererSdp(sdp) => doc.(answererSdp := sdp)
    case PushAnswererCandidate(c) => doc.(answererCandidates := doc.answererCandidates + [c])
    case SetAnswererError(err) => doc.(answererError := err)
    case SetAnswererDone(host) => if doc.host == host then doc.(answererDone := true) else doc
  }

  // The two filters a claim may use; `inWindow` is the comparison of started_at with the clock.
  predicate FindMatches(doc: CallDoc, hosts: set<string>, inWindow: bool) {
    doc.host in hosts && doc.callerError == None && !doc.answered && inWindow
  }

  predicate EventMatches(doc: CallDoc) {
    !doc.answered
  }

  function Claimed(doc: CallDoc, operatorId: string): CallDoc {
    doc.(answererOperatorId := operatorId, answered := true)
  }

}

/**
 * The race of any number of RecvOffer calls, on any number of operators, to claim a call while
 * both sides keep updating it.
 */
module CallClaims {
  import opened Wrappers
  import opened CallDocuments

  type CallId = nat
  type RecvId = nat

  datatype Phase = Waiting | Returned(id: CallId) | GaveUp
  datatype Recv = Recv(operatorId: string, hosts: set<string>, phase: Phase)

  // A claim as it was made: the document right before it, and how the call was come by.
  datatype Way = Found(inWindow: bool) | FromEvent
  datatype Taken = Taken(doc: CallDoc, way: Way)

  // `used`, `claims` and `taken` are history: IDs ever inserted, for each the RecvOffer calls whose
  // claim the database applied, and the last of these claims.
  datatype State = State(
    docs: map<CallId, CallDoc>, used: set<CallId>, recvs: map<RecvId, Recv>, claims: map<CallId, seq<RecvId>>,
    taken: map<CallId, Taken>)

  datatype Step =
    | Insert(id: CallId, operatorId: string, host: string)
    | Expire(id: CallId)
    | Change(id: CallId, u: Update)
    | StartRecv(r: RecvId, operatorId: string, hosts: set<string>)
    // `heard`: the claimer receives the reply; otherwise its call fails after the fact
    | FindClaim(r: RecvId, id: CallId, inWindow: bool, heard: bool)
    | EventClaim(r: RecvId, id: CallId, heard: bool)
    | EventMiss(r: RecvId, id: CallId)
    | GiveUp(r: RecvId)

  predicate IsWaiting(s: State, r: RecvId) {
    r in s.recvs && s.recvs[r].phase == Waiting
  }

  predicate HasReturned(s: State, r: RecvId, id: CallId) {
    r in s.recvs && s.recvs[r].phase == Returned(id)
  }

  predicate Enabled(s: State, step: Step) {
    match step
    case Insert(id, _, _) => id !in s.used
    case Expire(id) => id in s.docs
    case Change(id, _) => id in s.docs
    case StartRecv(r, op, _) => r !in s.recvs && op != ""
    case FindClaim(r, id, inWindow, _) =>
      IsWaiting(s, r) && id in s.docs && FindMatches(s.docs[id], s.recvs[r].hosts, inWindow)
    // the event of a new call is handed only to subscribers of its host
    case EventClaim(r, id, _) =>
      IsWaiting(s, r) && id in s.docs && s.docs[id].host in s.recvs[r].hosts && EventMatches(s.docs[id])
    case EventMiss(r, id) => IsWaiting(s, r) && (id in s.docs ==> !EventMatches(s.docs[id]))
    case GiveUp(r) => IsWaiting(s, r)
  }

  function DoClaim(s: State, r: RecvId, id: CallId, way: Way, heard: bool): State
    requires IsWaiting(s, r) && id in s.docs
  {
    s.(docs := s.docs[id := Claimed(s.docs[id], s.recvs[r].operatorId)],
       recvs := s.recvs[r := s.recvs[r].(phase := if heard then Returned(id) else GaveUp)],
       claims := s.claims[id := (if id in s.claims then s.claims[id] else []) + [r]],
       taken := s.taken[id := Taken(s.docs[id], way)])
  }

  function Do(s: State, step: Step): State
    requires Enabled(s, step)
  {
    match step
    case Insert(id, op, host) => s.(docs := s.docs[id := NewCall(op, host)], used := s.used + {id})
    case Expire(id) => s.(docs := s.docs - {id})
    case Change(id, u) => s.(docs := s.docs[id := Apply(s.docs[id], u)])
    case StartRecv(r, op, hosts) => s.(recvs := s.recvs[r := Recv(op, hosts, Waiting)])
    case FindClaim(r, id, inWindow, heard) => DoClaim(s, r, id, Found(inWindow), heard)
    case EventClaim(r, id, heard) => DoClaim(s, r, id, FromEvent, heard)
    case EventMiss(r, id) => s
    case GiveUp(r) => s.(recvs := s.recvs[r := s.recvs[r].(phase := GaveUp)])
  }

  ghost predicate Init(s: State) {
    s == State(map[], {}, map[], map[], map[])
  }

  ghost predicate Runs(s: State, steps: seq<Step>, s': State)
    decreases |steps|
  {
    if steps == [] then s == s'
    else Enabled(s, steps[0]) && Runs(Do(s, steps[0]), steps[1..], s')
  }

  ghost predicate Inv(s: State) {
    && s.docs.Keys <= s.used
    && s.claims.Keys <= s.used
    && (forall id :: id in s.claims ==> |s.claims[id]| == 1 && s.claims[id][0] in s.recvs)
    && (forall id :: id in s.docs ==> s.docs[id].answered == (id in s.claims))
    && (forall id :: id in s.docs && id in s.claims ==>
         s.docs[id].answererOperatorId == s.recvs[s.claims[id][0]].operatorId)
    && (forall id :: id in s.docs && id !in s.claims ==> s.docs[id].answererOperatorId == "")
    && (forall r :: r in s.recvs && s.recvs[r].phase.Returned? ==>
          s.recvs[r].phase.id in s.claims && s.claims[s.recvs[r].phase.id] == [r])
    && (forall id :: id in s.claims ==> s.recvs[s.claims[id][0]].phase != Waiting)
  }

  // What never changes once there: who claimed a call, and which operator a RecvOffer runs on.
  ghost predicate Keeps(s: State, s': State) {
    && (forall id :: id in s.claims ==> id in s'.claims && s'.claims[id] == s.claims[id])
    && (forall r :: r in s.recvs ==> r in s'.recvs && s'.recvs[r].operatorId == s.recvs[r].operatorId)
  }

  lemma ClaimInv(s: State, r: RecvId, id: CallId, way: Way, heard: bool)
    requires Inv(s) && IsWaiting(s, r) && id in s.docs && !s.docs[id].answered
    ensures Inv(DoClaim(s, r, id, way, heard)) && Keeps(s, DoClaim(s, r, id, way, heard))
  {
    assert [] + [r] == [r];
    assert DoClaim(s, r, id, way, heard).claims == s.claims[id := [r]];
  }

  lemma DocumentInv(s: State, step: Step)
    requires Inv(s) && Enabled(s, step) && (step.Insert? || step.Expire?)
    ensures Inv(Do(s, step)) && Keeps(s, Do(s, step))
  {
  }

  lemma ChangeInv(s: State, id: CallId, u: Update)
    requires Inv(s) && Enabled(s, Change(id, u))
    ensures Inv(Do(s, Change(id, u))) && Keeps(s, Do(s, Change(id, u)))
  {
    assert Apply(s.docs[id], u).answered == s.docs[id].answered;
    assert Apply(s.docs[id], u).answererOperatorId == s.docs[id].answererOperatorId;
  }

  lemma StepInv(s: State, step: Step)
    requires Inv(s) && Enabled(s, step)
    ensures Inv(Do(s, step)) && Keeps(s, Do(s, step))
  {
    match step {
      case FindClaim(r, id, inWindow, heard) => ClaimInv(s, r, id, Found(inWindow), heard);
      case EventClaim(r, id, heard) => ClaimInv(s, r, id, FromEvent, heard);
      case Insert(_, _, _) => DocumentInv(s, step);
      case Expire(_) => DocumentInv(s, step);
      case Change(id, u) => ChangeInv(s, id, u);
      case _ =>
    }
  }

  lemma {:induction false} RunInv(s: State, steps: seq<Step>, s': State)
    requires Inv(s) && Runs(s, steps, s')
    ensures Inv(s') && Keeps(s, s')
    decreases |steps|
  {
    if steps != [] {
      StepInv(s, steps[0]);
      RunInv(Do(s, steps[0]), steps[1..], s');
    }
  }

  /** However the two ways of claiming race, a call is returned by at most one RecvOffer; the
      database applies at most one claim to it, and that claim's operator is the recorded one. */
  lemma ClaimedByAtMostOne(s: State, steps: seq<Step>, s': State, id: CallId)
    requires Init(s) && Runs(s, steps, s')
    ensures forall r: RecvId, r': RecvId :: HasReturned(s', r, id) && HasReturned(s', r', id) ==> r == r'
    ensures id in s'.claims ==> |s'.claims[id]| == 1
    ensures id in s'.docs ==> (s'.docs[id].answered <==> id in s'.claims)
    ensures id in s'.docs && id in s'.claims ==>
              s'.claims[id][0] in s'.recvs && s'.docs[id].answererOperatorId == s'.recvs[s'.claims[id][0]].operatorId
    ensures id in s'.docs && id !in s'.claims ==> s'.docs[id].answererOperatorId == ""
  {
    RunInv(s, steps, s');
    forall r: nat, r': nat | HasReturned(s', r, id) && HasReturned(s', r', id)
      ensures r == r'
    {
      assert [r] == s'.claims[id] == [r'];
      assert [r][0] == r && [r'][0] == r';
    }
  }

  /** Once a claim is recorded in a document, no later step of any operator changes it. */
  lemma AnswererNeverChanges(s0: State, steps0: seq<Step>, s: State, steps: seq<Step>, s': State, id: CallId)
    requires Init(s0) && Runs(s0, steps0, s) && Runs(s, steps, s')
    requires id in s.docs && s.docs[id].answered && id in s'.docs
    ensures s'.docs[id].answered && s'.docs[id].answererOperatorId == s.docs[id].answererOperatorId
  {
    RunInv(s0, steps0, s);
    RunInv(s, steps, s');
  }

  // ----- Which calls a RecvOffer gets -----

  // What a claim of a RecvOffer for some hosts may take: an unanswered call for one of them, and if it was
  // searched for, one without a caller error that is not about to expire.
  predicate Due(t: Taken, hosts: set<string>) {
    && !t.doc.answered && t.doc.host in hosts
    && (t.way.Found? ==> t.doc.callerError == None && t.way.inWindow)
  }

  ghost predicate OwnInv(s: State) {
    && (forall id :: id in s.taken ==> id in s.used && (id in s.docs ==> s.docs[id].host == s.taken[id].doc.host))
    && (forall r :: r in s.recvs && s.recvs[r].phase.Returned? ==>
          s.recvs[r].phase.id in s.taken && Due(s.taken[s.recvs[r].phase.id], s.recvs[r].hosts))
  }

  lemma OwnClaim(s: State, r: RecvId, id: CallId, way: Way, heard: bool)
    requires Inv(s) && OwnInv(s) && IsWaiting(s, r) && id in s.docs && Due(Taken(s.docs[id], way), s.recvs[r].hosts)
    ensures OwnInv(DoClaim(s, r, id, way, heard))
  {
    assert id !in s.claims;
  }

  lemma OwnStep(s: State, step: Step)
    requires Inv(s) && OwnInv(s) && Enabled(s, step)
    ensures OwnInv(Do(s, step))
  {
    match step {
      case FindClaim(r, id, inWindow, heard) => OwnClaim(s, r, id, Found(inWindow), heard);
      case EventClaim(r, id, heard) => OwnClaim(s, r, id, FromEvent, heard);
      case Change(id, u) => assert Apply(s.docs[id], u).host == s.docs[id].host;
      case _ =>
    }
  }

  lemma {:induction false} OwnRun(s: State, steps: seq<Step>, s': State)
    requires Inv(s) && OwnInv(s) && Runs(s, steps, s')
    ensures OwnInv(s')
    decreases |steps|
  {
    if steps != [] {
      StepInv(s, steps[0]);
      OwnStep(s, steps[0]);
      OwnRun(Do(s, steps[0]), steps[1..], s');
    }
  }

  /** A call that a RecvOffer returned was, when it was claimed, unanswered and for one of its hosts; if it was
      found by search, it had no caller error and was not about to expire. Its host is still the same. */
  lemma ReturnedCallIsDue(s: State, steps: seq<Step>, s': State, r: RecvId, id: CallId)
    requires Init(s) && Runs(s, steps, s') && HasReturned(s', r, id)
    ensures id in s'.taken && Due(s'.taken[id], s'.recvs[r].hosts)
    ensures id in s'.docs ==> s'.docs[id].host in s'.recvs[r].hosts
  {
    OwnRun(s, steps, s');
  }

  // A step that makes a RecvOffer return a call, come by in a given way.
  ghost predicate Returns(s: State, step: Step, r: RecvId, id: CallId, way: Way) {
    && Enabled(s, step) && HasReturned(Do(s, step), r, id)
    && id in Do(s, step).taken && Do(s, step).taken[id].way == way
  }

  ghost predicate CanReturn(s: State, r: RecvId, id: CallId, way: Way) {
    exists step :: Returns(s, step, r, id, way)
  }

  lemma ReturnsOnlyByClaim(s: State, step: Step, r: RecvId, id: CallId, way: Way)
    requires IsWaiting(s, r) && Returns(s, step, r, id, way)
    ensures id in s.docs && Due(Taken(s.docs[id], way), s.recvs[r].hosts)
  {
    assert step.FindClaim? || step.EventClaim?;
  }

  /** And every such call can be had: a waiting RecvOffer can return a call next, in a given way, if and only if
      that call is due. */
  lemma CanReturnIffDue(s: State, r: RecvId, id: CallId, way: Way)
    requires IsWaiting(s, r)
    ensures CanReturn(s, r, id, way) <==> id in s.docs && Due(Taken(s.docs[id], way), s.recvs[r].hosts)
  {
    if id in s.docs && Due(Taken(s.docs[id], way), s.recvs[r].hosts) {
      var step := if way.Found? then FindClaim(r, id, way.inWindow, true) else EventClaim(r, id, true);
      assert Returns(s, step, r, id, way);
    } else if step :| Returns(s, step, r, id, way) {
      ReturnsOnlyByClaim(s, step, r, id, way);
    }
  }
}
