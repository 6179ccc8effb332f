/**
 * The signaling service end to end: an answerer's messages travel through Answer, a call queue
 * and Call to the caller's response stream. The loops of Answer and Call are proved against
 * functions, and those functions drive two state machines, one for each call queue.
 */
module Signaling {
  import opened Wrappers
  import opened CallDocuments
  import opened CandidateForwarding

  // ----- Answer: the loop over the answerer's messages -----

  datatype Stage =
    | InitStage(sdp: string) | UpdateStage(c: Candidate) | DoneStage | ErrorStage(message: string) | UnknownStage

  datatype AnswerMessage = AnswerMessage(uuidMatches: bool, stage: Stage)

  // What the loop does with one message: the answer to hand to the queue, if any, and whether
  // it goes on.
  datatype LoopStep = LoopStep(respond: Option<Answer>, goOn: bool)

  function AnswererStep(haveInit: bool, m: AnswerMessage): LoopStep {
    if !m.uuidMatches then LoopStep(None, false)
    else match m.stage
      case InitStage(sdp) => if haveInit then LoopStep(None, false) else LoopStep(Some(InitialSdp(sdp)), true)
      case UpdateStage(c) => if haveInit then LoopStep(Some(Trickle(c)), true) else LoopStep(None, false)
      case DoneStage => LoopStep(None, false)
      case ErrorStage(message) => LoopStep(Some(Failure(message)), false)
      case UnknownStage => LoopStep(None, false)
  }

  // All answers the loop makes of a list of messages, if none of its calls to the queue fails.
  function AnswersTo(haveInit: bool, messages: seq<AnswerMessage>): seq<Answer>
    decreases |messages|
  {
    if messages == [] then []
    else
      var step := AnswererStep(haveInit, messages[0]);
      (if step.respond.Some? then [step.respond.value] else [])
      + (if step.goOn then AnswersTo(true, messages[1..]) else [])
  }

  // The candidates the answerer sent.
  function SentCandidates(messages: seq<AnswerMessage>): (r: seq<Candidate>) {
    if messages == [] then []
    else (if messages[0].stage.UpdateStage? then [messages[0].stage.c] else []) + SentCandidates(messages[1..])
  }

  lemma AnswersUnfold(haveInit: bool, messages: seq<AnswerMessage>, at: nat)
    requires at < |messages|
    ensures var step := AnswererStep(haveInit, messages[at]);
            AnswersTo(haveInit, messages[at..]) ==
            (if step.respond.Some? then [step.respond.value] else []) +
            (if step.goOn then AnswersTo(true, messages[at + 1..]) else [])
  {
    assert messages[at..][0] == messages[at] && messages[at..][1..] == messages[at + 1..];
  }

  // A message that fits its place: one Init, then updates, all for this call.
  predicate Fits(m: AnswerMessage, first: bool) {
    m.uuidMatches && if first then m.stage.InitStage? else m.stage.UpdateStage?
  }

  // The first n messages fit and the next one, if there is one, does not.
  ghost predicate FitUpTo(messages: seq<AnswerMessage>, n: nat, first: bool) {
    && n <= |messages|
    && (forall i :: 0 <= i < n ==> Fits(messages[i], first && i == 0))
    && (n < |messages| ==> !Fits(messages[n], first && n == 0))
  }

  function AnswerFor(m: AnswerMessage): Answer
    requires m.stage.InitStage? || m.stage.UpdateStage?
  {
    if m.stage.InitStage? then InitialSdp(m.stage.sdp) else Trickle(m.stage.c)
  }

  // The error the answerer reports in place of the next message.
  function Reported(messages: seq<AnswerMessage>, n: nat): seq<Answer> {
    if n < |messages| && messages[n].uuidMatches && messages[n].stage.ErrorStage? then
      [Failure(messages[n].stage.message)]
    else []
  }

  lemma {:induction false} AnswersFit(messages: seq<AnswerMessage>, n: nat, first: bool)
    requires FitUpTo(messages, n, first)
    ensures AnswersTo(!first, messages) ==
            seq(n, i requires 0 <= i < n => AnswerFor(messages[i])) + Reported(messages, n)
    decreases |messages|
  {
    if n > 0 {
      var rest := messages[1..];
      assert forall i :: 0 <= i < |rest| ==> rest[i] == messages[i + 1];
      AnswersFit(rest, n - 1, false);
      var here := seq(n, i requires 0 <= i < n => AnswerFor(messages[i]));
      assert here == [AnswerFor(messages[0])] + seq(n - 1, i requires 0 <= i < n - 1 => AnswerFor(rest[i]));
      Assoc([AnswerFor(messages[0])], here[1..], Reported(messages, n));
      assert here[1..] == seq(n - 1, i requires 0 <= i < n - 1 => AnswerFor(rest[i]));
    }
  }

  /** What the loop over the answerer's messages makes of them: an answer for each of the messages that fit,
      up to the first that does not, and then the error, if that one reports an error for this call. */
  lemma AnswersToExactly(messages: seq<AnswerMessage>, n: nat)
    requires FitUpTo(messages, n, true)
    ensures AnswersTo(false, messages) ==
            seq(n, i requires 0 <= i < n => AnswerFor(messages[i])) + Reported(messages, n)
  {
    AnswersFit(messages, n, true);
  }

  /** answererLoop: the queue is handed the answers to the messages, up to the first failing call. */
  method AnswererLoop(messages: seq<AnswerMessage>) returns (responded: seq<Answer>, failed: bool)
    ensures responded <= AnswersTo(false, messages)
    ensures !failed ==> responded == AnswersTo(false, messages)
  {
    responded, failed := [], false;
    var haveInit := false;
    for at := 0 to |messages|
      invariant AnswersTo(false, messages) == responded + AnswersTo(haveInit, messages[at..])
    {
      var answer := messages[at];
      AnswersUnfold(haveInit, messages, at);
      assert responded <= AnswersTo(false, messages) && responded + [] == responded;
      if !answer.uuidMatches {
        return;
      }
      var ans;
      match answer.stage {
        case InitStage(sdp) =>
          if haveInit {
            return;
          }
          haveInit := true;
          ans := InitialSdp(sdp);
        case UpdateStage(c) =>
          if !haveInit {
            return;
          }
          ans := Trickle(c);
        case ErrorStage(message) =>
          ans := Failure(message);
        case _ =>
          return;
      }
      failed := *;
      if failed {
        return;
      }
      ghost var rest := if answer.stage.ErrorStage? then [] else AnswersTo(true, messages[at + 1..]);
      Assoc(responded, [ans], rest);
      responded := responded + [ans];
      if answer.stage.ErrorStage? {
        return;
      }
    }
    assert messages[|messages|..] == [];
  }

  // ----- Call: the loop over the queue's answers -----

  datatype Response = Init(sdp: string) | UpdateCandidate(c: Candidate)

  // What one receive makes the loop send, and whether it goes on; None is the zero answer that
  // a closed channel yields.
  function CallStep(haveInit: bool, resp: Option<Answer>): (r: (seq<Response>, bool)) {
    match resp
    case Some(Failure(_)) => ([], false)
    case Some(InitialSdp(sdp)) => (if haveInit then [] else [Init(sdp)], true)
    case Some(Trickle(c)) => if haveInit then ([UpdateCandidate(c)], true) else ([], false)
    case None => ([], haveInit)
  }

  function CallResponses(haveInit: bool, resps: seq<Option<Answer>>): seq<Response>
    decreases |resps|
  {
    if resps == [] then []
    else
      var (sent, goOn) := CallStep(haveInit, resps[0]);
      sent + (if goOn then CallResponses(true, resps[1..]) else [])
  }

  function CandidatesIn(out: seq<Response>): (r: seq<Candidate>) {
    if out == [] then []
    else (if out[0].UpdateCandidate? then [out[0].c] else []) + CandidatesIn(out[1..])
  }

  // At most one Init, and it comes first.
  ghost predicate InitThenUpdates(out: seq<Response>) {
    forall i :: 0 <= i < |out| ==> (out[i].Init? <==> i == 0)
  }

  // The updates for the candidates among the receives.
  function Relayed(resps: seq<Option<Answer>>): seq<Response> {
    if resps == [] then []
    else (if resps[0].Some? && resps[0].value.Trickle? then [UpdateCandidate(resps[0].value.c)] else [])
         + Relayed(resps[1..])
  }

  predicate IsFailure(resp: Option<Answer>) {
    resp.Some? && resp.value.Failure?
  }

  // The first n receives bring no error, and the next one, if there is one, does.
  ghost predicate ErrorFree(resps: seq<Option<Answer>>, n: nat) {
    && n <= |resps|
    && (forall i :: 0 <= i < n ==> !IsFailure(resps[i]))
    && (n < |resps| ==> IsFailure(resps[n]))
  }

  lemma {:induction false} RelaysAfterInit(resps: seq<Option<Answer>>, n: nat)
    requires ErrorFree(resps, n)
    ensures CallResponses(true, resps) == Relayed(resps[..n])
    decreases |resps|
  {
    if n > 0 {
      assert forall i :: 0 <= i < |resps| - 1 ==> resps[1..][i] == resps[i + 1];
      RelaysAfterInit(resps[1..], n - 1);
      assert resps[..n][1..] == resps[1..][..n - 1];
    }
  }

  /** What the loop of Call makes of its receives: if the first brings the SDP, the Init and then an update for
      every candidate received before the first error; otherwise nothing. */
  lemma CallRelaysExactly(resps: seq<Option<Answer>>, n: nat)
    requires ErrorFree(resps, n)
    ensures CallResponses(false, resps) ==
            if n > 0 && resps[0].Some? && resps[0].value.InitialSdp? then
              [Init(resps[0].value.sdp)] + Relayed(resps[1..n])
            else []
  {
    if n > 0 && resps[0].Some? && resps[0].value.InitialSdp? {
      assert forall i :: 0 <= i < |resps| - 1 ==> resps[1..][i] == resps[i + 1];
      RelaysAfterInit(resps[1..], n - 1);
      assert resps[1..n] == resps[1..][..n - 1];
    }
  }

  // The body of the loop of Call for one receive; server.Send may fail.
  method RelayAnswer(haveInit: bool, resp: Option<Answer>) returns (sent: seq<Response>, goOn: bool, failed: bool)
    ensures sent <= CallStep(haveInit, resp).0
    ensures !failed ==> sent == CallStep(haveInit, resp).0 && goOn == CallStep(haveInit, resp).1
  {
    sent, goOn, failed := [], false, false;
    if resp.Some? && resp.value.Failure? {
      return;
    }
    if !haveInit && !(resp.Some? && resp.value.InitialSdp?) {
      return;
    }
    if !haveInit {
      failed := *;
      if failed {
        return;
      }
      sent := [Init(resp.value.sdp)];
    }
    if resp.Some? && resp.value.Trickle? {
      failed := *;
      if failed {
        return;
      }
      sent := sent + [UpdateCandidate(resp.value.c)];
    }
    goOn := true;
  }

  /** The loop of Call sends what its receives call for, up to the first failing send. */
  method Call(resps: seq<Option<Answer>>) returns (out: seq<Response>, failed: bool)
    ensures out <= CallResponses(false, resps)
    ensures !failed ==> out == CallResponses(false, resps)
  {
    out, failed := [], false;
    var haveInit, sent, goOn := false, [], true;
    for at := 0 to |resps|
      invariant !failed
      invariant CallResponses(false, resps) == out + CallResponses(haveInit, resps[at..])
    {
      ghost var rest := if CallStep(haveInit, resps[at]).1 then CallResponses(true, resps[at + 1..]) else [];
      assert resps[at..][1..] == resps[at + 1..];
      assert CallResponses(false, resps) == out + CallStep(haveInit, resps[at]).0 + rest;
      sent, goOn, failed := RelayAnswer(haveInit, resps[at]);
      out := out + sent;
      haveInit := true;
      if failed || !goOn {
        return;
      }
    }
  }

  // ----- Shared state of both exchanges -----

  // The answerer's side of a call: one run of Answer. `heard`: the messages it has received.
  datatype Side = Side(haveInit: bool, running: bool, heard: seq<AnswerMessage>)

  datatype Caller = Caller(haveInit: bool, running: bool, out: seq<Response>)

  function Hear(side: Side, m: AnswerMessage): Side {
    var step := AnswererStep(side.haveInit, m);
    Side(side.haveInit || step.respond.Some?, step.goOn, side.heard + [m])
  }

  function Receive(call: Caller, resp: Option<Answer>): Caller {
    var (sent, goOn) := CallStep(call.haveInit, resp);
    Caller(call.haveInit || sent != [], goOn, call.out + sent)
  }

  // The SDP the answerer opened with.
  ghost predicate OpenedWith(side: Side, sdp: string) {
    |side.heard| > 0 && side.heard[0].stage == InitStage(sdp)
  }

  // While the loop runs, its messages were one Init and then Updates.
  ghost predicate SideOk(side: Side) {
    side.running ==> (side.haveInit <==> side.heard != []) && (side.haveInit ==> side.heard[0].stage.InitStage?)
  }

  ghost predicate CallerOk(call: Caller) {
    InitThenUpdates(call.out) && (call.running ==> call.haveInit == (call.out != []))
  }

  // The promise to the caller: one Init, with the answerer's SDP, then updates, which are a prefix
  // of the candidates the answerer sent.
  ghost predicate Delivered(call: Caller, side: Side) {
    && InitThenUpdates(call.out)
    && (call.out != [] ==> OpenedWith(side, call.out[0].sdp))
    && CandidatesIn(call.out) <= SentCandidates(side.heard)
  }

  lemma {:induction false} SentCandidatesSnoc(heard: seq<AnswerMessage>, m: AnswerMessage)
    ensures SentCandidates(heard + [m]) == SentCandidates(heard) + (if m.stage.UpdateStage? then [m.stage.c] else [])
    decreases |heard|
  {
    if heard == [] {
      assert heard + [m] == [m];
    } else {
      var head := if heard[0].stage.UpdateStage? then [heard[0].stage.c] else [];
      var last := if m.stage.UpdateStage? then [m.stage.c] else [];
      SentCandidatesSnoc(heard[1..], m);
      calc {
        SentCandidates(heard + [m]);
        { assert (heard + [m])[0] == heard[0] && (heard + [m])[1..] == heard[1..] + [m]; }
        head + (SentCandidates(heard[1..]) + last);
        (head + SentCandidates(heard[1..])) + last;
      }
    }
  }

  lemma {:induction false} CandidatesInConcat(a: seq<Response>, b: seq<Response>)
    ensures CandidatesIn(a + b) == CandidatesIn(a) + CandidatesIn(b)
    decreases |a|
  {
    if a == [] {
      assert a + b == b;
    } else {
      var head := if a[0].UpdateCandidate? then [a[0].c] else [];
      CandidatesInConcat(a[1..], b);
      calc {
        CandidatesIn(a + b);
        { assert (a + b)[0] == a[0] && (a + b)[1..] == a[1..] + b; }
        head + (CandidatesIn(a[1..]) + CandidatesIn(b));
        (head + CandidatesIn(a[1..])) + CandidatesIn(b);
      }
    }
  }

  // A receive passes a candidate on exactly once, if the loop goes on.
  lemma ReceivePasses(call: Caller, resp: Option<Answer>)
    requires CallerOk(call) && call.running
    ensures CallerOk(Receive(call, resp))
    ensures var cands := CandidatesIn(Receive(call, resp).out);
            if resp.Some? && resp.value.Trickle? && call.haveInit then cands == CandidatesIn(call.out) + [resp.value.c]
            else cands == CandidatesIn(call.out)
    ensures Receive(call, resp).running && resp.Some? && resp.value.Trickle? ==> call.haveInit
  {
    var sent := CallStep(call.haveInit, resp).0;
    CandidatesInConcat(call.out, sent);
    assert sent != [] ==> CandidatesIn(sent[1..]) == [];
  }

  // What hearing one message adds to the candidates sent, and that the Init comes first.
  lemma HearOk(side: Side, m: AnswerMessage)
    requires SideOk(side) && side.running
    ensures SideOk(Hear(side, m))
    ensures SentCandidates(side.heard) <= SentCandidates(Hear(side, m).heard)
    ensures var r := AnswererStep(side.haveInit, m).respond;
            && (r.Some? && r.value.Trickle? ==>
                 SentCandidates(Hear(side, m).heard) == SentCandidates(side.heard) + [r.value.c])
            && (r.Some? && r.value.InitialSdp? ==> OpenedWith(Hear(side, m), r.value.sdp))
    ensures forall sdp :: OpenedWith(side, sdp) ==> OpenedWith(Hear(side, m), sdp)
  {
    SentCandidatesSnoc(side.heard, m);
  }
}

/** The exchange over the in-memory queue: an unbuffered channel between Answer and Call. */
module MemoryExchange {
  import opened Wrappers
  import opened CallDocuments
  import opened CandidateForwarding
  import opened Signaling

  // `hand`: the answer that AnswererRespond is blocked on.
  datatype State = State(side: Side, hand: Option<Answer>, call: Caller)

  datatype Step =
    | Answerer(m: AnswerMessage)
    | Meet
    | Abandon   // AnswererRespond returns an error, or the answerer's stream ends
    | EndCall   // Call returns: context, cancellation or a failing send

  predicate Enabled(s: State, step: Step) {
    match step
    case Answerer(m) => s.side.running && s.hand == None
    case Meet => s.hand.Some? && s.call.running
    case Abandon => true
    case EndCall => true
  }

  function Do(s: State, step: Step): State
    requires Enabled(s, step)
  {
    match step
    case Answerer(m) => s.(side := Hear(s.side, m), hand := AnswererStep(s.side.haveInit, m).respond)
    case Meet => s.(hand := None, call := Receive(s.call, s.hand))
    case Abandon => s.(side := s.side.(running := false), hand := None)
    case EndCall => s.(call := s.call.(running := false))
  }

  ghost predicate Runs(s: State, steps: seq<Step>, s': State)
    decreases |steps|
  {
    if steps == [] then s == s'
    else Enabled(s, steps[0]) && Runs(Do(s, steps[0]), steps[1..], s')
  }

  const Start := State(Side(false, true, []), None, Caller(false, true, []))

  function InHand(hand: Option<Answer>): seq<Candidate> {
    if hand.Some? && hand.value.Trickle? then [hand.value.c] else []
  }

  // What has arrived and what is in hand, together, are the candidates sent.
  ghost predicate Inv(s: State) {
    && SideOk(s.side) && CallerOk(s.call) && Delivered(s.call, s.side)
    && (s.call.running && s.hand.Some? ==>
          CandidatesIn(s.call.out) + InHand(s.hand) <= SentCandidates(s.side.heard))
    && (s.call.running && s.side.running ==>
          CandidatesIn(s.call.out) + InHand(s.hand) == SentCandidates(s.side.heard))
    && (s.call.running && s.hand.Some? && s.hand.value.InitialSdp? ==> OpenedWith(s.side, s.hand.value.sdp))
    && (s.call.running && s.side.running && !s.call.haveInit && s.side.haveInit ==>
         s.hand.Some? && s.hand.value.InitialSdp?)
  }

  lemma StepInv(s: State, step: Step)
    requires Inv(s) && Enabled(s, step)
    ensures Inv(Do(s, step))
  {
    match step {
      case Answerer(m) => HearOk(s.side, m);
      case Meet => ReceivePasses(s.call, s.hand);
      case Abandon =>
      case EndCall =>
    }
  }

  lemma {:induction false} RunInv(s: State, steps: seq<Step>, s': State)
    requires Inv(s) && Runs(s, steps, s')
    ensures Inv(s')
    decreases |steps|
  {
    if steps != [] {
      StepInv(s, steps[0]);
      RunInv(Do(s, steps[0]), steps[1..], s');
    }
  }

  /** Over any interleaving, the caller's stream is at most one Init, with the answerer's SDP,
      and then updates: a prefix of the answerer's candidates in the order sent. While both loops run
      and no answer is on its way, it has the Init if and only if the answerer sent one, and all candidates. */
  lemma CallerSeesPrefix(steps: seq<Step>, s: State)
    requires Runs(Start, steps, s)
    ensures Delivered(s.call, s.side)
    ensures s.call.running && s.side.running && s.hand == None ==>
              (s.call.out != [] <==> s.side.heard != []) && CandidatesIn(s.call.out) == SentCandidates(s.side.heard)
  {
    RunInv(Start, steps, s);
  }
}
