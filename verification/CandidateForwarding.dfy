/**
 * Rebuilding candidate streams from snapshots of a call document. Each side of a call is fed
 * whole documents that may repeat, lag behind or skip versions; a forwarder must turn them
 * into each new candidate once, in order.
 */
module CandidateForwarding {
  import opened Wrappers
  import opened CallDocuments

  // What a subscriber to a call receives. An expired call carries an empty document.
  datatype CallEvent = CallEvent(call: CallDoc, error: Option<string>, expired: bool)

  // WebRTCCallAnswer: exactly one of its fields is set.
  datatype Answer = InitialSdp(sdp: string) | Trickle(c: Candidate) | Failure(message: string)

  const ContextError := "context done"

  // ----- Reference: what any forwarder should emit -----

  // A snapshot as a forwarder sees it: a list of candidates, and whether handling ends before
  // or after them.
  datatype Snapshot = Snapshot(candidates: seq<Candidate>, stopsBefore: bool, stopsAfter: bool)

  // The snapshots whose candidates count: up to the first that ends the exchange.
  function Handled(snaps: seq<Snapshot>): seq<Snapshot> {
    if snaps == [] || snaps[0].stopsBefore then []
    else if snaps[0].stopsAfter then [snaps[0]]
    else [snaps[0]] + Handled(snaps[1..])
  }

  function Longest(snaps: seq<Snapshot>): nat {
    if snaps == [] then 0
    else Max(|snaps[0].candidates|, Longest(snaps[1..]))
  }

  function Max(a: nat, b: nat): nat { if a < b then b else a }

  // ----- The forwarding rule both sides share -----

  function NewCandidates(candLen: nat, candidates: seq<Candidate>): seq<Candidate> {
    if |candidates| > candLen then candidates[candLen..] else []
  }

  function Forwarded(candLen: nat, snaps: seq<Snapshot>): seq<Candidate>
    decreases |snaps|
  {
    if snaps == [] || snaps[0].stopsBefore then []
    else if snaps[0].stopsAfter then NewCandidates(candLen, snaps[0].candidates)
    else NewCandidates(candLen, snaps[0].candidates) + Forwarded(Max(candLen, |snaps[0].candidates|), snaps[1..])
  }

  lemma NewOfPrefix(all: seq<Candidate>, candLen: nat, candidates: seq<Candidate>)
    requires candLen <= |all| && candidates <= all
    ensures candLen <= Max(candLen, |candidates|) <= |all|
    ensures NewCandidates(candLen, candidates) == all[candLen..Max(candLen, |candidates|)]
  {
  }

  lemma Join(all: seq<Candidate>, i: nat, j: nat, k: nat)
    requires i <= j <= k <= |all|
    ensures all[i..j] + all[j..k] == all[i..k]
  {
  }

  /** Snapshots of one push-only list, however repeated, stale or gapped, are forwarded as the
      longest list handled, past the starting length: in order, each candidate once. */
  lemma {:induction false} ForwardsLongestList(all: seq<Candidate>, candLen: nat, snaps: seq<Snapshot>)
    requires candLen <= |all|
    requires forall i :: 0 <= i < |snaps| ==> snaps[i].candidates <= all
    ensures candLen <= Max(candLen, Longest(Handled(snaps))) <= |all|
    ensures Forwarded(candLen, snaps) == all[candLen..Max(candLen, Longest(Handled(snaps)))]
    decreases |snaps|
  {
    if snaps != [] && !snaps[0].stopsBefore {
      var upTo := Max(candLen, |snaps[0].candidates|);
      NewOfPrefix(all, candLen, snaps[0].candidates);
      if snaps[0].stopsAfter {
        assert Handled(snaps)[1..] == [];
      } else {
        ForwardsLongestList(all, upTo, snaps[1..]);
        assert Handled(snaps)[1..] == Handled(snaps[1..]);
        Join(all, candLen, upTo, Max(upTo, Longest(Handled(snaps[1..]))));
      }
    }
  }

  // ----- The caller's side (SendOfferInit) -----

  function AnswererSnapshot(ev: CallEvent): Snapshot {
    Snapshot(ev.call.answererCandidates, ev.error.Some? || ev.call.answererError != "", ev.call.answererDone)
  }

  function AnswererSnapshots(events: seq<CallEvent>): seq<Snapshot> {
    seq(|events|, i requires 0 <= i < |events| => AnswererSnapshot(events[i]))
  }

  datatype Forwarder = Forwarder(haveInitSdp: bool, candLen: nat)

  function Trickles(candidates: seq<Candidate>): seq<Answer> {
    seq(|candidates|, i requires 0 <= i < |candidates| => Trickle(candidates[i]))
  }

  // The answers one event calls for, the forwarder after it, and whether it ends the exchange.
  function OnEvent(f: Forwarder, ev: CallEvent): (r: (seq<Answer>, Forwarder, bool)) {
    if ev.error.Some? then ([Failure(ev.error.value)], f, true)
    else if ev.call.answererError != "" then ([Failure(ev.call.answererError)], f, true)
    else
      var first := !f.haveInitSdp && ev.call.answererSdp != "";
      ((if first then [InitialSdp(ev.call.answererSdp)] else [])
       + Trickles(NewCandidates(f.candLen, ev.call.answererCandidates)),
       Forwarder(f.haveInitSdp || first, Max(f.candLen, |ev.call.answererCandidates|)),
       ev.call.answererDone)
  }

  function Answers(f: Forwarder, events: seq<CallEvent>): (r: seq<Answer>)
    decreases |events|
  {
    if events == [] then []
    else
      var (answers, f', stop) := OnEvent(f, events[0]);
      answers + (if stop then [] else Answers(f', events[1..]))
  }

  function CandidatesOf(answers: seq<Answer>): (r: seq<Candidate>) {
    if answers == [] then []
    else (if answers[0].Trickle? then [answers[0].c] else []) + CandidatesOf(answers[1..])
  }

  lemma {:induction false} CandidatesOfConcat(a: seq<Answer>, b: seq<Answer>)
    ensures CandidatesOf(a + b) == CandidatesOf(a) + CandidatesOf(b)
    decreases |a|
  {
    if a == [] {
      assert a + b == b;
    } else {
      var head := if a[0].Trickle? then [a[0].c] else [];
      CandidatesOfConcat(a[1..], b);
      calc {
        CandidatesOf(a + b);
        { assert (a + b)[0] == a[0] && (a + b)[1..] == a[1..] + b; }
        head + (CandidatesOf(a[1..]) + CandidatesOf(b));
        (head + CandidatesOf(a[1..])) + CandidatesOf(b);
      }
    }
  }

  lemma {:induction false} CandidatesOfTrickles(cands: seq<Candidate>)
    ensures CandidatesOf(Trickles(cands)) == cands
    decreases |cands|
  {
    if cands != [] {
      assert Trickles(cands)[1..] == Trickles(cands[1..]);
      CandidatesOfTrickles(cands[1..]);
    }
  }

  lemma CandidatesOfEvent(f: Forwarder, ev: CallEvent)
    ensures var (answers, f', stop) := OnEvent(f, ev);
            CandidatesOf(answers) ==
            if AnswererSnapshot(ev).stopsBefore then [] else NewCandidates(f.candLen, ev.call.answererCandidates)
  {
    if !AnswererSnapshot(ev).stopsBefore {
      var init := if !f.haveInitSdp && ev.call.answererSdp != "" then [InitialSdp(ev.call.answererSdp)] else [];
      var cands := NewCandidates(f.candLen, ev.call.answererCandidates);
      assert CandidatesOf(init) == [];
      CandidatesOfConcat(init, Trickles(cands));
      CandidatesOfTrickles(cands);
    }
  }

  lemma {:induction false} CandidatesOfAnswers(f: Forwarder, events: seq<CallEvent>)
    ensures CandidatesOf(Answers(f, events)) == Forwarded(f.candLen, AnswererSnapshots(events))
    decreases |events|
  {
    if events != [] {
      var (answers, f', stop) := OnEvent(f, events[0]);
      CandidatesOfEvent(f, events[0]);
      assert AnswererSnapshots(events)[1..] == AnswererSnapshots(events[1..]);
      if stop {
        assert answers + [] == answers;
      } else {
        CandidatesOfConcat(answers, Answers(f', events[1..]));
        CandidatesOfAnswers(f', events[1..]);
      }
    }
  }

  /** The caller's forwarder delivers exactly the longest list of answerer candidates handled. */
  lemma {:induction false} CallerGetsLongestList(all: seq<Candidate>, events: seq<CallEvent>)
    requires forall i :: 0 <= i < |events| ==> events[i].call.answererCandidates <= all
    ensures Longest(Handled(AnswererSnapshots(events))) <= |all|
    ensures CandidatesOf(Answers(Forwarder(false, 0), events)) == all[..Longest(Handled(AnswererSnapshots(events)))]
  {
    CandidatesOfAnswers(Forwarder(false, 0), events);
    ForwardsLongestList(all, 0, AnswererSnapshots(events));
  }

  // ----- The whole answer stream, without the forwarder -----

  // The error an event carries: its own, or the answerer's.
  function ErrorOf(ev: CallEvent): Option<string> {
    if ev.error.Some? then ev.error
    else if ev.call.answererError != "" then Some(ev.call.answererError)
    else None
  }

  // The first n events are handled: none carries an error, none but the last says that the answerer is
  // done, and after them comes an error, or nothing, or the last one is done.
  ghost predicate Handles(events: seq<CallEvent>, n: nat) {
    && n <= |events|
    && (forall i :: 0 <= i < n ==> ErrorOf(events[i]).None?)
    && (forall i :: 0 <= i < n - 1 ==> !events[i].call.answererDone)
    && (n == |events| || EndsDone(events, n) || ErrorOf(events[n]).Some?)
  }

  predicate EndsDone(events: seq<CallEvent>, n: nat)
    requires n <= |events|
  {
    n > 0 && events[n - 1].call.answererDone
  }

  // The first of them with an SDP is number k; there is none if k is n.
  ghost predicate FirstSdp(events: seq<CallEvent>, n: nat, k: nat) {
    && k <= n <= |events|
    && (forall i :: 0 <= i < k ==> events[i].call.answererSdp == "")
    && (k < n ==> events[k].call.answererSdp != "")
  }

  function SdpPart(events: seq<CallEvent>, n: nat, k: nat): seq<Answer>
    requires k <= n <= |events|
  {
    if k < n then [InitialSdp(events[k].call.answererSdp)] else []
  }

  // The error that ended the handling, if one did.
  function FailurePart(events: seq<CallEvent>, n: nat): seq<Answer>
    requires n <= |events|
  {
    if n < |events| && !EndsDone(events, n) && ErrorOf(events[n]).Some? then [Failure(ErrorOf(events[n]).value)] else []
  }

  lemma {:induction false} HandledUpTo(events: seq<CallEvent>) returns (n: nat, k: nat)
    ensures Handles(events, n) && FirstSdp(events, n, k)
    decreases |events|
  {
    n, k := 0, 0;
    if events != [] && ErrorOf(events[0]).None? {
      if events[0].call.answererDone {
        n := 1;
        k := if events[0].call.answererSdp != "" then 0 else 1;
      } else {
        var n', k' := HandledUpTo(events[1..]);
        n := n' + 1;
        k := if events[0].call.answererSdp != "" then 0 else k' + 1;
        assert forall i :: 0 < i < |events| ==> events[i] == events[1..][i - 1];
      }
    }
  }

  lemma TricklesConcat(a: seq<Candidate>, b: seq<Candidate>)
    ensures Trickles(a + b) == Trickles(a) + Trickles(b)
  {
  }

  lemma ShiftHandled(events: seq<CallEvent>, n: nat)
    requires Handles(events, n) && n > 0 && !events[0].call.answererDone
    ensures Handles(events[1..], n - 1) && FailurePart(events[1..], n - 1) == FailurePart(events, n)
  {
    assert forall i :: 0 <= i < |events| - 1 ==> events[1..][i] == events[i + 1];
  }

  // Once the SDP is out, the candidates and then the error.
  lemma {:induction false} AnswersAfterSdp(f: Forwarder, events: seq<CallEvent>, n: nat)
    requires f.haveInitSdp && Handles(events, n)
    ensures Answers(f, events) ==
            Trickles(Forwarded(f.candLen, AnswererSnapshots(events[..n]))) + FailurePart(events, n)
    decreases |events|
  {
    if n > 0 {
      var (answers, f', stop) := OnEvent(f, events[0]);
      var snaps := AnswererSnapshots(events[..n]);
      var news := NewCandidates(f.candLen, events[0].call.answererCandidates);
      assert answers == [] + Trickles(news) == Trickles(news);
      assert snaps[1..] == AnswererSnapshots(events[1..][..n - 1]);
      if stop {
        assert n == 1 && Forwarded(f.candLen, snaps) == news;
      } else {
        ShiftHandled(events, n);
        AnswersAfterSdp(f', events[1..], n - 1);
        TricklesConcat(news, Forwarded(f'.candLen, snaps[1..]));
        Assoc(Trickles(news), Trickles(Forwarded(f'.candLen, snaps[1..])), FailurePart(events, n));
      }
    }
  }

  lemma SdpComesFirst(f: Forwarder, events: seq<CallEvent>)
    requires !f.haveInitSdp && events != [] && ErrorOf(events[0]).None? && events[0].call.answererSdp != ""
    ensures Answers(f, events) ==
            [InitialSdp(events[0].call.answererSdp)] + Answers(f.(haveInitSdp := true), events)
  {
    var news := Trickles(NewCandidates(f.candLen, events[0].call.answererCandidates));
    var f' := OnEvent(f, events[0]).1;
    var rest := if events[0].call.answererDone then [] else Answers(f', events[1..]);
    assert [] + news == news;
    Assoc([InitialSdp(events[0].call.answererSdp)], news, rest);
  }

  // What a forwarder that has sent no SDP yet makes of its events.
  function Form(candLen: nat, events: seq<CallEvent>, n: nat, k: nat): seq<Answer>
    requires k <= n <= |events|
  {
    var before := AnswererSnapshots(events[..k]);
    Trickles(Forwarded(candLen, before))
    + (SdpPart(events, n, k)
       + (Trickles(Forwarded(Max(candLen, Longest(before)), AnswererSnapshots(events[k..n]))) + FailurePart(events, n)))
  }

  lemma FormUnfolds(candLen: nat, events: seq<CallEvent>, n: nat, k: nat)
    requires Handles(events, n) && 0 < k <= n && !events[0].call.answererDone
    ensures var cands := events[0].call.answererCandidates;
            Form(candLen, events, n, k) ==
            Trickles(NewCandidates(candLen, cands)) + Form(Max(candLen, |cands|), events[1..], n - 1, k - 1)
  {
    var cands, rest := events[0].call.answererCandidates, events[1..];
    var before, next := AnswererSnapshots(events[..k]), Max(candLen, |cands|);
    assert before[1..] == AnswererSnapshots(rest[..k - 1]) && before[0] == AnswererSnapshot(events[0]);
    assert events[k..n] == rest[k - 1..n - 1] && SdpPart(events, n, k) == SdpPart(rest, n - 1, k - 1);
    assert Max(candLen, Longest(before)) == Max(next, Longest(before[1..]));
    ShiftHandled(events, n);
    TricklesConcat(NewCandidates(candLen, cands), Forwarded(next, before[1..]));
    var later := Trickles(Forwarded(Max(candLen, Longest(before)), AnswererSnapshots(events[k..n])));
    Assoc(Trickles(NewCandidates(candLen, cands)), Trickles(Forwarded(next, before[1..])),
          SdpPart(events, n, k) + (later + FailurePart(events, n)));
  }

  lemma AnswersFromSdp(f: Forwarder, events: seq<CallEvent>, n: nat)
    requires !f.haveInitSdp && Handles(events, n) && FirstSdp(events, n, 0)
    ensures Answers(f, events) == Form(f.candLen, events, n, 0)
  {
    assert events[0..n] == events[..n] && Forwarded(f.candLen, AnswererSnapshots(events[..0])) == [];
    if n > 0 {
      SdpComesFirst(f, events);
      AnswersAfterSdp(f.(haveInitSdp := true), events, n);
    }
  }

  lemma AnswersOfOne(f: Forwarder, events: seq<CallEvent>)
    requires !f.haveInitSdp && Handles(events, 1) && FirstSdp(events, 1, 1) && events[0].call.answererDone
    ensures Answers(f, events) == Form(f.candLen, events, 1, 1)
  {
    var news := NewCandidates(f.candLen, events[0].call.answererCandidates);
    assert Answers(f, events) == [] + Trickles(news) + [] == Trickles(news);
    assert Forwarded(f.candLen, AnswererSnapshots(events[..1])) == news;
    assert events[1..1] == [];
  }

  lemma AnswersUnfold(f: Forwarder, events: seq<CallEvent>)
    requires events != [] && ErrorOf(events[0]).None? && events[0].call.answererSdp == ""
    requires !events[0].call.answererDone
    ensures var cands := events[0].call.answererCandidates;
            Answers(f, events) ==
            Trickles(NewCandidates(f.candLen, cands)) + Answers(f.(candLen := Max(f.candLen, |cands|)), events[1..])
  {
    var news := Trickles(NewCandidates(f.candLen, events[0].call.answererCandidates));
    assert [] + news == news;
  }

  lemma ShiftSdp(events: seq<CallEvent>, n: nat, k: nat)
    requires FirstSdp(events, n, k) && 0 < k
    ensures FirstSdp(events[1..], n - 1, k - 1)
  {
    assert forall i :: 0 <= i < |events| - 1 ==> events[1..][i] == events[i + 1];
  }

  // One event more in front.
  lemma AnswersNext(f: Forwarder, events: seq<CallEvent>, n: nat, k: nat)
    requires Handles(events, n) && FirstSdp(events, n, k) && 0 < k && !events[0].call.answererDone
    requires var candLen := Max(f.candLen, |events[0].call.answererCandidates|);
             Answers(f.(candLen := candLen), events[1..]) == Form(candLen, events[1..], n - 1, k - 1)
    ensures Answers(f, events) == Form(f.candLen, events, n, k)
  {
    AnswersUnfold(f, events);
    FormUnfolds(f.candLen, events, n, k);
  }

  lemma {:induction false} AnswersFrom(f: Forwarder, events: seq<CallEvent>, n: nat, k: nat)
    requires !f.haveInitSdp && Handles(events, n) && FirstSdp(events, n, k)
    ensures Answers(f, events) == Form(f.candLen, events, n, k)
    decreases |events|
  {
    if k == 0 {
      AnswersFromSdp(f, events, n);
    } else if events[0].call.answererDone {
      assert n == 1;
      AnswersOfOne(f, events);
    } else {
      ShiftHandled(events, n);
      ShiftSdp(events, n, k);
      AnswersFrom(f.(candLen := Max(f.candLen, |events[0].call.answererCandidates|)), events[1..], n - 1, k - 1);
      AnswersNext(f, events, n, k);
    }
  }

  /**
   * Everything the caller's forwarder sends for a list of events, of which it handles the first n: the
   * candidates of the events before the first with an SDP; then, if there is one, that SDP, and no other;
   * then the candidates it and the later ones add; and last, if an event with an error ended the handling,
   * that error.
   */
  lemma AnswersExactly(events: seq<CallEvent>, n: nat, k: nat)
    requires Handles(events, n) && FirstSdp(events, n, k)
    ensures var before := AnswererSnapshots(events[..k]);
            Answers(Forwarder(false, 0), events) ==
            Trickles(Forwarded(0, before)) + SdpPart(events, n, k)
            + Trickles(Forwarded(Longest(before), AnswererSnapshots(events[k..n]))) + FailurePart(events, n)
  {
    AnswersFrom(Forwarder(false, 0), events, n, k);
    var before := AnswererSnapshots(events[..k]);
    var later := Trickles(Forwarded(Longest(before), AnswererSnapshots(events[k..n])));
    Assoc(Trickles(Forwarded(0, before)), SdpPart(events, n, k), later + FailurePart(events, n));
    Assoc(Trickles(Forwarded(0, before)) + SdpPart(events, n, k), later, FailurePart(events, n));
  }

  // What was delivered when the context ended: all, or a part of it followed by at most one error.
  ghost predicate CutShort(sent: seq<Answer>, full: seq<Answer>) {
    sent <= full || (|sent| > 0 && sent[..|sent| - 1] <= full && sent[|sent| - 1] == Failure(ContextError))
  }

  // sendAnswer: blocked sends give way to the context; a last attempt may still succeed.
  method SendAnswer(sent: seq<Answer>, answer: Answer) returns (sent': seq<Answer>, ok: bool)
    ensures sent' == sent + [answer] || (!ok && sent' == sent)
  {
    var done: bool, room: bool := *, *;
    if done {
      return if room then sent + [answer] else sent, false;
    }
    return sent + [answer], true;
  }

  // The loop over the candidates a document adds.
  method SendCandidates(sent: seq<Answer>, candidates: seq<Candidate>, candLen: nat)
    returns (sent': seq<Answer>, ok: bool)
    requires candLen <= |candidates|
    ensures sent <= sent' <= sent + Trickles(candidates[candLen..])
    ensures ok ==> sent' == sent + Trickles(candidates[candLen..])
  {
    ghost var news := Trickles(candidates[candLen..]);
    sent' := sent;
    var newCandLen := |candidates| - candLen;
    for i := 0 to newCandLen
      invariant sent' == sent + news[..i]
    {
      assert news[..i + 1] == news[..i] + [Trickle(candidates[candLen + i])];
      sent', ok := SendAnswer(sent', Trickle(candidates[candLen + i]));
      if !ok {
        return;
      }
    }
    assert news[..newCandLen] == news;
    ok := true;
  }

  // The body of the forwarder's loop for one event.
  method ForwardEvent(f: Forwarder, ev: CallEvent, sent: seq<Answer>)
    returns (f': Forwarder, sent': seq<Answer>, stop: bool, ok: bool)
    ensures sent <= sent' <= sent + OnEvent(f, ev).0
    ensures ok ==> sent' == sent + OnEvent(f, ev).0 && (f', stop) == (OnEvent(f, ev).1, OnEvent(f, ev).2)
  {
    f', sent', stop := f, sent, true;
    if ev.error.Some? {
      sent', ok := SendAnswer(sent, Failure(ev.error.value));
      return;
    }
    if ev.call.answererError != "" {
      sent', ok := SendAnswer(sent, Failure(ev.call.answererError));
      return;
    }
    if !f'.haveInitSdp && ev.call.answererSdp != "" {
      f' := f'.(haveInitSdp := true);
      sent', ok := SendAnswer(sent', InitialSdp(ev.call.answererSdp));
      if !ok {
        return;
      }
    }
    if |ev.call.answererCandidates| > f'.candLen {
      var prevCandLen := f'.candLen;
      f' := f'.(candLen := |ev.call.answererCandidates|);
      sent', ok := SendCandidates(sent', ev.call.answererCandidates, prevCandLen);
      if !ok {
        return;
      }
    }
    stop, ok := ev.call.answererDone, true;
  }

  /** The forwarder goroutine of SendOfferInit on the events it receives: it delivers exactly
      the answers they call for, and when its context ends first, a prefix of them. */
  method ForwardAnswers(events: seq<CallEvent>) returns (sent: seq<Answer>, cancelled: bool)
    ensures !cancelled ==> sent == Answers(Forwarder(false, 0), events)
    ensures cancelled ==> CutShort(sent, Answers(Forwarder(false, 0), events))
  {
    ghost var full := Answers(Forwarder(false, 0), events);
    sent, cancelled := [], false;
    var f, stop, ok := Forwarder(false, 0), false, true;
    for at := 0 to |events|
      invariant !cancelled
      invariant full == sent + Answers(f, events[at..])
    {
      var ctxDone: bool := *;
      if ctxDone {
        ghost var before := sent;
        sent, ok := SendAnswer(sent, Failure(ContextError));
        assert sent == before || sent[..|sent| - 1] == before;
        return sent, true;
      }
      ghost var rest := if OnEvent(f, events[at]).2 then [] else Answers(OnEvent(f, events[at]).1, events[at + 1..]);
      assert events[at..][1..] == events[at + 1..];
      assert full == sent + OnEvent(f, events[at]).0 + rest;
      f, sent, stop, ok := ForwardEvent(f, events[at], sent);
      if stop || !ok {
        return sent, !ok;
      }
    }
  }

  // ----- The answerer's side (RecvOffer) -----

  // The documents the answerer's forwarder looks at: the claimed one, then one per event. An
  // event error or expiry ends the exchange.
  function CallerSnapshot(ev: CallEvent): Snapshot {
    Snapshot(ev.call.callerCandidates,
             ev.error.Some? || ev.expired || (ev.call.callerError.Some? && ev.call.callerError.value != ""),
             ev.call.callerDone)
  }

  function CallerSnapshots(events: seq<CallEvent>): seq<Snapshot> {
    seq(|events|, i requires 0 <= i < |events| => CallerSnapshot(events[i]))
  }

  // The loop over the candidates a document adds; sendCandidate gives way to the context.
  method SendCallerCandidates(sent: seq<Candidate>, candidates: seq<Candidate>, candLen: nat)
    returns (sent': seq<Candidate>, ok: bool)
    ensures sent <= sent' <= sent + NewCandidates(candLen, candidates)
    ensures ok ==> sent' == sent + NewCandidates(candLen, candidates)
  {
    sent', ok := sent, true;
    if |candidates| > candLen {
      for i := 0 to |candidates| - candLen
        invariant sent' == sent + candidates[candLen..candLen + i]
      {
        var ctxDone: bool, room: bool := *, *;
        if !ctxDone || room {
          sent' := sent' + [candidates[candLen + i]];
        }
        if ctxDone {
          return sent', false;
        }
      }
    }
  }

  // All documents the forwarder may look at, the claimed one first.
  function RequestSnapshots(callReq: CallDoc, events: seq<CallEvent>): seq<Snapshot> {
    CallerSnapshots([CallEvent(callReq, None, false)] + events)
  }

  /** The forwarder goroutine of RecvOffer: it delivers exactly what its documents add to the
      claimed one, or a prefix of that when its context ends first. */
  method ForwardCallerCandidates(callReq: CallDoc, events: seq<CallEvent>)
    returns (sent: seq<Candidate>, cancelled: bool)
    ensures sent <= Forwarded(|callReq.callerCandidates|, RequestSnapshots(callReq, events))
    ensures !cancelled ==> sent == Forwarded(|callReq.callerCandidates|, RequestSnapshots(callReq, events))
  {
    ghost var snaps := RequestSnapshots(callReq, events);
    ghost var full := Forwarded(|callReq.callerCandidates|, snaps);
    sent, cancelled := [], false;
    var candLen, latestReq, ok := |callReq.callerCandidates|, callReq, true;
    for at := 0 to |events| + 1
      invariant !cancelled && 0 <= candLen
      invariant at <= |events| ==> snaps[at] == CallerSnapshot(CallEvent(latestReq, None, false))
      invariant full == sent + Forwarded(candLen, snaps[at..])
    {
      ghost var rest :=
        if latestReq.callerDone then [] else Forwarded(Max(candLen, |latestReq.callerCandidates|), snaps[at + 1..]);
      assert snaps[at..][1..] == snaps[at + 1..];
      if latestReq.callerError.Some? && latestReq.callerError.value != "" {
        return;
      }
      assert full == sent + NewCandidates(candLen, latestReq.callerCandidates) + rest;
      sent, ok := SendCallerCandidates(sent, latestReq.callerCandidates, candLen);
      candLen := Max(candLen, |latestReq.callerCandidates|);
      if !ok || latestReq.callerDone {
        return sent, !ok;
      }
      var ctxDone: bool := *;
      if ctxDone {
        return sent, true;
      }
      if at < |events| {
        if events[at].error.Some? || events[at].expired {
          assert snaps[at + 1] == CallerSnapshot(events[at]);
          return;
        }
        latestReq := events[at].call;
      }
    }
  }

  /** Past what the document held when it was claimed, the answerer gets exactly the longest
      list of caller candidates handled. */
  lemma AnswererGetsLongestList(all: seq<Candidate>, callReq: CallDoc, events: seq<CallEvent>)
    requires callReq.callerCandidates <= all
    requires forall i :: 0 <= i < |events| ==> events[i].call.callerCandidates <= all
    ensures var start := |callReq.callerCandidates|;
            var upTo := Max(start, Longest(Handled(RequestSnapshots(callReq, events))));
            upTo <= |all| && Forwarded(start, RequestSnapshots(callReq, events)) == all[start..upTo]
  {
    ForwardsLongestList(all, |callReq.callerCandidates|, RequestSnapshots(callReq, events));
  }

  /** It gets every candidate handled if and only if the document held none when it was claimed. */
  lemma AnswererGetsAllIff(all: seq<Candidate>, callReq: CallDoc, events: seq<CallEvent>)
    requires callReq.callerCandidates <= all
    requires forall i :: 0 <= i < |events| ==> events[i].call.callerCandidates <= all
    ensures var start := |callReq.callerCandidates|;
            var upTo := Max(start, Longest(Handled(RequestSnapshots(callReq, events))));
            && upTo <= |all|
            && (Forwarded(start, RequestSnapshots(callReq, events)) == all[..upTo] <==> callReq.callerCandidates == [])
  {
    AnswererGetsLongestList(all, callReq, events);
  }
}
