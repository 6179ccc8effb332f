/**
 * The in-memory call queue: hosts bound to shared host queues, offers handed over to at most one
 * RecvOffer, and the caller's side ending by done, error or expiry in any order.
 */
module MemoryQueue {
  import opened Wrappers

  // Host queues and RecvOffer calls are named by numbers, offers by their UUIDs.
  type QueueId = nat
  type RecvId = nat

  // `callerDone`: callerDoneCtx is cancelled. `sending`: the goroutine of SendOfferInit is still
  // blocked on exchangeCh. `takenBy`, history: the RecvOffer that received the exchange.
  datatype Offer = Offer(
    queue: QueueId, deadline: nat, callerDone: bool, callerErr: Option<string>, sending: bool, takenBy: Option<RecvId>)

  // CallerErr of an exchange; a cancelled context is not an error.
  function CallerErr(o: Offer): Option<string> {
    if !o.callerDone then None else o.callerErr
  }

  datatype Phase = Waiting | Returned(uuid: string) | GaveUp
  datatype Recv = Recv(queue: QueueId, phase: Phase)

  // Host queues made so far are numbered below `made`. `active`: their activeOffers. `erring`: the
  // offers SendOfferError has set an error on but not yet cancelled, holding the queue's lock.
  datatype State = State(
    hostQueues: map<string, QueueId>, made: nat, active: map<QueueId, set<string>>, offers: map<string, Offer>,
    recvs: map<RecvId, Recv>, erring: map<QueueId, string>)

  // The queue getOrMakeHostsQueue picks: that of the last host bound already, else a new one.
  function QueueFor(hostQueues: map<string, QueueId>, hosts: seq<string>, freshId: QueueId): QueueId {
    if hosts == [] then freshId
    else if hosts[|hosts| - 1] in hostQueues then hostQueues[hosts[|hosts| - 1]]
    else QueueFor(hostQueues, hosts[..|hosts| - 1], freshId)
  }

  function Bind(hostQueues: map<string, QueueId>, hosts: seq<string>, q: QueueId): map<string, QueueId> {
    map h | h in hostQueues.Keys + (set i | 0 <= i < |hosts| :: hosts[i]) ::
      if h in hostQueues then hostQueues[h] else q
  }

  class HostQueueTable {
    var hostQueues: map<string, QueueId>
    var made: nat   // host queues made so far are numbered below it

    constructor ()
      ensures hostQueues == map[] && made == 0
    {
      hostQueues, made := map[], 0;
    }

    /** Every requested host ends up bound, hosts bound before keep their queue, nothing else is
        bound, and the queue returned is the one the last host is bound to. */
    method GetOrMakeHostsQueue(hosts: seq<string>) returns (q: QueueId)
      requires forall h :: h in hostQueues ==> hostQueues[h] < made
      modifies this
      ensures hostQueues == Bind(old(hostQueues), hosts, q)
      ensures q == QueueFor(old(hostQueues), hosts, old(made)) && q < made
      ensures made == if q == old(made) then old(made) + 1 else old(made)
    {
      var shared: Option<QueueId> := None;
      var missing: seq<string> := [];
      for i := 0 to |hosts|
        invariant shared.Some? ==> shared.value < made
        invariant shared ==
                    (if QueueFor(hostQueues, hosts[..i], made) == made then None
                    else Some(QueueFor(hostQueues, hosts[..i], made)))
        invariant forall h :: h in missing <==> (h in hosts[..i] && h !in hostQueues)
      {
        assert hosts[..i + 1][..i] == hosts[..i];
        if hosts[i] in hostQueues {
          shared := Some(hostQueues[hosts[i]]);
        } else {
          missing := missing + [hosts[i]];
        }
      }
      assert hosts[..|hosts|] == hosts;
      if shared == None {
        q, made := made, made + 1;
      } else {
        q := shared.value;
      }
      ghost var before, madeNow := hostQueues, made;
      for i := 0 to |missing|
        invariant made == madeNow
        invariant hostQueues.Keys == before.Keys + (set j | 0 <= j < i :: missing[j])
        invariant forall h :: h in hostQueues ==> hostQueues[h] == if h in before then before[h] else q
      {
        hostQueues := hostQueues[missing[i] := q];
      }
      assert forall h :: h in (set j | 0 <= j < |missing| :: missing[j]) <==> h in missing;
    }
  }

  // ----- Interleavings -----

  datatype Step =
    | SendInit(host: string, uuid: string, deadline: nat)
    | SendDone(host: string, uuid: string)
    | SetError(host: string, uuid: string, err: string)
    | CancelErring(q: QueueId)
    | Sweep(q: QueueId, now: nat)
    | StartRecv(r: RecvId, hosts: seq<string>)
    | Meet(r: RecvId, uuid: string)
    | RecvGivesUp(r: RecvId)
    | SenderGivesUp(uuid: string)

  ghost predicate Unlocked(s: State, q: QueueId) {
    q !in s.erring
  }

  // The host's queue is known (every operation looks it up first) and holds the offer.
  predicate IsActive(s: State, host: string, uuid: string) {
    host in s.hostQueues && uuid in ActiveAt(s, s.hostQueues[host]) && uuid in s.offers
  }

  predicate IsWaiting(s: State, r: RecvId) {
    r in s.recvs && s.recvs[r].phase == Waiting
  }

  function GetOrMake(s: State, hosts: seq<string>): State {
    var q := QueueFor(s.hostQueues, hosts, s.made);
    var s' := s.(hostQueues := Bind(s.hostQueues, hosts, q));
    if q == s.made then s'.(made := s.made + 1, active := s.active[q := {}]) else s'
  }

  function ActiveAt(s: State, q: QueueId): set<string> {
    if q in s.active then s.active[q] else {}
  }

  function AddOffer(s: State, q: QueueId, uuid: string, deadline: nat): State {
    s.(offers := s.offers[uuid := Offer(q, deadline, false, None, true, None)],
        active := s.active[q := ActiveAt(s, q) + {uuid}])
  }

  ghost predicate Enabled(s: State, step: Step) {
    match step
    case SendInit(host, uuid, _) =>
      uuid !in s.offers && Unlocked(s, QueueFor(s.hostQueues, [host], s.made))
    case SendDone(host, uuid) => IsActive(s, host, uuid) && Unlocked(s, s.hostQueues[host])
    case SetError(host, uuid, _) =>
      IsActive(s, host, uuid) && Unlocked(s, s.hostQueues[host]) && !s.offers[uuid].callerDone
    case CancelErring(q) => q in s.erring && s.erring[q] in s.offers
    case Sweep(q, _) => Unlocked(s, q)
    case StartRecv(r, _) => r !in s.recvs
    case Meet(r, uuid) =>
      && IsWaiting(s, r) && uuid in s.offers && s.offers[uuid].sending
      && s.offers[uuid].queue == s.recvs[r].queue
    case RecvGivesUp(r) => IsWaiting(s, r)
    case SenderGivesUp(uuid) => uuid in s.offers
  }

  ghost function Do(s: State, step: Step): State
    requires Enabled(s, step)
  {
    match step
    case SendInit(host, uuid, deadline) =>
      var q := QueueFor(s.hostQueues, [host], s.made);
      AddOffer(GetOrMake(s, [host]), q, uuid, deadline)
    case SendDone(host, uuid) => s.(offers := s.offers[uuid := s.offers[uuid].(callerDone := true)])
    case SetError(host, uuid, err) =>
      s.(offers := s.offers[uuid := s.offers[uuid].(callerErr := Some(err))],
          erring := s.erring[s.hostQueues[host] := uuid])
    case CancelErring(q) =>
      var uuid := s.erring[q];
      s.(offers := s.offers[uuid := s.offers[uuid].(callerDone := true)],
         active := s.active[q := ActiveAt(s, q) - {uuid}], erring := s.erring - {q})
    case Sweep(q, now) =>
      s.(active := s.active[q := set u | u in ActiveAt(s, q) && !(u in s.offers && s.offers[u].deadline < now)])
    case StartRecv(r, hosts) =>
      var s' := GetOrMake(s, hosts);
      s'.(recvs := s'.recvs[r := Recv(QueueFor(s.hostQueues, hosts, s.made), Waiting)])
    case Meet(r, uuid) =>
      s.(recvs := s.recvs[r := s.recvs[r].(phase := Returned(uuid))],
          offers := s.offers[uuid := s.offers[uuid].(sending := false, takenBy := Some(r))])
    case RecvGivesUp(r) => s.(recvs := s.recvs[r := s.recvs[r].(phase := GaveUp)])
    case SenderGivesUp(uuid) => s.(offers := s.offers[uuid := s.offers[uuid].(sending := false)])
  }

  ghost predicate Runs(s: State, steps: seq<Step>, s': State)
    decreases |steps|
  {
    if steps == [] then s == s'
    else Enabled(s, steps[0]) && Runs(Do(s, steps[0]), steps[1..], s')
  }

  const Start := State(map[], 0, map[], map[], map[], map[])

  predicate HasReturned(s: State, r: RecvId, uuid: string) {
    r in s.recvs && s.recvs[r].phase == Returned(uuid)
  }

  // An offer that a RecvOffer returned is no longer being sent, and is known to be taken by it.
  ghost predicate RecvsOk(recvs: map<RecvId, Recv>, offers: map<string, Offer>) {
    forall r :: r in recvs && recvs[r].phase.Returned? ==>
      var u := recvs[r].phase.uuid;
      u in offers && !offers[u].sending && offers[u].takenBy == Some(r)
  }

  // An offer is listed only by its own queue.
  ghost predicate ActiveOk(active: map<QueueId, set<string>>, offers: map<string, Offer>) {
    forall q, u :: q in active && u in active[q] ==> u in offers && offers[u].queue == q
  }

  // The lock guards the offer being failed, which is not done yet.
  ghost predicate ErringOk(erring: map<QueueId, string>, offers: map<string, Offer>) {
    forall q :: q in erring ==> erring[q] in offers && offers[erring[q]].queue == q && !offers[erring[q]].callerDone
  }

  ghost predicate Inv(s: State) {
    RecvsOk(s.recvs, s.offers) && ActiveOk(s.active, s.offers) && ErringOk(s.erring, s.offers)
  }

  ghost predicate KeepsBindings(hq: map<string, QueueId>, hq': map<string, QueueId>) {
    forall h :: h in hq ==> h in hq' && hq'[h] == hq[h]
  }

  ghost predicate KeepsEnds(offers: map<string, Offer>, offers': map<string, Offer>) {
    && offers.Keys <= offers'.Keys
    && (forall u :: u in offers && offers[u].callerDone ==>
          offers'[u].callerDone && CallerErr(offers'[u]) == CallerErr(offers[u]))
  }

  ghost predicate KeepsRecvs(recvs: map<RecvId, Recv>, recvs': map<RecvId, Recv>) {
    forall r :: r in recvs ==> r in recvs' && recvs'[r].queue == recvs[r].queue
  }

  // What every step keeps: bindings of hosts, where a RecvOffer waits, and what the caller's side ended with.
  ghost predicate Keeps(s: State, s': State) {
    KeepsBindings(s.hostQueues, s'.hostQueues) && KeepsRecvs(s.recvs, s'.recvs) && KeepsEnds(s.offers, s'.offers)
  }

  lemma GetOrMakeInv(s: State, hosts: seq<string>)
    requires Inv(s)
    ensures Inv(GetOrMake(s, hosts)) && Keeps(s, GetOrMake(s, hosts))
  {
  }

  lemma AddOfferInv(s: State, q: QueueId, uuid: string, deadline: nat)
    requires Inv(s) && uuid !in s.offers
    ensures Inv(AddOffer(s, q, uuid, deadline)) && Keeps(s, AddOffer(s, q, uuid, deadline))
  {
  }

  lemma ArriveInv(s: State, step: Step)
    requires Inv(s) && Enabled(s, step) && (step.SendInit? || step.StartRecv?)
    ensures Inv(Do(s, step)) && Keeps(s, Do(s, step))
  {
    match step {
      case SendInit(host, uuid, deadline) =>
        GetOrMakeInv(s, [host]);
        AddOfferInv(GetOrMake(s, [host]), QueueFor(s.hostQueues, [host], s.made), uuid, deadline);
      case StartRecv(_, hosts) => GetOrMakeInv(s, hosts);
    }
  }

  lemma EndCallerInv(s: State, step: Step)
    requires Inv(s) && Enabled(s, step) && (step.SendDone? || step.SetError? || step.CancelErring?)
    ensures Inv(Do(s, step)) && Keeps(s, Do(s, step))
  {
    if step.SendDone? || step.SetError? {
      assert s.offers[step.uuid].queue == s.hostQueues[step.host];
    }
  }

  lemma MiddleInv(s: State, step: Step)
    requires Inv(s) && Enabled(s, step) && (step.Meet? || step.RecvGivesUp? || step.SenderGivesUp? || step.Sweep?)
    ensures Inv(Do(s, step)) && Keeps(s, Do(s, step))
  {
  }

  lemma StepInv(s: State, step: Step)
    requires Inv(s) && Enabled(s, step)
    ensures Inv(Do(s, step)) && Keeps(s, Do(s, step))
  {
    if step.SendInit? || step.StartRecv? {
      ArriveInv(s, step);
    } else if step.SendDone? || step.SetError? || step.CancelErring? {
      EndCallerInv(s, step);
    } else {
      MiddleInv(s, step);
    }
  }

  lemma {:induction false} RunInv(s: State, steps: seq<Step>, s': State)
    requires Inv(s) && Runs(s, steps, s')
    ensures Inv(s') && Keeps(s, s')
    decreases |steps|
  {
    if steps != [] {
      StepInv(s, steps[0]);
      RunInv(Do(s, steps[0]), steps[1..], s');
    }
  }

  /** An offer reaches at most one RecvOffer. */
  lemma OfferReachesOneRecv(steps: seq<Step>, s: State, uuid: string, r: RecvId, r': RecvId)
    requires Runs(Start, steps, s)
    requires HasReturned(s, r, uuid) && HasReturned(s, r', uuid)
    ensures r == r'
  {
    RunInv(Start, steps, s);
  }

  /** Once bound, a host keeps its queue; once CallerDone is signalled, CallerErr never changes. */
  lemma BindingsAndErrorsAreFinal(steps0: seq<Step>, s: State, steps: seq<Step>, s': State)
    requires Runs(Start, steps0, s) && Runs(s, steps, s')
    ensures forall h :: h in s.hostQueues ==> h in s'.hostQueues && s'.hostQueues[h] == s.hostQueues[h]
    ensures forall u :: u in s.offers && s.offers[u].callerDone ==>
              u in s'.offers && s'.offers[u].callerDone && CallerErr(s'.offers[u]) == CallerErr(s.offers[u])
  {
    RunInv(Start, steps0, s);
    RunInv(s, steps, s');
  }

  // ----- The life of an offer -----

  predicate IsError(step: Step, uuid: string) {
    step.SetError? && step.uuid == uuid
  }

  predicate IsDone(step: Step, uuid: string) {
    step.SendDone? && step.uuid == uuid
  }

  // A sweep of a queue at a time past a deadline.
  predicate IsSweep(step: Step, q: QueueId, deadline: nat) {
    step.Sweep? && step.q == q && deadline < step.now
  }

  // The last error that was set on an offer.
  function ErrorIn(steps: seq<Step>, uuid: string): Option<string> {
    if steps == [] then None
    else if ErrorIn(steps[1..], uuid).Some? then ErrorIn(steps[1..], uuid)
    else if IsError(steps[0], uuid) then Some(steps[0].err)
    else None
  }

  predicate DoneIn(steps: seq<Step>, uuid: string) {
    exists i :: 0 <= i < |steps| && IsDone(steps[i], uuid)
  }

  predicate SweptIn(steps: seq<Step>, q: QueueId, deadline: nat) {
    exists i :: 0 <= i < |steps| && IsSweep(steps[i], q, deadline)
  }

  lemma FirstOrLater(steps: seq<Step>, uuid: string, q: QueueId, deadline: nat)
    requires steps != []
    ensures DoneIn(steps, uuid) <==> IsDone(steps[0], uuid) || DoneIn(steps[1..], uuid)
    ensures SweptIn(steps, q, deadline) <==> IsSweep(steps[0], q, deadline) || SweptIn(steps[1..], q, deadline)
  {
    assert forall i :: 0 < i < |steps| ==> steps[i] == steps[1..][i - 1];
  }

  // Queues in use were made.
  ghost predicate QueuesMade(s: State) {
    && (forall h :: h in s.hostQueues ==> s.hostQueues[h] < s.made)
    && (forall u :: u in s.offers ==> s.offers[u].queue < s.made)
  }

  lemma {:induction false} QueueForMade(hostQueues: map<string, QueueId>, hosts: seq<string>, made: nat)
    requires forall h :: h in hostQueues ==> hostQueues[h] < made
    ensures QueueFor(hostQueues, hosts, made) <= made
    decreases |hosts|
  {
    if hosts != [] {
      QueueForMade(hostQueues, hosts[..|hosts| - 1], made);
    }
  }

  lemma MadeStep(s: State, step: Step)
    requires QueuesMade(s) && Enabled(s, step)
    ensures QueuesMade(Do(s, step))
  {
    if step.SendInit? {
      QueueForMade(s.hostQueues, [step.host], s.made);
    } else if step.StartRecv? {
      QueueForMade(s.hostQueues, step.hosts, s.made);
    }
  }

  lemma {:induction false} MadeRun(s: State, steps: seq<Step>, s': State)
    requires QueuesMade(s) && Runs(s, steps, s')
    ensures QueuesMade(s')
    decreases |steps|
  {
    if steps != [] {
      MadeStep(s, steps[0]);
      MadeRun(Do(s, steps[0]), steps[1..], s');
    }
  }

  // An error set but not signalled yet holds the queue's lock; one that is signalled ended the offer.
  ghost predicate LifeOk(s: State, uuid: string)
    requires uuid in s.offers
  {
    var o := s.offers[uuid];
    && (o.callerErr.Some? && !o.callerDone ==> o.queue in s.erring && s.erring[o.queue] == uuid)
    && (o.queue in s.erring && s.erring[o.queue] == uuid ==> o.callerErr.Some?)
    && (o.callerErr.Some? && o.callerDone ==> uuid !in ActiveAt(s, o.queue))
  }

  ghost predicate OfferInv(s: State, uuid: string) {
    Inv(s) && QueuesMade(s) && uuid in s.offers && LifeOk(s, uuid)
  }

  // What a step does to the end of an offer's caller's side.
  lemma EndStep(s: State, step: Step, uuid: string)
    requires OfferInv(s, uuid) && Enabled(s, step)
    ensures var s', o := Do(s, step), s.offers[uuid];
            && uuid in s'.offers && s'.offers[uuid].queue == o.queue && s'.offers[uuid].deadline == o.deadline
            && s'.offers[uuid].callerErr == (if IsError(step, uuid) then Some(step.err) else o.callerErr)
            && (o.callerDone || IsDone(step, uuid) ==> s'.offers[uuid].callerDone)
            && (s'.offers[uuid].callerDone ==> o.callerDone || IsDone(step, uuid) || o.callerErr.Some?)
  {
    if step.SendDone? || step.SetError? {
      assert s.offers[step.uuid].queue == s.hostQueues[step.host];
    }
  }

  // And to its place in the queue's list.
  lemma ActiveStep(s: State, step: Step, uuid: string)
    requires OfferInv(s, uuid) && Enabled(s, step)
    ensures var s', o := Do(s, step), s.offers[uuid];
            uuid in ActiveAt(s', o.queue) <==>
            uuid in ActiveAt(s, o.queue) && !IsSweep(step, o.queue, o.deadline)
            && !(step.CancelErring? && s.erring[step.q] == uuid)
  {
  }

  lemma LifeStep(s: State, step: Step, uuid: string)
    requires OfferInv(s, uuid) && Enabled(s, step)
    ensures OfferInv(Do(s, step), uuid)
  {
    StepInv(s, step);
    MadeStep(s, step);
    EndStep(s, step, uuid);
    ActiveStep(s, step, uuid);
    if step.SendDone? || step.SetError? {
      assert s.offers[step.uuid].queue == s.hostQueues[step.host];
    }
  }

  lemma {:induction false} LifeRun(s: State, steps: seq<Step>, s': State, uuid: string)
    requires OfferInv(s, uuid) && Runs(s, steps, s')
    ensures OfferInv(s', uuid)
    ensures s'.offers[uuid].queue == s.offers[uuid].queue && s'.offers[uuid].deadline == s.offers[uuid].deadline
    ensures s'.offers[uuid].callerErr ==
            if ErrorIn(steps, uuid).Some? then ErrorIn(steps, uuid) else s.offers[uuid].callerErr
    ensures s.offers[uuid].callerDone || DoneIn(steps, uuid) ==> s'.offers[uuid].callerDone
    ensures s'.offers[uuid].callerDone ==>
              s.offers[uuid].callerDone || DoneIn(steps, uuid) || s'.offers[uuid].callerErr.Some?
    decreases |steps|
  {
    if steps != [] {
      LifeStep(s, steps[0], uuid);
      EndStep(s, steps[0], uuid);
      LifeRun(Do(s, steps[0]), steps[1..], s', uuid);
      FirstOrLater(steps, uuid, 0, 0);
    }
  }

  // As long as no error has ended it, an offer is listed until it is swept.
  lemma {:induction false} ActiveRun(s: State, steps: seq<Step>, s': State, uuid: string)
    requires OfferInv(s, uuid) && Runs(s, steps, s') && uuid in s'.offers
    requires !(s'.offers[uuid].callerErr.Some? && s'.offers[uuid].callerDone)
    ensures uuid in ActiveAt(s', s.offers[uuid].queue) <==>
            uuid in ActiveAt(s, s.offers[uuid].queue) && !SweptIn(steps, s.offers[uuid].queue, s.offers[uuid].deadline)
    decreases |steps|
  {
    if steps != [] {
      var s1 := Do(s, steps[0]);
      LifeStep(s, steps[0], uuid);
      EndStep(s, steps[0], uuid);
      ActiveStep(s, steps[0], uuid);
      LifeRun(s1, steps[1..], s', uuid);
      assert steps[0].CancelErring? && s.erring[steps[0].q] == uuid ==> s1.offers[uuid].callerDone;
      ActiveRun(s1, steps[1..], s', uuid);
      FirstOrLater(steps, uuid, s.offers[uuid].queue, s.offers[uuid].deadline);
    }
  }

  /** SendOfferDone is accepted for an offer exactly when it names a host of the offer's queue, nobody holds that
      queue's lock, and the queue still lists the offer; SendOfferError is so too, and has an effect if the offer
      is not done. */
  lemma EndAcceptedIff(steps: seq<Step>, s: State, host: string, uuid: string, err: string)
    requires Runs(Start, steps, s)
    ensures var listed := && uuid in s.offers && host in s.hostQueues && s.hostQueues[host] == s.offers[uuid].queue
                          && uuid in ActiveAt(s, s.offers[uuid].queue) && s.offers[uuid].queue !in s.erring;
            && (Enabled(s, SendDone(host, uuid)) <==> listed)
            && (Enabled(s, SetError(host, uuid, err)) <==> listed && !s.offers[uuid].callerDone)
  {
    RunInv(Start, steps, s);
  }

  /**
   * What becomes of an offer, over all interleavings. Its error is the one that SendOfferError set last, if any.
   * While nobody holds its queue's lock, CallerDone is signalled if and only if SendOfferDone or
   * SendOfferError came. Its queue lists it if and only if no error ended it and no sweep came after its deadline.
   */
  lemma OfferEndsAsSent(steps0: seq<Step>, s: State, host: string, uuid: string, deadline: nat, steps: seq<Step>,
    s': State)
    requires Runs(Start, steps0, s) && Enabled(s, SendInit(host, uuid, deadline))
    requires Runs(Do(s, SendInit(host, uuid, deadline)), steps, s')
    ensures uuid in s'.offers && s'.offers[uuid].callerErr == ErrorIn(steps, uuid)
    ensures s'.offers[uuid].queue !in s'.erring ==>
              (s'.offers[uuid].callerDone <==> DoneIn(steps, uuid) || ErrorIn(steps, uuid).Some?)
    ensures uuid in ActiveAt(s', s'.offers[uuid].queue) <==>
            && !(s'.offers[uuid].callerDone && ErrorIn(steps, uuid).Some?)
            && !SweptIn(steps, s'.offers[uuid].queue, deadline)
  {
    RunInv(Start, steps0, s);
    MadeRun(Start, steps0, s);
    var s1 := Do(s, SendInit(host, uuid, deadline));
    StepInv(s, SendInit(host, uuid, deadline));
    MadeStep(s, SendInit(host, uuid, deadline));
    assert uuid in ActiveAt(s1, s1.offers[uuid].queue);
    LifeRun(s1, steps, s', uuid);
    if !(s'.offers[uuid].callerErr.Some? && s'.offers[uuid].callerDone) {
      ActiveRun(s1, steps, s', uuid);
    }
  }

  // ----- Which offers a RecvOffer is in line for -----

  // The host is not bound yet, or bound to the queue that a RecvOffer for these hosts gets.
  predicate Shared(s: State, hosts: seq<string>, host: string) {
    host in s.hostQueues ==> s.hostQueues[host] == QueueFor(s.hostQueues, hosts, s.made)
  }

  // Where a RecvOffer waits, and where its hosts are bound, when it has begun.
  lemma RecvBegins(s: State, r: RecvId, hosts: seq<string>, host: string)
    requires Enabled(s, StartRecv(r, hosts)) && host in hosts
    ensures var s' := Do(s, StartRecv(r, hosts));
            && host in s'.hostQueues && r in s'.recvs
            && (s'.hostQueues[host] == s'.recvs[r].queue <==> Shared(s, hosts, host))
  {
    assert host in (set i | 0 <= i < |hosts| :: hosts[i]);
  }

  // Neither changes later.
  lemma BothStay(s: State, steps: seq<Step>, s': State, host: string, r: RecvId)
    requires Inv(s) && Runs(s, steps, s') && host in s.hostQueues && r in s.recvs
    ensures host in s'.hostQueues && s'.hostQueues[host] == s.hostQueues[host]
    ensures r in s'.recvs && s'.recvs[r].queue == s.recvs[r].queue
  {
    RunInv(s, steps, s');
  }

  // An offer to a host that is bound is sent on the host's queue.
  lemma OfferLands(s: State, host: string, uuid: string, deadline: nat, r: RecvId)
    requires Enabled(s, SendInit(host, uuid, deadline)) && host in s.hostQueues && IsWaiting(s, r)
    ensures Enabled(Do(s, SendInit(host, uuid, deadline)), Meet(r, uuid)) <==> s.hostQueues[host] == s.recvs[r].queue
  {
    assert QueueFor(s.hostQueues, [host], s.made) == s.hostQueues[host];
  }

  /**
   * A RecvOffer is in line for a later offer to one of its hosts if and only if that host was, when the
   * RecvOffer began, unbound or bound to the queue of the last of its hosts that was bound. So it is in line
   * for every later offer to its last host.
   */
  lemma OfferMeetsRecvIff(steps0: seq<Step>, s: State, r: RecvId, hosts: seq<string>, steps: seq<Step>, s': State,
    host: string, uuid: string, deadline: nat)
    requires Runs(Start, steps0, s) && Enabled(s, StartRecv(r, hosts)) && host in hosts
    requires Runs(Do(s, StartRecv(r, hosts)), steps, s') && Enabled(s', SendInit(host, uuid, deadline))
    requires IsWaiting(s', r)
    ensures Enabled(Do(s', SendInit(host, uuid, deadline)), Meet(r, uuid)) <==> Shared(s, hosts, host)
    ensures host == hosts[|hosts| - 1] ==> Shared(s, hosts, host)
  {
    var s1 := Do(s, StartRecv(r, hosts));
    assert Inv(s1) by {
      RunInv(Start, steps0, s);
      StepInv(s, StartRecv(r, hosts));
    }
    RecvBegins(s, r, hosts, host);
    BothStay(s1, steps, s', host, r);
    OfferLands(s', host, uuid, deadline, r);
  }

  /** Two hosts that were each bound first by an offer: a RecvOffer for both is not in line for the first. */
  lemma HostBoundApart() returns (steps: seq<Step>, s: State)
    ensures Runs(Start, steps, s) && !Shared(s, ["a", "b"], "a")
  {
    var s1 := Do(Start, SendInit("a", "1", 0));
    s := Do(s1, SendInit("b", "2", 0));
    steps := [SendInit("b", "2", 0)];
    assert steps[1..] == [] && Runs(s1, steps, s);
    steps := [SendInit("a", "1", 0)] + steps;
    assert steps[1..] == [SendInit("b", "2", 0)];
    assert s.hostQueues["a"] == 0 && s.hostQueues["b"] == 1;
  }
}
