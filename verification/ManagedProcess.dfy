/**
 * The life of a managed process that is not one-shot: a watchdog goroutine waits for the child and
 * restarts it by calling Start again, while any number of Stop calls may run. Two channels that
 * must each be closed at most once, killCh and managingCh, tie them together.
 *
 * Start takes the mutex, tests killCh and spawns in separate steps; Stop up to its unlock is one
 * step that needs the mutex free. Spawning, exiting and killing are nondeterministic.
 */
module ManagedProcess {
  import opened Wrappers

  // Where a run of `manage` is.
  datatype Watch = Waiting | Waited | Unexpected | Backoff | Restarting | Exiting

  // A Stop that does not get past managingCh returns early.
  datatype Why = AlreadyStopped | NoChild | KillFailed
  datatype StopCall = Killing | Awaiting | Passed | Returned(why: Why)

  // Who calls Start, and how far it is: holding the mutex, `checked` once killCh was found open.
  datatype Starter = Outside | Watchdog(w: nat)
  datatype Holder = Holder(who: Starter, checked: bool)

  // What Start comes to after that: an error, or a child with a new run of `manage`.
  datatype Outcome = Fails | Spawns(w: nat)

  // `cmd`: the current child. Closed channels are counted. `unwaited` and `exited` are sets of
  // children; `starts`, the successful Starts from outside, `lateSpawn`, and `gaveUp`, that onUnexpectedExit said
  // no or a restart failed, are history.
  datatype State = State(
    mu: Option<Holder>, cmd: Option<nat>, stopped: bool, killClosed: nat, managingClosed: nat,
    spawned: nat, unwaited: set<nat>, exited: set<nat>,
    watches: map<nat, Watch>, stops: map<nat, StopCall>, starts: nat, lateSpawn: bool, gaveUp: bool)

  datatype Step =
    | LockStart(who: Starter)
    | TestKillCh
    | FinishStart(outcome: Outcome)
    | ChildExits(child: nat)
    | WaitReturns(w: nat)
    | CheckKill(w: nat)
    | OnUnexpectedExit(w: nat, goOn: bool)
    | BackoffEnds(w: nat, ticked: bool)
    | ExitManage(w: nat)
    | StopCalled(t: nat)
    | KillReturns(t: nat, ok: bool)
    | ManagingChReceived(t: nat)

  predicate IsAt(s: State, w: nat, at: Watch) {
    w in s.watches && s.watches[w] == at
  }

  predicate StopAt(s: State, t: nat, at: StopCall) {
    t in s.stops && s.stops[t] == at
  }

  predicate Enabled(s: State, step: Step) {
    match step
    case LockStart(who) => s.mu == None && (who.Watchdog? ==> IsAt(s, who.w, Restarting))
    case TestKillCh =>
      s.mu.Some? && !s.mu.value.checked && (s.mu.value.who.Watchdog? ==> IsAt(s, s.mu.value.who.w, Restarting))
    case FinishStart(outcome) => s.mu.Some? && s.mu.value.checked && (outcome.Spawns? ==> outcome.w !in s.watches)
    case ChildExits(c) => c < s.spawned
    // Wait returns when the current child has exited, or at once if it was waited on before
    case WaitReturns(w) => IsAt(s, w, Waiting) && s.cmd.Some? && (s.cmd.value in s.exited || s.cmd.value !in s.unwaited)
    case CheckKill(w) => IsAt(s, w, Waited)
    case OnUnexpectedExit(w, _) => IsAt(s, w, Unexpected)
    case BackoffEnds(w, ticked) => IsAt(s, w, Backoff) && (ticked || s.killClosed > 0)
    case ExitManage(w) => IsAt(s, w, Exiting)
    case StopCalled(t) => t !in s.stops && s.mu == None
    case KillReturns(t, _) => StopAt(s, t, Killing)
    case ManagingChReceived(t) => StopAt(s, t, Awaiting) && s.managingClosed > 0
  }

  function To(s: State, w: nat, at: Watch): State {
    s.(watches := s.watches[w := at])
  }

  // Start returns an error: a watchdog gives up, a caller is told.
  function FailStart(s: State): State
    requires s.mu.Some?
  {
    var s' := s.(mu := None);
    if s.mu.value.who.Watchdog? then To(s', s.mu.value.who.w, Exiting) else s'
  }

  function Do(s: State, step: Step): State
    requires Enabled(s, step)
  {
    match step
    case LockStart(who) => s.(mu := Some(Holder(who, false)))
    case TestKillCh =>
      if s.killClosed == 0 then s.(mu := Some(s.mu.value.(checked := true)))
      else FailStart(s)
    case FinishStart(Fails) => FailStart(s).(gaveUp := s.gaveUp || s.mu.value.who.Watchdog?)
    case FinishStart(Spawns(w)) =>
      // after a restart the old run of `manage` ends without closing managingCh
      var who := s.mu.value.who;
      var watches := if who.Watchdog? then s.watches - {who.w} else s.watches;
      s.(mu := None, cmd := Some(s.spawned), spawned := s.spawned + 1, unwaited := s.unwaited + {s.spawned},
         watches := watches[w := Waiting], starts := if who.Outside? then s.starts + 1 else s.starts,
         lateSpawn := s.lateSpawn || s.killClosed > 0)
    case ChildExits(c) => s.(exited := s.exited + {c})
    case WaitReturns(w) => To(s, w, Waited).(unwaited := s.unwaited - {s.cmd.value})
    case CheckKill(w) => To(s, w, if s.killClosed > 0 then Exiting else Unexpected)
    case OnUnexpectedExit(w, goOn) => To(s, w, if goOn then Backoff else Exiting).(gaveUp := s.gaveUp || !goOn)
    case BackoffEnds(w, ticked) => To(s, w, if ticked then Restarting else Exiting)
    case ExitManage(w) => s.(watches := s.watches - {w}, managingClosed := s.managingClosed + 1)
    case StopCalled(t) =>
      if s.stopped then s.(stops := s.stops[t := Returned(AlreadyStopped)])
      else s.(killClosed := s.killClosed + 1, stopped := true,
          stops := s.stops[t := if s.cmd.None? then Returned(NoChild) else Killing])
    case KillReturns(t, ok) => s.(stops := s.stops[t := if ok then Awaiting else Returned(KillFailed)])
    case ManagingChReceived(t) => s.(stops := s.stops[t := Passed])
  }

  const New := State(None, None, false, 0, 0, 0, {}, {}, map[], map[], 0, false, false)

  // A Start from outside succeeds only if none has succeeded before.
  predicate OneStart(s: State, step: Step) {
    step.FinishStart? && step.outcome.Spawns? && s.mu.Some? && s.mu.value.who.Outside? ==> s.starts == 0
  }

  // A run with at most one successful Start from outside.
  ghost predicate Runs(s: State, steps: seq<Step>, s': State)
    decreases |steps|
  {
    if steps == [] then s == s'
    else
      && Enabled(s, steps[0])
      && OneStart(s, steps[0])
      && Runs(Do(s, steps[0]), steps[1..], s')
  }

  // Either there is nothing yet, or there is exactly one watchdog, which knows whether the current
  // child is waited on, or managingCh is closed.
  ghost predicate WatchOk(s: State) {
    if s.starts == 0 then s.cmd == None && s.watches == map[] && s.managingClosed == 0 && s.unwaited == {}
    else if s.managingClosed > 0 then s.watches == map[] && s.managingClosed == 1 && s.unwaited == {}
    else exists w, at :: OneWatch(s, w, at)
  }

  ghost predicate OneWatch(s: State, w: nat, at: Watch) {
    s.watches == map[w := at] && s.cmd.Some? && s.unwaited == if at == Waiting then {s.cmd.value} else {}
  }

  // The mutex keeps killCh open from the test to the spawn.
  ghost predicate MutexOk(s: State) {
    s.mu.Some? ==>
      && (s.mu.value.checked ==> s.killClosed == 0)
      && (s.mu.value.who.Watchdog? ==> IsAt(s, s.mu.value.who.w, Restarting))
  }

  ghost predicate Inv(s: State) {
    && WatchOk(s) && MutexOk(s)
    && s.killClosed == (if s.stopped then 1 else 0)
    && !s.lateSpawn
    && (forall t :: t in s.stops && s.stops[t] == Passed ==> s.managingClosed > 0)
    && (forall t :: t in s.stops ==> s.stopped)
  }

  predicate IsWatchStep(step: Step) {
    step.WaitReturns? || step.CheckKill? || step.OnUnexpectedExit? || step.BackoffEnds? || step.ExitManage?
  }

  lemma WatchInv(s: State, step: Step)
    requires Inv(s) && Enabled(s, step) && IsWatchStep(step)
    ensures Inv(Do(s, step))
  {
    var s', w := Do(s, step), step.w;
    assert w in s.watches;
    var w0, at :| OneWatch(s, w0, at);
    assert w0 == w;
    if step.ExitManage? {
      assert s'.watches == map[];
    } else {
      assert OneWatch(s', w, s'.watches[w]);
    }
  }

  lemma StartInv(s: State, step: Step)
    requires Inv(s) && Enabled(s, step) && OneStart(s, step) &&
               (step.LockStart? || step.TestKillCh? || step.FinishStart?)
    ensures Inv(Do(s, step))
  {
    var s' := Do(s, step);
    if s.starts > 0 && s.managingClosed == 0 {
      var w, at :| OneWatch(s, w, at);
      assert (step.FinishStart? && step.outcome.Spawns?) || OneWatch(s', w, at) || OneWatch(s', w, Exiting);
    }
    if step.FinishStart? && step.outcome.Spawns? {
      assert s'.watches == map[step.outcome.w := Waiting] && s'.unwaited == {s.spawned};
      assert OneWatch(s', step.outcome.w, Waiting);
    }
  }

  lemma OutsideInv(s: State, step: Step)
    requires Inv(s) && Enabled(s, step) &&
               (step.ChildExits? || step.StopCalled? || step.KillReturns? || step.ManagingChReceived?)
    ensures Inv(Do(s, step))
  {
    if s.starts > 0 && s.managingClosed == 0 {
      var w, at :| OneWatch(s, w, at);
      assert OneWatch(Do(s, step), w, at);
    }
  }

  lemma {:induction false} RunInv(s: State, steps: seq<Step>, s': State)
    requires Inv(s) && Runs(s, steps, s')
    ensures Inv(s')
    decreases |steps|
  {
    if steps != [] {
      var step := steps[0];
      if IsWatchStep(step) {
        WatchInv(s, step);
      } else if step.LockStart? || step.TestKillCh? || step.FinishStart? {
        StartInv(s, step);
      } else {
        OutsideInv(s, step);
      }
      RunInv(Do(s, step), steps[1..], s');
    }
  }

  /** With one successful external Start and any number of concurrent Stops: each channel is closed
      at most once, at most one child is not waited on, and no child is spawned once killCh is closed. */
  lemma LifecycleIsSafe(steps: seq<Step>, s: State)
    requires Runs(New, steps, s)
    ensures s.managingClosed <= 1 && s.killClosed <= 1
    ensures |s.unwaited| <= 1
    ensures !s.lateSpawn
  {
    RunInv(New, steps, s);
  }

  /** A Stop that gets past managingCh returns only after the last child was waited on; from then on
      no child ever runs again. */
  lemma StopWaitsForLastChild(steps: seq<Step>, s: State, t: nat, later: seq<Step>, s': State)
    requires Runs(New, steps, s) && StopAt(s, t, Passed) && Runs(s, later, s')
    ensures s.unwaited == {} && s'.unwaited == {} && s'.spawned == s.spawned
  {
    RunInv(New, steps, s);
    NoMoreChildren(s, later, s');
  }

  lemma {:induction false} NoMoreChildren(s: State, steps: seq<Step>, s': State)
    requires Inv(s) && s.killClosed > 0 && s.managingClosed > 0 && Runs(s, steps, s')
    ensures s'.unwaited == {} && s'.spawned == s.spawned
    decreases |steps|
  {
    if steps != [] {
      RunInv(s, [steps[0]], Do(s, steps[0]));
      NoMoreChildren(Do(s, steps[0]), steps[1..], s');
    }
  }

  // ----- More than one external Start -----

  ghost predicate RunsFreely(s: State, steps: seq<Step>, s': State)
    decreases |steps|
  {
    if steps == [] then s == s'
    else Enabled(s, steps[0]) && RunsFreely(Do(s, steps[0]), steps[1..], s')
  }

  lemma {:induction false} Extend(s: State, steps: seq<Step>, mid: State, step: Step)
    returns (more: seq<Step>, next: State)
    requires RunsFreely(s, steps, mid) && Enabled(mid, step)
    ensures next == Do(mid, step) && more == steps + [step] && RunsFreely(s, more, next)
    decreases |steps|
  {
    more, next := steps + [step], Do(mid, step);
    if steps != [] {
      var rest, end := Extend(Do(s, steps[0]), steps[1..], mid, step);
      assert more[1..] == rest;
    }
  }

  // However many Starts come from outside, each leaves one watchdog, or managingCh closed once more.
  ghost predicate FreeInv(s: State) {
    && |s.watches| + s.managingClosed == s.starts
    && (s.watches != map[] ==> s.cmd.Some?)
    && (s.cmd.Some? ==> s.cmd.value < s.spawned)
    && MutexOk(s)
    && s.killClosed == (if s.stopped then 1 else 0)
    && !s.lateSpawn
  }

  lemma RemoveOne(watches: map<nat, Watch>, w: nat)
    requires w in watches
    ensures |watches - {w}| == |watches| - 1
  {
    assert (watches - {w}).Keys == watches.Keys - {w};
    assert |watches.Keys - {w}| == |watches.Keys| - 1;
  }

  lemma SetOne(watches: map<nat, Watch>, w: nat, at: Watch)
    ensures |watches[w := at]| == |watches| + if w in watches then 0 else 1
  {
    assert watches[w := at].Keys == watches.Keys + {w};
  }

  lemma FreeStepInv(s: State, step: Step)
    requires FreeInv(s) && Enabled(s, step)
    ensures FreeInv(Do(s, step))
  {
    var s' := Do(s, step);
    if step.ExitManage? {
      RemoveOne(s.watches, step.w);
    } else if IsWatchStep(step) {
      SetOne(s.watches, step.w, s'.watches[step.w]);
    } else if step.FinishStart? && step.outcome.Spawns? {
      var who := s.mu.value.who;
      if who.Watchdog? {
        RemoveOne(s.watches, who.w);
        SetOne(s.watches - {who.w}, step.outcome.w, Waiting);
      } else {
        SetOne(s.watches, step.outcome.w, Waiting);
      }
    } else if s.mu.Some? && s.mu.value.who.Watchdog? {
      SetOne(s.watches, s.mu.value.who.w, Exiting);
    }
  }

  lemma {:induction false} FreeRunInv(s: State, steps: seq<Step>, s': State)
    requires FreeInv(s) && RunsFreely(s, steps, s')
    ensures FreeInv(s') && s.starts <= s'.starts
    decreases |steps|
  {
    if steps != [] {
      FreeStepInv(s, steps[0]);
      FreeRunInv(Do(s, steps[0]), steps[1..], s');
    }
  }

  // A step of the run under construction.
  lemma Prepend(s: State, step: Step, rest: seq<Step>, s': State) returns (steps: seq<Step>)
    requires Enabled(s, step) && RunsFreely(Do(s, step), rest, s')
    ensures steps == [step] + rest && RunsFreely(s, steps, s')
  {
    steps := [step] + rest;
    assert steps[1..] == rest;
  }

  // How far a watchdog is from giving up.
  function Distance(s: State, w: nat): nat {
    if w !in s.watches then 0
    else
      match s.watches[w]
      case Exiting => 0
      case Restarting =>
        (match s.mu
         case None => 3
         case Some(holder) => (if holder.who == Watchdog(w) then 0 else 3) + (if holder.checked then 1 else 2))
      case Backoff => 9
      case Unexpected => 10
      case Waited => 11
      case Waiting => 12 + if s.cmd.Some? && s.cmd.value in s.exited then 0 else 1
  }

  // The next step of the watchdog, or of whoever holds the mutex it needs; no Start succeeds.
  function GiveUp(s: State, w: nat): Step
    requires w in s.watches && s.watches[w] != Exiting && s.cmd.Some?
  {
    match s.watches[w]
    case Waiting => if s.cmd.value in s.exited then WaitReturns(w) else ChildExits(s.cmd.value)
    case Waited => CheckKill(w)
    case Unexpected => OnUnexpectedExit(w, false)
    case Backoff => BackoffEnds(w, true)
    case Restarting =>
      if s.mu.None? then LockStart(Watchdog(w)) else if s.mu.value.checked then FinishStart(Fails) else TestKillCh
    case Exiting => ExitManage(w)
  }

  lemma GiveUpOk(s: State, w: nat)
    requires FreeInv(s) && w in s.watches && s.watches[w] != Exiting
    ensures Enabled(s, GiveUp(s, w))
    ensures var s' := Do(s, GiveUp(s, w)); w in s'.watches && Distance(s', w) < Distance(s, w)
    ensures Do(s, GiveUp(s, w)).starts == s.starts && Do(s, GiveUp(s, w)).managingClosed == s.managingClosed
  {
  }

  // Any watchdog can be brought to close managingCh.
  lemma {:induction false} OneMoreClose(s: State, w: nat) returns (steps: seq<Step>, s': State)
    requires FreeInv(s) && w in s.watches
    ensures RunsFreely(s, steps, s') && FreeInv(s') && s'.starts == s.starts &&
              s'.managingClosed == s.managingClosed + 1
    decreases Distance(s, w)
  {
    if s.watches[w] == Exiting {
      s' := Do(s, ExitManage(w));
      FreeStepInv(s, ExitManage(w));
      steps := Prepend(s, ExitManage(w), [], s');
    } else {
      GiveUpOk(s, w);
      FreeStepInv(s, GiveUp(s, w));
      steps, s' := OneMoreClose(Do(s, GiveUp(s, w)), w);
      steps := Prepend(s, GiveUp(s, w), steps, s');
    }
  }

  lemma {:induction false} Joined(a: State, first: seq<Step>, b: State, second: seq<Step>, c: State)
    requires RunsFreely(a, first, b) && RunsFreely(b, second, c)
    ensures RunsFreely(a, first + second, c)
    decreases |first|
  {
    if first == [] {
      assert first + second == second;
    } else {
      assert (first + second)[1..] == first[1..] + second;
      Joined(Do(a, first[0]), first[1..], b, second, c);
    }
  }

  // With two Starts from outside, managingCh can always be closed a second time.
  lemma {:induction false} ClosesTwice(s: State) returns (steps: seq<Step>, s': State)
    requires FreeInv(s) && s.starts >= 2
    ensures RunsFreely(s, steps, s') && s'.starts == s.starts && s'.managingClosed >= 2
    decreases 2 - s.managingClosed
  {
    steps, s' := [], s;
    if s.managingClosed < 2 {
      assert s.watches != map[];
      var w :| w in s.watches;
      var first, mid := OneMoreClose(s, w);
      var second;
      second, s' := ClosesTwice(mid);
      Joined(s, first, mid, second, s');
      steps := first + second;
    }
  }

  // No continuation closes managingCh twice, as long as no further Start from outside succeeds.
  ghost predicate StaysClosedOnce(s: State) {
    forall more, s' :: RunsFreely(s, more, s') && s'.starts == s.starts ==> s'.managingClosed <= 1
  }

  /**
   * Whatever has happened so far: managingCh is closed at most once in every continuation without
   * another successful Start from outside, if and only if at most one has succeeded. In every run
   * killCh is closed at most once, and no child is spawned after that.
   */
  lemma ClosedOnceIffOneStart(steps: seq<Step>, s: State)
    requires RunsFreely(New, steps, s)
    ensures StaysClosedOnce(s) <==> s.starts <= 1
    ensures s.killClosed <= 1 && !s.lateSpawn
  {
    FreeRunInv(New, steps, s);
    if s.starts <= 1 {
      forall more, s' | RunsFreely(s, more, s') && s'.starts == s.starts
        ensures s'.managingClosed <= 1
      {
        FreeRunInv(s, more, s');
      }
    } else {
      var more, s' := ClosesTwice(s);
      assert RunsFreely(s, more, s') && s'.starts == s.starts && s'.managingClosed > 1;
    }
  }

  lemma TwoStarts() returns (r: seq<Step>, s: State)
    ensures RunsFreely(New, r, s)
    ensures var watches := map[0 := Waiting, 1 := Waiting];
            s == State(None, Some(1), false, 0, 0, 2, {0, 1}, {}, watches, map[], 2, false, false)
  {
    assert RunsFreely(New, [], New);
    r, s := Extend(New, [], New, LockStart(Outside));
    r, s := Extend(New, r, s, TestKillCh);
    r, s := Extend(New, r, s, FinishStart(Spawns(0)));
    r, s := Extend(New, r, s, LockStart(Outside));
    r, s := Extend(New, r, s, TestKillCh);
    r, s := Extend(New, r, s, FinishStart(Spawns(1)));
    assert s.unwaited == {0, 1} && s.watches == map[0 := Waiting, 1 := Waiting];
  }

  /** What else a second successful external Start breaks: two watchdogs wait on the second child, the
      first child is never waited on, and managingCh is closed twice. */
  lemma TwoStartsCloseTwice()
    ensures exists steps, s :: RunsFreely(New, steps, s) && s.managingClosed == 2 && 0 in s.unwaited
  {
    var r, s := TwoStarts();
    r, s := Extend(New, r, s, StopCalled(0));
    r, s := Extend(New, r, s, ChildExits(1));
    r, s := Extend(New, r, s, WaitReturns(0));
    r, s := Extend(New, r, s, WaitReturns(1));
    r, s := Extend(New, r, s, CheckKill(0));
    r, s := Extend(New, r, s, CheckKill(1));
    r, s := Extend(New, r, s, ExitManage(0));
    r, s := Extend(New, r, s, ExitManage(1));
    assert s.managingClosed == 2 && 0 in s.unwaited;
  }

  // ----- When a child is not restarted -----

  // With killCh open, a watchdog ends, or has ended, only after somebody gave up.
  ghost predicate KeptUp(s: State) {
    s.killClosed == 0 && (s.managingClosed > 0 || exists w :: IsAt(s, w, Exiting)) ==> s.gaveUp
  }

  lemma KeptUpStep(s: State, step: Step)
    requires KeptUp(s) && Enabled(s, step)
    ensures KeptUp(Do(s, step))
  {
    var s' := Do(s, step);
    if w :| IsAt(s', w, Exiting) {
      assert IsAt(s, w, Exiting) || s'.gaveUp || s'.killClosed > 0;
    }
  }

  lemma {:induction false} KeptUpRun(s: State, steps: seq<Step>, s': State)
    requires KeptUp(s) && RunsFreely(s, steps, s')
    ensures KeptUp(s')
    decreases |steps|
  {
    if steps != [] {
      KeptUpStep(s, steps[0]);
      KeptUpRun(Do(s, steps[0]), steps[1..], s');
    }
  }

  /** However many Starts and Stops there are: as long as killCh is open, managingCh is closed only after
      onUnexpectedExit said no or a restart failed. */
  lemma RestartedUnlessGivenUp(steps: seq<Step>, s: State)
    requires RunsFreely(New, steps, s) && s.killClosed == 0 && s.managingClosed > 0
    ensures s.gaveUp
  {
    KeptUpRun(New, steps, s);
  }

  // A watchdog that has not taken an exit for unexpected, or is gone.
  predicate Expecting(s: State, w: nat) {
    w in s.watches ==> s.watches[w] in {Waiting, Waited, Exiting}
  }

  /** An exit that a watchdog notices after killCh was closed is never taken for unexpected. */
  lemma {:induction false} KilledIsExpected(s: State, steps: seq<Step>, s': State, w: nat)
    requires FreeInv(s) && s.killClosed > 0 && Expecting(s, w) && RunsFreely(s, steps, s')
    ensures forall i :: 0 <= i < |steps| ==> !(steps[i].OnUnexpectedExit? && steps[i].w == w)
    decreases |steps|
  {
    if steps != [] {
      FreeStepInv(s, steps[0]);
      KilledIsExpected(Do(s, steps[0]), steps[1..], s', w);
      assert forall i :: 0 < i < |steps| ==> steps[i] == steps[1..][i - 1];
    }
  }

  // The same from the beginning of a run.
  lemma StopIsExpected(steps0: seq<Step>, s: State, steps: seq<Step>, s': State, w: nat)
    requires RunsFreely(New, steps0, s) && s.killClosed > 0 && Expecting(s, w) && RunsFreely(s, steps, s')
    ensures forall i :: 0 <= i < |steps| ==> !(steps[i].OnUnexpectedExit? && steps[i].w == w)
  {
    FreeRunInv(New, steps0, s);
    KilledIsExpected(s, steps, s', w);
  }

  // ----- When Stop does not wait -----

  // A Stop that found no child: there never is one. One that came second: there is a first.
  ghost predicate StopsOk(s: State) {
    && (forall t :: t in s.stops ==> s.stopped)
    && (forall t :: t in s.stops && s.stops[t] == Returned(NoChild) ==> s.cmd == None)
    && (s.stopped ==> exists t :: t in s.stops && s.stops[t] != Returned(AlreadyStopped))
  }

  lemma StopsStep(s: State, step: Step)
    requires FreeInv(s) && StopsOk(s) && Enabled(s, step)
    ensures StopsOk(Do(s, step))
  {
    var s' := Do(s, step);
    if s.stopped {
      var t :| t in s.stops && s.stops[t] != Returned(AlreadyStopped);
      assert t in s'.stops && s'.stops[t] != Returned(AlreadyStopped);
    } else if step.StopCalled? {
      assert step.t in s'.stops && s'.stops[step.t] != Returned(AlreadyStopped);
    }
  }

  predicate IsFailedKill(step: Step, t: nat) {
    step == KillReturns(t, false)
  }

  ghost predicate KillFailedIn(steps: seq<Step>, t: nat) {
    exists i :: 0 <= i < |steps| && IsFailedKill(steps[i], t)
  }

  lemma {:induction false} StopsRun(s: State, steps: seq<Step>, s': State, t: nat)
    requires FreeInv(s) && StopsOk(s) && RunsFreely(s, steps, s')
    ensures StopsOk(s')
    ensures StopAt(s', t, Returned(KillFailed)) ==> StopAt(s, t, Returned(KillFailed)) || KillFailedIn(steps, t)
    decreases |steps|
  {
    if steps != [] {
      var s1 := Do(s, steps[0]);
      FreeStepInv(s, steps[0]);
      StopsStep(s, steps[0]);
      StopsRun(s1, steps[1..], s', t);
      assert forall i :: 0 < i < |steps| ==> steps[i] == steps[1..][i - 1];
      assert StopAt(s1, t, Returned(KillFailed)) ==> StopAt(s, t, Returned(KillFailed)) || IsFailedKill(steps[0], t);
    }
  }

  /** A Stop returns without having waited only if there is no child and never will be, if another Stop came first,
      or if killing the child failed. */
  lemma StopReturnsEarlyOnlyIf(steps: seq<Step>, s: State, t: nat)
    requires RunsFreely(New, steps, s) && t in s.stops && s.stops[t].Returned?
    ensures match s.stops[t].why
            case NoChild => s.cmd == None
            case AlreadyStopped => exists t' :: t' in s.stops && t' != t && s.stops[t'] != Returned(AlreadyStopped)
            case KillFailed => KillFailedIn(steps, t)
  {
    StopsRun(New, steps, s, t);
  }
}
