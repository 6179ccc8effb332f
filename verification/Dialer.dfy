/**
 * The cached dialer: connections shared by key, counted by reference, dialed outside the lock and
 * published after a second look.
 */
module RefCount {
  import opened Wrappers

  // Reference counting as a function of the count; None is a panic. -1 marks a released value.
  function RefStep(count: int): Option<int> {
    if count == -1 then None else Some(count + 1)
  }

  function DerefStep(count: int): Option<(int, bool)> {
    if count <= 0 then None
    else if count == 1 then Some((-1, true))
    else Some((count - 1, false))
  }

  class RefCountedValue<T> {
    var count: int
    const val: T

    constructor (v: T)
      ensures count == 0 && val == v
    {
      count, val := 0, v;
    }

    /** None stands for the panic on a released value. */
    method Ref() returns (r: Option<T>)
      modifies this
      ensures RefStep(old(count)).None? ==> r == None && count == old(count)
      ensures RefStep(old(count)).Some? ==> r == Some(val) && count == RefStep(old(count)).value
    {
      if count == -1 {
        return None;
      }
      count := count + 1;
      return Some(val);
    }

    method Deref() returns (unreferenced: Option<bool>)
      modifies this
      ensures DerefStep(old(count)).None? ==> unreferenced == None && count == old(count)
      ensures DerefStep(old(count)).Some? ==>
                unreferenced.Some? && (count, unreferenced.value) == DerefStep(old(count)).value
    {
      if count <= 0 {
        return None;
      }
      count := count - 1;
      if count == 0 {
        count := -1;
        return Some(true);
      }
      return Some(false);
    }
  }
}

module Dialer {
  import opened Wrappers
  import opened RefCount

  type Key = string
  type Wid = nat   // a dialed connection together with its reference-counting wrapper
  type Did = nat   // a call of DialFunc
  type Hid = nat   // a handle on a connection, as DialFunc returns it

  // Handle.Close: dereference once; the last one closes the connection, then takes it out of the cache.
  datatype Progress = Open | Closing | Removing | Done

  // History: what has become of a connection, and which call or handle is at work on it.
  datatype Stage = Unpublished(d: Did) | Live | Dropping(h: Hid) | Unpublishing(h: Hid) | Dead

  datatype Wrapper = Wrapper(key: Key, count: int, closes: nat, handles: map<Hid, Progress>, stage: Stage)

  // A call of DialFunc for a key, up to what it returned: a handle on a connection, or an error.
  datatype Got = Got(w: Wid, h: Hid)
  datatype Dial =
    | Found(key: Key, w: Wid) | Dialing(key: Key) | Dialed(key: Key, w: Wid) | Returned(key: Key, got: Option<Got>)

  datatype State = State(conns: map<Key, Wid>, wrappers: map<Wid, Wrapper>, dials: map<Did, Dial>, panicked: bool)

  datatype Step =
    | Lookup(d: Did, key: Key)
    | RefHit(d: Did, h: Hid)
    | DialFails(d: Did)
    | DialSucceeds(d: Did, w: Wid)
    | Publish(d: Did, h: Hid, closeFails: bool)
    | Deref(w: Wid, h: Hid)
    | CloseConn(w: Wid, h: Hid)
    | Remove(w: Wid, h: Hid)

  predicate HandleAt(s: State, w: Wid, h: Hid, at: Progress) {
    w in s.wrappers && h in s.wrappers[w].handles && s.wrappers[w].handles[h] == at
  }

  predicate NewHandle(s: State, w: Wid, h: Hid) {
    w in s.wrappers && h !in s.wrappers[w].handles
  }

  predicate HasDialed(s: State, d: Did) {
    d in s.dials && s.dials[d].Dialed? && s.dials[d].w in s.wrappers
  }

  predicate Enabled(s: State, step: Step) {
    && !s.panicked
    && match step
       case Lookup(d, _) => d !in s.dials
       case RefHit(d, h) => d in s.dials && s.dials[d].Found? && NewHandle(s, s.dials[d].w, h)
       case DialFails(d) => d in s.dials && s.dials[d].Dialing?
       case DialSucceeds(d, w) => d in s.dials && s.dials[d].Dialing? && w !in s.wrappers
       case Publish(d, h, _) =>
         && HasDialed(s, d)
         && NewHandle(s, if s.dials[d].key in s.conns then s.conns[s.dials[d].key] else s.dials[d].w, h)
       case Deref(w, h) => HandleAt(s, w, h, Open)
       case CloseConn(w, h) => HandleAt(s, w, h, Closing)
       case Remove(w, h) => HandleAt(s, w, h, Removing)
  }

  function Set(s: State, w: Wid, wr: Wrapper): State {
    s.(wrappers := s.wrappers[w := wr])
  }

  // A reference taken on a connection: one more open handle.
  function Refed(wr: Wrapper, h: Hid): Option<Wrapper> {
    var count := RefStep(wr.count);
    if count.None? then None else Some(wr.(count := count.value, handles := wr.handles[h := Open]))
  }

  function Take(s: State, w: Wid, h: Hid): State
    requires w in s.wrappers
  {
    var wr := Refed(s.wrappers[w], h);
    if wr.None? then s.(panicked := true) else Set(s, w, wr.value)
  }

  // The first Close of a handle gives its reference back.
  function Derefed(wr: Wrapper, h: Hid): Option<Wrapper> {
    var next := DerefStep(wr.count);
    if next.None? then None
    else if next.value.1 then
      Some(wr.(count := next.value.0, handles := wr.handles[h := Closing], stage := Dropping(h)))
    else Some(wr.(count := next.value.0, handles := wr.handles[h := Done]))
  }

  function ConnClosed(wr: Wrapper, h: Hid): Wrapper {
    wr.(closes := wr.closes + 1, handles := wr.handles[h := Removing], stage := Unpublishing(h))
  }

  function Return(s: State, d: Did, got: Option<Got>): map<Did, Dial>
    requires d in s.dials
  {
    s.dials[d := Returned(s.dials[d].key, got)]
  }

  // A dial that lost the race closes its own connection.
  function Lose(s: State, d: Did, got: Option<Got>): State
    requires HasDialed(s, d)
  {
    var w := s.dials[d].w;
    Set(s, w, s.wrappers[w].(closes := s.wrappers[w].closes + 1, stage := Dead)).(dials := Return(s, d, got))
  }

  // A dial that won puts its connection into the cache and takes the first reference.
  function Publishing(s: State, d: Did, h: Hid): State
    requires HasDialed(s, d)
  {
    var w := s.dials[d].w;
    var live := Set(s, w, s.wrappers[w].(stage := Live));
    Take(live.(conns := s.conns[s.dials[d].key := w], dials := Return(s, d, Some(Got(w, h)))), w, h)
  }

  function Removed(s: State, w: Wid, h: Hid): State
    requires w in s.wrappers
  {
    var wr := s.wrappers[w];
    Set(s, w, wr.(handles := wr.handles[h := Done], stage := Dead)).(conns := s.conns - {wr.key})
  }

  function Do(s: State, step: Step): State
    requires Enabled(s, step)
  {
    match step
    case Lookup(d, key) => s.(dials := s.dials[d := if key in s.conns then Found(key, s.conns[key]) else Dialing(key)])
    case RefHit(d, h) => Take(s.(dials := Return(s, d, Some(Got(s.dials[d].w, h)))), s.dials[d].w, h)
    case DialFails(d) => s.(dials := Return(s, d, None))
    case DialSucceeds(d, w) =>
      var key := s.dials[d].key;
      Set(s, w, Wrapper(key, 0, 0, map[], Unpublished(d))).(dials := s.dials[d := Dialed(key, w)])
    case Publish(d, h, closeFails) =>
      var key := s.dials[d].key;
      if key in s.conns then
        // someone else was first: close this one, use theirs
        if closeFails then Lose(s, d, None)
        else Take(Lose(s, d, Some(Got(s.conns[key], h))), s.conns[key], h)
      else Publishing(s, d, h)
    case Deref(w, h) =>
      var wr := Derefed(s.wrappers[w], h);
      if wr.None? then s.(panicked := true) else Set(s, w, wr.value)
    case CloseConn(w, h) => Set(s, w, ConnClosed(s.wrappers[w], h))
    case Remove(w, h) => Removed(s, w, h)
  }

  const Start := State(map[], map[], map[], false)

  ghost predicate Runs(s: State, steps: seq<Step>, s': State)
    decreases |steps|
  {
    if steps == [] then s == s'
    else Enabled(s, steps[0]) && Runs(Do(s, steps[0]), steps[1..], s')
  }

  // ----- The invariant -----

  function OpenHandles(wr: Wrapper): set<Hid> {
    set h | h in wr.handles && wr.handles[h] == Open
  }

  predicate Cached(conns: map<Key, Wid>, w: Wid, key: Key) {
    key in conns && conns[key] == w
  }

  ghost predicate AllDoneBut(handles: map<Hid, Progress>, h: Hid, at: Progress) {
    && h in handles && handles[h] == at
    && forall h2 :: h2 in handles && h2 != h ==> handles[h2] == Done
  }

  // One connection: its count, its closes, its handles and its place in the cache follow from its stage.
  ghost predicate WrapperOk(wr: Wrapper, cached: bool) {
    match wr.stage
    case Unpublished(_) => wr.count == 0 && wr.closes == 0 && !cached && wr.handles == map[]
    case Live =>
      && wr.count == |OpenHandles(wr)| > 0 && wr.closes == 0 && cached
      && forall h :: h in wr.handles ==> wr.handles[h] in {Open, Done}
    case Dropping(h) => wr.count == -1 && wr.closes == 0 && cached && AllDoneBut(wr.handles, h, Closing)
    case Unpublishing(h) => wr.count == -1 && wr.closes == 1 && cached && AllDoneBut(wr.handles, h, Removing)
    case Dead =>
      && wr.count == (if wr.handles == map[] then 0 else -1) && wr.closes == 1 && !cached
      && forall h :: h in wr.handles ==> wr.handles[h] == Done
  }

  ghost predicate WrappersOk(conns: map<Key, Wid>, wrappers: map<Wid, Wrapper>) {
    forall w :: w in wrappers ==> WrapperOk(wrappers[w], Cached(conns, w, wrappers[w].key))
  }

  // A connection that DialFunc has seen in the cache was referenced once; one not yet published is
  // known to its dial only.
  ghost predicate DialOk(d: Did, dial: Dial, wrappers: map<Wid, Wrapper>) {
    && (dial.Found? ==> dial.w in wrappers && wrappers[dial.w].count != 0)
    && (dial.Dialed? ==>
         dial.w in wrappers && wrappers[dial.w].key == dial.key && wrappers[dial.w].stage == Unpublished(d))
  }

  ghost predicate DialsOk(dials: map<Did, Dial>, wrappers: map<Wid, Wrapper>) {
    forall d :: d in dials ==> DialOk(d, dials[d], wrappers)
  }

  ghost predicate UnpublishedOk(dials: map<Did, Dial>, wrappers: map<Wid, Wrapper>) {
    forall w :: w in wrappers && wrappers[w].stage.Unpublished? ==>
      wrappers[w].stage.d in dials && dials[wrappers[w].stage.d] == Dialed(wrappers[w].key, w)
  }

  ghost predicate CacheOk(conns: map<Key, Wid>, wrappers: map<Wid, Wrapper>) {
    forall key :: key in conns ==> conns[key] in wrappers && wrappers[conns[key]].key == key
  }

  ghost predicate Inv(s: State) {
    && CacheOk(s.conns, s.wrappers) && WrappersOk(s.conns, s.wrappers)
    && DialsOk(s.dials, s.wrappers) && UnpublishedOk(s.dials, s.wrappers)
  }

  lemma RefOk(wr: Wrapper, h: Hid)
    requires WrapperOk(wr, true) && h !in wr.handles
    ensures wr.stage == Live ==> Refed(wr, h).Some? && WrapperOk(Refed(wr, h).value, true)
    ensures wr.stage != Live ==> Refed(wr, h).None?
    ensures wr.stage == Live <==> OpenHandles(wr) != {}
  {
    if wr.stage == Live {
      assert OpenHandles(Refed(wr, h).value) == OpenHandles(wr) + {h};
    }
  }

  lemma DerefOk(wr: Wrapper, h: Hid, cached: bool)
    requires WrapperOk(wr, cached) && h in wr.handles && wr.handles[h] == Open
    ensures cached && wr.count != 0 && Derefed(wr, h).Some? && Derefed(wr, h).value.count != 0
    ensures WrapperOk(Derefed(wr, h).value, cached)
  {
    assert wr.stage == Live && h in OpenHandles(wr);
    var open := OpenHandles(wr) - {h};
    if wr.count == 1 {
      assert |open| == 0;
      forall h2 | h2 in wr.handles && h2 != h
        ensures wr.handles[h2] == Done
      {
        assert h2 !in open;
      }
    } else {
      assert OpenHandles(Derefed(wr, h).value) == open;
    }
  }

  lemma TakeInv(s: State, w: Wid, h: Hid)
    requires Inv(s) && w in s.wrappers && s.wrappers[w].count != 0 && h !in s.wrappers[w].handles
    ensures Inv(Take(s, w, h))
    ensures s.wrappers[w].stage == Live <==> OpenHandles(s.wrappers[w]) != {}
    ensures Take(s, w, h).panicked <==> s.panicked || OpenHandles(s.wrappers[w]) == {}
  {
    var wr := s.wrappers[w];
    if Cached(s.conns, w, wr.key) {
      RefOk(wr, h);
    }
  }

  lemma DialInv(s: State, step: Step)
    requires Inv(s) && Enabled(s, step) && (step.Lookup? || step.DialFails? || step.DialSucceeds?)
    ensures Inv(Do(s, step)) && !Do(s, step).panicked
  {
  }

  lemma LoseInv(s: State, d: Did, got: Option<Got>)
    requires Inv(s) && HasDialed(s, d)
    ensures Inv(Lose(s, d, got)) && Lose(s, d, got).panicked == s.panicked
  {
  }

  lemma FirstRefOk(wr: Wrapper, h: Hid)
    requires WrapperOk(wr, false) && wr.stage.Unpublished?
    ensures Refed(wr.(stage := Live), h).Some? && WrapperOk(Refed(wr.(stage := Live), h).value, true)
  {
    assert OpenHandles(Refed(wr.(stage := Live), h).value) == {h};
  }

  lemma PublishedWrappers(conns: map<Key, Wid>, wrappers: map<Wid, Wrapper>, w: Wid, wr: Wrapper)
    requires CacheOk(conns, wrappers) && WrappersOk(conns, wrappers)
    requires w in wrappers && wr.key == wrappers[w].key && wr.key !in conns && WrapperOk(wr, true)
    ensures CacheOk(conns[wr.key := w], wrappers[w := wr]) && WrappersOk(conns[wr.key := w], wrappers[w := wr])
  {
    forall w2 | w2 in wrappers && w2 != w
      ensures Cached(conns[wr.key := w], w2, wrappers[w2].key) == Cached(conns, w2, wrappers[w2].key)
    {
    }
  }

  lemma PublishedDials(dials: map<Did, Dial>, wrappers: map<Wid, Wrapper>, d: Did, wr: Wrapper, over: Dial)
    requires DialsOk(dials, wrappers) && UnpublishedOk(dials, wrappers)
    requires d in dials && dials[d].Dialed? && wr.count != 0 && wr.stage == Live && over.Returned?
    ensures DialsOk(dials[d := over], wrappers[dials[d].w := wr]) &&
              UnpublishedOk(dials[d := over], wrappers[dials[d].w := wr])
  {
  }

  lemma PublishingInv(s: State, d: Did, h: Hid)
    requires Inv(s) && HasDialed(s, d) && s.dials[d].key !in s.conns
    ensures Inv(Publishing(s, d, h)) && Publishing(s, d, h).panicked == s.panicked
  {
    var w, key := s.dials[d].w, s.dials[d].key;
    assert DialOk(d, s.dials[d], s.wrappers) && WrapperOk(s.wrappers[w], Cached(s.conns, w, key));
    FirstRefOk(s.wrappers[w], h);
    var wr := Refed(s.wrappers[w].(stage := Live), h).value;
    PublishedWrappers(s.conns, s.wrappers, w, wr);
    PublishedDials(s.dials, s.wrappers, d, wr, Returned(key, Some(Got(w, h))));
    assert s.wrappers[w := s.wrappers[w].(stage := Live)][w := wr] == s.wrappers[w := wr];
  }

  lemma ConnClosedOk(wr: Wrapper, h: Hid, cached: bool)
    requires WrapperOk(wr, cached) && h in wr.handles && wr.handles[h] == Closing
    ensures cached && wr.count != 0 && ConnClosed(wr, h).count != 0 && WrapperOk(ConnClosed(wr, h), cached)
  {
    assert wr.stage == Dropping(h);
  }

  lemma RemoveInv(s: State, w: Wid, h: Hid)
    requires Inv(s) && HandleAt(s, w, h, Removing)
    ensures Inv(Removed(s, w, h))
  {
    var s', key := Removed(s, w, h), s.wrappers[w].key;
    assert s.wrappers[w].stage == Unpublishing(h) && Cached(s.conns, w, key);
    assert h in s'.wrappers[w].handles;
    forall w2 | w2 in s'.wrappers
      ensures WrapperOk(s'.wrappers[w2], Cached(s'.conns, w2, s'.wrappers[w2].key))
    {
      assert w2 != w ==> Cached(s'.conns, w2, s.wrappers[w2].key) == Cached(s.conns, w2, s.wrappers[w2].key);
    }
  }

  // A referenced connection that changes in itself only.
  lemma ReplaceInv(s: State, w: Wid, wr: Wrapper)
    requires Inv(s) && w in s.wrappers && wr.key == s.wrappers[w].key
    requires WrapperOk(wr, Cached(s.conns, w, wr.key)) && s.wrappers[w].count != 0 && wr.count != 0
    ensures Inv(Set(s, w, wr))
  {
  }

  lemma CloseInv(s: State, step: Step)
    requires Inv(s) && Enabled(s, step) && (step.Deref? || step.CloseConn? || step.Remove?)
    ensures Inv(Do(s, step)) && !Do(s, step).panicked
  {
    var wr := s.wrappers[step.w];
    match step {
      case Deref(w, h) =>
        DerefOk(wr, h, Cached(s.conns, w, wr.key));
        ReplaceInv(s, w, Derefed(wr, h).value);
      case CloseConn(w, h) =>
        ConnClosedOk(wr, h, Cached(s.conns, w, wr.key));
        ReplaceInv(s, w, ConnClosed(wr, h));
      case Remove(w, h) => RemoveInv(s, w, h);
    }
  }

  // The connection a step references, if it references one that is in the cache.
  function Shares(s: State, step: Step): Option<Wid>
    requires Enabled(s, step)
  {
    match step
    case RefHit(d, _) => Some(s.dials[d].w)
    case Publish(d, _, closeFails) =>
      if s.dials[d].key in s.conns && !closeFails then Some(s.conns[s.dials[d].key]) else None
    case _ => None
  }

  lemma StepInv(s: State, step: Step)
    requires Inv(s) && Enabled(s, step)
    ensures Inv(Do(s, step))
    ensures Do(s, step).panicked <==>
            Shares(s, step).Some? && Shares(s, step).value in s.wrappers &&
                OpenHandles(s.wrappers[Shares(s, step).value]) == {}
  {
    match step {
      case RefHit(d, h) => TakeInv(s.(dials := Return(s, d, Some(Got(s.dials[d].w, h)))), s.dials[d].w, h);
      case Publish(d, h, closeFails) =>
        var key := s.dials[d].key;
        if key in s.conns {
          var got := if closeFails then None else Some(Got(s.conns[key], h));
          LoseInv(s, d, got);
          if !closeFails {
            TakeInv(Lose(s, d, got), s.conns[key], h);
          }
        } else {
          PublishingInv(s, d, h);
        }
      case Lookup(_, _) => DialInv(s, step);
      case DialFails(_) => DialInv(s, step);
      case DialSucceeds(_, _) => DialInv(s, step);
      case _ => CloseInv(s, step);
    }
  }

  lemma {:induction false} RunInv(s: State, steps: seq<Step>, s': State)
    requires Inv(s) && Runs(s, steps, s')
    ensures Inv(s')
    decreases |steps|
  {
    if steps != [] {
      StepInv(s, steps[0]);
      RunInv(Do(s, steps[0]), steps[1..], s');
    }
  }

  // ----- What every run keeps -----

  /**
   * However dials and closes interleave: a connection is closed at most once and never under an
   * open handle; while it has open handles its count is their number and it is the one cached
   * under its key, so no key ever has two connections in use; a cached connection that no Close is
   * at work on is in use. Once every dial has returned and every Close is over, each connection
   * that was ever dialed is either cached and in use or closed exactly once.
   */
  lemma ConnectionsCounted(steps: seq<Step>, s: State)
    requires Runs(Start, steps, s)
    ensures forall w :: w in s.wrappers ==>
              var wr := s.wrappers[w];
              && wr.closes <= 1
              && (OpenHandles(wr) != {} ==>
                   wr.count == |OpenHandles(wr)| && wr.closes == 0 && Cached(s.conns, w, wr.key))
              && (Cached(s.conns, w, wr.key) && Idle(wr) ==> OpenHandles(wr) != {})
    ensures forall w1, w2 ::
              (&& w1 in s.wrappers && OpenHandles(s.wrappers[w1]) != {}
               && w2 in s.wrappers && OpenHandles(s.wrappers[w2]) != {}
               && s.wrappers[w1].key == s.wrappers[w2].key) ==> w1 == w2
    ensures (forall d :: d in s.dials ==> !s.dials[d].Dialed?) && AllIdle(s.wrappers) ==>
              forall w :: w in s.wrappers ==>
                var wr := s.wrappers[w];
                if OpenHandles(wr) != {} then Cached(s.conns, w, wr.key) && wr.closes == 0
                else !Cached(s.conns, w, wr.key) && wr.closes == 1
  {
    RunInv(Start, steps, s);
    forall w | w in s.wrappers
      ensures WrapperOk(s.wrappers[w], Cached(s.conns, w, s.wrappers[w].key))
    {
    }
  }

  // No Close is between its dereference and its end.
  ghost predicate Idle(wr: Wrapper) {
    forall h :: h in wr.handles ==> wr.handles[h] in {Open, Done}
  }

  /** A step panics exactly when it references a connection whose last handle has been dereferenced. */
  lemma PanicsIffReleased(steps: seq<Step>, s: State, step: Step)
    requires Runs(Start, steps, s) && Enabled(s, step)
    ensures Do(s, step).panicked <==>
            Shares(s, step).Some? && Shares(s, step).value in s.wrappers &&
                OpenHandles(s.wrappers[Shares(s, step).value]) == {}
  {
    RunInv(Start, steps, s);
    StepInv(s, step);
  }

  // ----- What a dial returns -----

  // The connection a dial has found or returned is one for its key.
  ghost predicate OwnKey(dial: Dial, wrappers: map<Wid, Wrapper>) {
    && (dial.Found? ==> dial.w in wrappers && wrappers[dial.w].key == dial.key)
    && (dial.Returned? && dial.got.Some? ==>
         var got := dial.got.value;
         got.w in wrappers && wrappers[got.w].key == dial.key && got.h in wrappers[got.w].handles)
  }

  ghost predicate KeysOk(s: State) {
    !s.panicked ==> forall d :: d in s.dials ==> OwnKey(s.dials[d], s.wrappers)
  }

  // Connections keep their keys and their handles.
  ghost predicate KeepsWrappers(a: map<Wid, Wrapper>, b: map<Wid, Wrapper>) {
    forall w :: w in a ==> w in b && b[w].key == a[w].key && a[w].handles.Keys <= b[w].handles.Keys
  }

  lemma SetKeeps(wrappers: map<Wid, Wrapper>, w: Wid, wr: Wrapper)
    requires w in wrappers ==> wr.key == wrappers[w].key && wrappers[w].handles.Keys <= wr.handles.Keys
    ensures KeepsWrappers(wrappers, wrappers[w := wr])
  {
  }

  lemma TakeKeeps(s: State, w: Wid, h: Hid)
    requires w in s.wrappers
    ensures KeepsWrappers(s.wrappers, Take(s, w, h).wrappers)
  {
    if Refed(s.wrappers[w], h).Some? { SetKeeps(s.wrappers, w, Refed(s.wrappers[w], h).value); }
  }

  lemma PublishKeeps(s: State, step: Step)
    requires Enabled(s, step) && step.Publish?
    ensures KeepsWrappers(s.wrappers, Do(s, step).wrappers)
  {
    var d, key, w := step.d, s.dials[step.d].key, s.dials[step.d].w;
    if key in s.conns {
      var got := if step.closeFails then None else Some(Got(s.conns[key], step.h));
      SetKeeps(s.wrappers, w, s.wrappers[w].(closes := s.wrappers[w].closes + 1, stage := Dead));
      if !step.closeFails { TakeKeeps(Lose(s, d, got), s.conns[key], step.h); }
    } else {
      var live := s.wrappers[w].(stage := Live);
      SetKeeps(s.wrappers, w, live);
      TakeKeeps(Set(s, w, live), w, step.h);
    }
  }

  lemma StepKeepsWrappers(s: State, step: Step)
    requires Enabled(s, step)
    ensures KeepsWrappers(s.wrappers, Do(s, step).wrappers)
  {
    match step {
      case Publish(_, _, _) => PublishKeeps(s, step);
      case RefHit(d, h) => TakeKeeps(s, s.dials[d].w, h);
      case _ =>
    }
  }

  lemma OwnKeyKept(dial: Dial, a: map<Wid, Wrapper>, b: map<Wid, Wrapper>)
    requires OwnKey(dial, a) && KeepsWrappers(a, b)
    ensures OwnKey(dial, b)
  {
  }

  // The dial that a step moves on.
  predicate Moves(step: Step, d: Did) {
    (step.Lookup? || step.RefHit? || step.DialFails? || step.DialSucceeds? || step.Publish?) && step.d == d
  }

  lemma OthersWait(s: State, step: Step, d: Did)
    requires Enabled(s, step) && !Moves(step, d)
    ensures d in s.dials <==> d in Do(s, step).dials
    ensures d in s.dials ==> Do(s, step).dials[d] == s.dials[d]
  {
  }

  lemma MovedOwnsKey(s: State, step: Step, d: Did)
    requires Inv(s) && KeysOk(s) && Enabled(s, step) && Moves(step, d) && !Do(s, step).panicked
    ensures d in Do(s, step).dials && OwnKey(Do(s, step).dials[d], Do(s, step).wrappers)
  {
    if d in s.dials {
      assert OwnKey(s.dials[d], s.wrappers) && DialOk(d, s.dials[d], s.wrappers);
    }
  }

  lemma KeysStep(s: State, step: Step)
    requires Inv(s) && KeysOk(s) && Enabled(s, step)
    ensures KeysOk(Do(s, step))
  {
    var s' := Do(s, step);
    if !s'.panicked {
      StepKeepsWrappers(s, step);
      forall d | d in s'.dials
        ensures OwnKey(s'.dials[d], s'.wrappers)
      {
        if Moves(step, d) {
          MovedOwnsKey(s, step, d);
        } else {
          OthersWait(s, step, d);
          OwnKeyKept(s.dials[d], s.wrappers, s'.wrappers);
        }
      }
    }
  }

  lemma {:induction false} KeysRun(s: State, steps: seq<Step>, s': State)
    requires Inv(s) && KeysOk(s) && Runs(s, steps, s')
    ensures KeysOk(s')
    decreases |steps|
  {
    if steps != [] {
      StepInv(s, steps[0]);
      KeysStep(s, steps[0]);
      KeysRun(Do(s, steps[0]), steps[1..], s');
    }
  }

  predicate IsFailure(step: Step, d: Did) {
    step == DialFails(d) || (step.Publish? && step.d == d && step.closeFails)
  }

  ghost predicate FailedIn(steps: seq<Step>, d: Did) {
    exists i :: 0 <= i < |steps| && IsFailure(steps[i], d)
  }

  ghost predicate AskedIn(steps: seq<Step>, d: Did, key: Key) {
    exists i :: 0 <= i < |steps| && steps[i] == Lookup(d, key)
  }

  predicate Nothing(s: State, d: Did) {
    d in s.dials && s.dials[d].Returned? && s.dials[d].got.None?
  }

  lemma DialMoves(s: State, step: Step, d: Did)
    requires Enabled(s, step) && d in Do(s, step).dials
    ensures var key := Do(s, step).dials[d].key;
            if d in s.dials then key == s.dials[d].key else step == Lookup(d, key)
    ensures Nothing(Do(s, step), d) ==> Nothing(s, d) || IsFailure(step, d)
  {
    if !Moves(step, d) { OthersWait(s, step, d); }
  }

  lemma FirstOrLater(steps: seq<Step>, d: Did, key: Key)
    requires steps != []
    ensures FailedIn(steps, d) <==> IsFailure(steps[0], d) || FailedIn(steps[1..], d)
    ensures AskedIn(steps, d, key) <==> steps[0] == Lookup(d, key) || AskedIn(steps[1..], d, key)
  {
    assert forall i :: 0 < i < |steps| ==> steps[i] == steps[1..][i - 1];
  }

  lemma {:induction false} DialRun(s: State, steps: seq<Step>, s': State, d: Did)
    requires Runs(s, steps, s') && d in s'.dials
    ensures if d in s.dials then s'.dials[d].key == s.dials[d].key else AskedIn(steps, d, s'.dials[d].key)
    ensures Nothing(s', d) ==> Nothing(s, d) || FailedIn(steps, d)
    decreases |steps|
  {
    if steps != [] {
      var s1 := Do(s, steps[0]);
      DialRun(s1, steps[1..], s', d);
      FirstOrLater(steps, d, s'.dials[d].key);
      if d in s1.dials {
        DialMoves(s, steps[0], d);
      } else if d in s.dials {
        OthersWait(s, steps[0], d);
      }
    }
  }

  /** In every run, a dial that returned got a handle on a connection dialed for the key it asked for, unless its
      own dial, or the close of a connection that came too late, had failed. */
  lemma DialsGetTheirKey(steps: seq<Step>, s: State, d: Did)
    requires Runs(Start, steps, s) && !s.panicked && d in s.dials
    ensures AskedIn(steps, d, s.dials[d].key) && OwnKey(s.dials[d], s.wrappers)
    ensures s.dials[d].Returned? && s.dials[d].got.None? ==> FailedIn(steps, d)
  {
    KeysRun(Start, steps, s);
    DialRun(Start, steps, s, d);
  }

  // ----- Look-up with reference, and Close, each without interruption -----

  datatype Op =
    | Ask(d: Did, key: Key, h: Hid)   // look-up; on a hit the reference is taken at once
    | Move(step: Step)                // the outcome of a dial, and the second look
    | CloseHandle(w: Wid, h: Hid)

  // An operation and the steps it takes when nothing comes between them.
  ghost predicate Whole(s: State, op: Op, s': State) {
    match op
    case Ask(d, key, h) =>
      && Enabled(s, Lookup(d, key))
      && var looked := Do(s, Lookup(d, key));
         if key in s.conns then Enabled(looked, RefHit(d, h)) && s' == Do(looked, RefHit(d, h)) else s' == looked
    case Move(step) =>
      (step.DialFails? || step.DialSucceeds? || step.Publish?) && Enabled(s, step) && s' == Do(s, step)
    case CloseHandle(w, h) =>
      && Enabled(s, Deref(w, h))
      && var s1 := Do(s, Deref(w, h));
         if Enabled(s1, CloseConn(w, h)) then
           var s2 := Do(s1, CloseConn(w, h));
           Enabled(s2, Remove(w, h)) && s' == Do(s2, Remove(w, h))
         else s' == s1
  }

  ghost predicate RunsWhole(s: State, ops: seq<Op>, s': State)
    decreases |ops|
  {
    if ops == [] then s == s'
    else exists next :: Whole(s, ops[0], next) && RunsWhole(next, ops[1..], s')
  }

  ghost predicate AllIdle(wrappers: map<Wid, Wrapper>) {
    forall w :: w in wrappers ==> Idle(wrappers[w])
  }

  ghost predicate NoneFound(dials: map<Did, Dial>) {
    forall d :: d in dials ==> !dials[d].Found?
  }

  ghost predicate Quiet(s: State) {
    !s.panicked && AllIdle(s.wrappers) && NoneFound(s.dials)
  }

  // In a quiet state everything cached is in use.
  lemma CachedInUse(s: State, key: Key)
    requires Inv(s) && AllIdle(s.wrappers) && key in s.conns
    ensures s.conns[key] in s.wrappers && s.wrappers[s.conns[key]].stage == Live &&
              OpenHandles(s.wrappers[s.conns[key]]) != {}
  {
    var w := s.conns[key];
    assert w in s.wrappers && s.wrappers[w].key == key;
    assert WrapperOk(s.wrappers[w], Cached(s.conns, w, key)) && Idle(s.wrappers[w]);
  }

  // The reference of a look-up that hit a connection in use.
  lemma HitQuiet(s: State, d: Did, h: Hid)
    requires Inv(s) && !s.panicked && AllIdle(s.wrappers) && Enabled(s, RefHit(d, h))
    requires NoneFound(s.dials - {d}) && OpenHandles(s.wrappers[s.dials[d].w]) != {}
    ensures Inv(Do(s, RefHit(d, h))) && Quiet(Do(s, RefHit(d, h)))
  {
    var s' := Do(s, RefHit(d, h));
    TakeInv(s.(dials := Return(s, d, Some(Got(s.dials[d].w, h)))), s.dials[d].w, h);
    assert forall d2 :: d2 in s'.dials && d2 != d ==> d2 in s.dials - {d};
  }

  lemma AskQuiet(s: State, d: Did, key: Key, h: Hid, s': State)
    requires Inv(s) && Quiet(s) && Whole(s, Ask(d, key, h), s')
    ensures Inv(s') && Quiet(s')
  {
    DialInv(s, Lookup(d, key));
    if key in s.conns {
      CachedInUse(s, key);
      HitQuiet(Do(s, Lookup(d, key)), d, h);
    }
  }

  lemma PublishQuiet(s: State, d: Did, h: Hid, closeFails: bool)
    requires Inv(s) && Quiet(s) && Enabled(s, Publish(d, h, closeFails))
    ensures Quiet(Do(s, Publish(d, h, closeFails)))
  {
    if s.dials[d].key in s.conns {
      CachedInUse(s, s.dials[d].key);
    }
  }

  // Close from its dereference on, when that was the last.
  lemma LastCloseQuiet(s: State, w: Wid, h: Hid)
    requires Inv(s) && Enabled(s, CloseConn(w, h)) && NoneFound(s.dials)
    requires AllIdle(s.wrappers - {w})
    ensures var s2 := Do(s, CloseConn(w, h)); Enabled(s2, Remove(w, h)) && Quiet(Do(s2, Remove(w, h)))
  {
    var wr := s.wrappers[w];
    assert WrapperOk(wr, Cached(s.conns, w, wr.key));
    assert AllDoneBut(wr.handles, h, Closing);
    var s' := Do(Do(s, CloseConn(w, h)), Remove(w, h));
    assert Idle(s'.wrappers[w]);
    forall w2 | w2 in s'.wrappers && w2 != w
      ensures Idle(s'.wrappers[w2])
    {
      assert w2 in s.wrappers - {w} && s'.wrappers[w2] == (s.wrappers - {w})[w2];
    }
  }

  // What a dereference leaves: only its own handle may be at work.
  lemma DerefQuiet(s: State, w: Wid, h: Hid)
    requires Inv(s) && Quiet(s) && Enabled(s, Deref(w, h))
    ensures var s' := Do(s, Deref(w, h));
            && Inv(s') && AllIdle(s'.wrappers - {w}) && NoneFound(s'.dials) && !s'.panicked
            && (Enabled(s', CloseConn(w, h)) || Quiet(s'))
  {
    CloseInv(s, Deref(w, h));
    assert Do(s, Deref(w, h)).wrappers - {w} == s.wrappers - {w};
  }

  lemma CloseQuiet(s: State, w: Wid, h: Hid, s': State)
    requires Inv(s) && Quiet(s) && Whole(s, CloseHandle(w, h), s')
    ensures Inv(s') && Quiet(s')
  {
    var s1 := Do(s, Deref(w, h));
    DerefQuiet(s, w, h);
    if Enabled(s1, CloseConn(w, h)) {
      LastCloseQuiet(s1, w, h);
      CloseInv(s1, CloseConn(w, h));
      CloseInv(Do(s1, CloseConn(w, h)), Remove(w, h));
    }
  }

  /** No panic in any run in which a look-up takes its reference at once and a Close is not interrupted. */
  lemma {:induction false} WholeRunsStayQuiet(s: State, ops: seq<Op>, s': State)
    requires Inv(s) && Quiet(s) && RunsWhole(s, ops, s')
    ensures Quiet(s')
    decreases |ops|
  {
    if ops != [] {
      var next :| Whole(s, ops[0], next) && RunsWhole(next, ops[1..], s');
      WholeQuiet(s, ops[0], next);
      WholeRunsStayQuiet(next, ops[1..], s');
    }
  }

  lemma WholeQuiet(s: State, op: Op, s': State)
    requires Inv(s) && Quiet(s) && Whole(s, op, s')
    ensures Inv(s') && Quiet(s')
  {
    match op {
      case Ask(d, key, h) => AskQuiet(s, d, key, h, s');
      case Move(step) =>
        StepInv(s, step);
        if step.Publish? {
          PublishQuiet(s, step.d, step.h, step.closeFails);
        }
      case CloseHandle(w, h) => CloseQuiet(s, w, h, s');
    }
  }

  // The same from the empty cache, and the run in which a Close comes between a look-up and its reference.
  lemma NoPanicUnlessInterrupted(ops: seq<Op>, s: State)
    requires RunsWhole(Start, ops, s)
    ensures !s.panicked
  {
    WholeRunsStayQuiet(Start, ops, s);
  }

  lemma InterruptedLookupPanics() returns (steps: seq<Step>, s: State)
    ensures Runs(Start, steps, s) && s.panicked
  {
    var key := "grpc:host:";
    var s1 := Do(Start, Lookup(0, key));
    var s2 := Do(s1, DialSucceeds(0, 0));
    var s3 := Do(s2, Publish(0, 0, false));
    var s4 := Do(s3, Lookup(1, key));
    var s5 := Do(s4, Deref(0, 0));
    s := Do(s5, RefHit(1, 1));
    steps := [RefHit(1, 1)];
    assert steps[1..] == [] && Runs(s5, steps, s);
    steps := Prepend(s4, Deref(0, 0), steps, s);
    steps := Prepend(s3, Lookup(1, key), steps, s);
    steps := Prepend(s2, Publish(0, 0, false), steps, s);
    steps := Prepend(s1, DialSucceeds(0, 0), steps, s);
    steps := Prepend(Start, Lookup(0, key), steps, s);
  }

  lemma Prepend(s: State, step: Step, rest: seq<Step>, s': State) returns (steps: seq<Step>)
    requires Enabled(s, step) && Runs(Do(s, step), rest, s')
    ensures steps == [step] + rest && Runs(s, steps, s')
  {
    steps := [step] + rest;
    assert steps[1..] == rest;
  }
}
