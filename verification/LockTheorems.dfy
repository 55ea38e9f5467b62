/** What the per-key lock guarantees, over every interleaving of any number of calls. */
module LockTheorems {
  import opened Options
  import opened LockTable
  import opened LockProtocol

  // ---- Mutual exclusion ----

  ghost predicate IsOwner(s: State, key: Key, c: CallId) {
    c < |s.calls| && s.calls[c].phase.Owner? && s.calls[c].key == key
  }

  /** At most one call owns a key, however often its keyMutex has been pruned and made anew. */
  lemma MutualExclusion(s: State, key: Key, a: CallId, b: CallId)
    requires Inv(s) && IsOwner(s, key, a) && IsOwner(s, key, b)
    ensures a == b
  {
    if a < b {
      TallyTwo(Holds(s.calls[a].mutex), s.calls, a, b);
    } else if b < a {
      TallyTwo(Holds(s.calls[b].mutex), s.calls, b, a);
    }
  }

  lemma OwnerStays(s: State, e: Event, c: CallId)
    requires Inv(s) && Enabled(s, e) && e != Unlock(c)
    requires c < |s.calls| && s.calls[c].phase.Owner?
    ensures c < |Step(s, e).calls| && Step(s, e).calls[c] == s.calls[c]
  {
  }

  /** WithLock runs its function between Lock returning nil and Unlock. Whatever else
      happens meanwhile, its call stays the only owner of the key, and its Unlock is
      enabled and will find the keyMutex that it holds. */
  lemma {:induction false} WithLockIsExclusive(s: State, key: Key, c: CallId, es: seq<Event>)
    requires Inv(s) && IsOwner(s, key, c) && Run(s, es).Some? && Unlock(c) !in es
    ensures
      var s' := Run(s, es).value;
      && Inv(s') && IsOwner(s', key, c) && (forall d :: IsOwner(s', key, d) ==> d == c)
      && Enabled(s', Unlock(c)) && UnlockSection(s'.table, key).1 == Some(s.calls[c].mutex)
    decreases |es|
  {
    if es == [] {
      forall d | IsOwner(s, key, d)
        ensures d == c
      {
        MutualExclusion(s, key, c, d);
      }
      OwnerUnlocksItsOwn(s, c);
    } else {
      assert es[0] in es && forall e :: e in es[1..] ==> e in es;
      StepKeepsInv(s, es[0]);
      OwnerStays(s, es[0], c);
      WithLockIsExclusive(Step(s, es[0]), key, c, es[1..]);
    }
  }

  /** Lock has returned, or is bound to return, its error. */
  predicate HasGivenUp(p: Phase) {
    p.Cancelled? || p.Draining? || p.Orphan? || p.Discarding? || p.Finished?
  }

  lemma GivenUpStays(s: State, e: Event, c: CallId)
    requires InRange(s) && Enabled(s, e) && c < |s.calls| && HasGivenUp(s.calls[c].phase)
    ensures c < |Step(s, e).calls| && HasGivenUp(Step(s, e).calls[c].phase)
  {
  }

  /** A WithLock whose Lock fails does not run its function: the call never owns the key. */
  lemma {:induction false} CancelledLockNeverOwns(s: State, c: CallId, es: seq<Event>)
    requires Inv(s) && c < |s.calls| && HasGivenUp(s.calls[c].phase) && Run(s, es).Some?
    ensures
      var s' := Run(s, es).value;
      c < |s'.calls| && HasGivenUp(s'.calls[c].phase) && !s'.calls[c].phase.Owner?
    decreases |es|
  {
    if es != [] {
      StepKeepsInv(s, es[0]);
      GivenUpStays(s, es[0], c);
      CancelledLockNeverOwns(Step(s, es[0]), c, es[1..]);
    }
  }

  /** The specification of a lock: each key has at most one owner. */
  type Owners = map<Key, CallId>

  datatype SpecEvent = Acquire(key: Key, c: CallId) | Free(key: Key, c: CallId) | Quiet

  predicate SpecEnabled(o: Owners, v: SpecEvent) {
    match v
    case Acquire(k, _) => k !in o
    case Free(k, c) => k in o && o[k] == c
    case Quiet => true
  }

  function SpecStep(o: Owners, v: SpecEvent): Owners {
    match v
    case Acquire(k, c) => o[k := c]
    case Free(k, _) => o - {k}
    case Quiet => o
  }

  function SpecRun(o: Owners, vs: seq<SpecEvent>): Option<Owners>
    decreases |vs|
  {
    if vs == [] then Some(o)
    else if SpecEnabled(o, vs[0]) then SpecRun(SpecStep(o, vs[0]), vs[1..])
    else None
  }

  /** What callers see of an event: Lock returning nil, TryLock returning true, and Unlock. */
  ghost function Visible(s: State, e: Event): SpecEvent
    requires InRange(s) && Enabled(s, e)
  {
    match e
    case Receive(c) => Acquire(s.calls[c].key, c)
    case TryMutex(c) => if IsMutexLocked(s, c) then Quiet else Acquire(s.calls[c].key, c)
    case Unlock(c) => Free(s.calls[c].key, c)
    case _ => Quiet
  }

  ghost function Trace(s: State, es: seq<Event>): seq<SpecEvent>
    requires Run(s, es).Some?
    decreases |es|
  {
    if es == [] then [] else [Visible(s, es[0])] + Trace(Step(s, es[0]), es[1..])
  }

  ghost predicate Refines(s: State, o: Owners) {
    && (forall k :: k in o ==> IsOwner(s, k, o[k]))
    && (forall c :: 0 <= c < |s.calls| && s.calls[c].phase.Owner? ==>
          s.calls[c].key in o && o[s.calls[c].key] == c)
  }

  /** A call that holds its key's mutex and has a reference excludes any owner but itself. */
  lemma NoOtherOwner(s: State, o: Owners, c: CallId)
    requires Inv(s) && Refines(s, o) && c < |s.calls|
    requires Referenced(s.calls[c].phase) && !s.calls[c].phase.Owner?
    requires Holding(s.calls[c].phase) || !IsMutexLocked(s, c)
    ensures s.calls[c].key !in o
  {
    var k := s.calls[c].key;
    if k in o {
      var d := o[k];
      assert s.calls[d].mutex == s.calls[c].mutex;
      HolderSeesLocked(s, d);
      if c < d {
        TallyTwo(Holds(s.calls[c].mutex), s.calls, c, d);
      } else {
        TallyTwo(Holds(s.calls[c].mutex), s.calls, d, c);
      }
    }
  }

  predicate IsQuiet(s: State, e: Event) {
    !e.Receive? && !e.Unlock? && (e.TryMutex? ==> e.c < |s.calls| && IsMutexLocked(s, e.c))
  }

  /** Only three kinds of event change who owns what. */
  lemma QuietStepKeepsOwners(s: State, e: Event, c: CallId)
    requires Inv(s) && Enabled(s, e) && IsQuiet(s, e)
    requires c < |Step(s, e).calls|
    ensures Step(s, e).calls[c].phase.Owner? <==> c < |s.calls| && s.calls[c].phase.Owner?
    ensures c < |s.calls| ==> Step(s, e).calls[c].key == s.calls[c].key
  {
  }

  lemma QuietStepSimulates(s: State, e: Event, o: Owners)
    requires Inv(s) && Enabled(s, e) && IsQuiet(s, e)
    requires Refines(s, o)
    ensures Refines(Step(s, e), o)
  {
    var s' := Step(s, e);
    forall c | 0 <= c < |s'.calls|
      ensures s'.calls[c].phase.Owner? <==> c < |s.calls| && s.calls[c].phase.Owner?
      ensures c < |s.calls| ==> s'.calls[c].key == s.calls[c].key
    {
      QuietStepKeepsOwners(s, e, c);
    }
    StepKeepsCalls(s, e);
  }

  lemma StepKeepsCalls(s: State, e: Event)
    requires Inv(s) && Enabled(s, e)
    ensures |s.calls| <= |Step(s, e).calls|
  {
  }

  lemma AcquireSimulates(s: State, e: Event, o: Owners)
    requires Inv(s) && Enabled(s, e) && Refines(s, o)
    requires e.Receive? || (e.TryMutex? && !IsMutexLocked(s, e.c))
    ensures s.calls[e.c].key !in o
    ensures Refines(Step(s, e), o[s.calls[e.c].key := e.c])
  {
    NoOtherOwner(s, o, e.c);
    BecomesOwner(s, Step(s, e), e.c, o);
  }

  lemma BecomesOwner(s: State, s': State, c: CallId, o: Owners)
    requires Refines(s, o) && c < |s.calls| && s.calls[c].key !in o
    requires s'.calls == s.calls[c := s.calls[c].(phase := Owner)]
    ensures Refines(s', o[s.calls[c].key := c])
  {
  }

  lemma FreeSimulates(s: State, c: CallId, o: Owners)
    requires Inv(s) && Enabled(s, Unlock(c)) && Refines(s, o)
    ensures s.calls[c].key in o && o[s.calls[c].key] == c
    ensures Refines(Step(s, Unlock(c)), o - {s.calls[c].key})
  {
    OwnerUnlocksItsOwn(s, c);
    StopsOwning(s, Step(s, Unlock(c)), c, o);
  }

  lemma StopsOwning(s: State, s': State, c: CallId, o: Owners)
    requires Refines(s, o) && c < |s.calls| && s.calls[c].phase.Owner?
    requires s'.calls == s.calls[c := s.calls[c].(phase := Releasing)]
    ensures Refines(s', o - {s.calls[c].key})
  {
  }

  lemma StepSimulates(s: State, e: Event, o: Owners)
    requires Inv(s) && Enabled(s, e) && Refines(s, o)
    ensures SpecEnabled(o, Visible(s, e))
    ensures Refines(Step(s, e), SpecStep(o, Visible(s, e)))
  {
    if e.Receive? || (e.TryMutex? && !IsMutexLocked(s, e.c)) {
      AcquireSimulates(s, e, o);
    } else if e.Unlock? {
      FreeSimulates(s, e.c, o);
    } else {
      QuietStepSimulates(s, e, o);
    }
  }

  /** Every run of the protocol is, as callers see it, a run of the specification. */
  lemma {:induction false} RunSimulates(s: State, es: seq<Event>, o: Owners)
    requires Inv(s) && Refines(s, o) && Run(s, es).Some?
    ensures SpecRun(o, Trace(s, es)).Some?
    ensures Refines(Run(s, es).value, SpecRun(o, Trace(s, es)).value)
    decreases |es|
  {
    if es != [] {
      var v := Visible(s, es[0]);
      StepKeepsInv(s, es[0]);
      StepSimulates(s, es[0], o);
      RunSimulates(Step(s, es[0]), es[1..], SpecStep(o, v));
      assert Trace(s, es)[1..] == Trace(Step(s, es[0]), es[1..]);
    }
  }

  lemma MutualExclusionByRefinement(es: seq<Event>)
    requires Run(INIT, es).Some?
    ensures SpecRun(map[], Trace(INIT, es)).Some?
    ensures Refines(Run(INIT, es).value, SpecRun(map[], Trace(INIT, es)).value)
  {
    RunSimulates(INIT, es, map[]);
  }

  // ---- Exact reference counts ----

  /** waiters is the number of calls with a reference, and the map has an entry for a
      keyMutex exactly while that number is positive. */
  lemma CountsAreExact(s: State, m: MutexId)
    requires Inv(s) && m < |s.table.mutexes|
    ensures s.table.mutexes[m].waiters == Tally(References(m), s.calls)
    ensures s.table.mutexes[m].waiters > 0 <==> m in s.table.locks.Values
  {
    if s.table.mutexes[m].waiters > 0 {
      var i := TallyWitness(References(m), s.calls);
      assert s.table.locks[s.calls[i].key] == m;
    }
  }

  /** The delete by key takes away the entry of the leaving call's own keyMutex, at a
      moment when no call has a reference to it; every other entry stays. */
  lemma DeleteSparesLiveMutexes(s: State, e: Event)
    requires Inv(s) && Enabled(s, e) && IsSection(e)
    ensures
      var s' := Step(s, e);
      var call := s.calls[e.c];
      if Tally(References(call.mutex), s'.calls) > 0 then
        s'.table.locks == s.table.locks
      else
        && call.key in s.table.locks && s.table.locks[call.key] == call.mutex
        && s'.table.locks == s.table.locks - {call.key}
  {
    if e.Unlock? {
      OwnerUnlocksItsOwn(s, e.c);
    }
    var s' := Step(s, e);
    var m := s.calls[e.c].mutex;
    assert s'.table == Leave(s.table, s.calls[e.c].key, m);
    StepKeepsInv(s, e);
    assert s'.table.mutexes[m].waiters == Tally(References(m), s'.calls);
  }

  ghost function ReferencedKeys(calls: seq<Call>): set<Key> {
    if calls == [] then {}
    else (if Referenced(calls[0].phase) then {calls[0].key} else {}) + ReferencedKeys(calls[1..])
  }

  lemma {:induction false} ReferencedKeysSize(calls: seq<Call>)
    ensures |ReferencedKeys(calls)| <= Tally(Outstanding, calls)
  {
    if calls != [] {
      ReferencedKeysSize(calls[1..]);
    }
  }

  lemma {:induction false} ReferencedKeysHas(calls: seq<Call>, i: nat)
    requires i < |calls| && Referenced(calls[i].phase)
    ensures calls[i].key in ReferencedKeys(calls)
  {
    if i > 0 {
      ReferencedKeysHas(calls[1..], i - 1);
    }
  }

  lemma SubsetSize<T>(a: set<T>, b: set<T>)
    requires a <= b
    ensures |a| <= |b|
  {
    assert |b| == |a| + |b - a| by { assert b == a + (b - a); }
  }

  /** The memory bound: there are never more map entries than calls with a reference. */
  lemma MapIsBounded(s: State)
    requires Inv(s)
    ensures |s.table.locks| <= Tally(Outstanding, s.calls)
  {
    var keys := ReferencedKeys(s.calls);
    forall k | k in s.table.locks
      ensures k in keys
    {
      var m := s.table.locks[k];
      var i := TallyWitness(References(m), s.calls);
      assert s.table.locks[s.calls[i].key] == m;
      ReferencedKeysHas(s.calls, i);
    }
    ReferencedKeysSize(s.calls);
    SubsetSize(s.table.locks.Keys, keys);
  }

  // ---- Termination, no deadlock, no leak ----

  /** Every step of a call already under way brings the calls closer to their end. */
  lemma StepDecreases(s: State, e: Event)
    requires Inv(s) && Enabled(s, e) && !IsStart(e)
    ensures Tally(StepsLeft, Step(s, e).calls) < Tally(StepsLeft, s.calls)
  {
    var call := StepMovesOneCall(s, e);
    TallyUpdate(StepsLeft, s.calls, e.c, call);
  }

  lemma StepMovesOneCall(s: State, e: Event) returns (call: Call)
    requires Inv(s) && Enabled(s, e) && !IsStart(e)
    ensures e.c < |s.calls| && Step(s, e).calls == s.calls[e.c := call]
    ensures PhaseSteps(call.phase) < PhaseSteps(s.calls[e.c].phase)
  {
    if IsSection(e) {
      SectionAdvances(s, e);
    } else if IsAttempt(e) {
      AttemptAdvances(s, e);
    } else {
      LockStepAdvances(s, e);
    }
    call := Step(s, e).calls[e.c];
  }

  /** The step changes nothing but its own call, which has fewer steps left. */
  ghost predicate Advances(s: State, e: Event)
    requires InRange(s) && Enabled(s, e) && !IsStart(e)
  {
    && e.c < |s.calls| && |Step(s, e).calls| == |s.calls|
    && Step(s, e).calls == s.calls[e.c := Step(s, e).calls[e.c]]
    && PhaseSteps(Step(s, e).calls[e.c].phase) < PhaseSteps(s.calls[e.c].phase)
  }

  lemma SectionAdvances(s: State, e: Event)
    requires Inv(s) && Enabled(s, e) && IsSection(e)
    ensures Advances(s, e)
  {
    if e.Unlock? {
      OwnerUnlocksItsOwn(s, e.c);
    }
  }

  lemma AttemptAdvances(s: State, e: Event)
    requires Inv(s) && Enabled(s, e) && IsAttempt(e)
    ensures Advances(s, e)
  {
  }

  lemma LockStepAdvances(s: State, e: Event)
    requires Inv(s) && Enabled(s, e) && !IsStart(e) && !IsSection(e) && !IsAttempt(e)
    ensures Advances(s, e)
  {
    if e.HelperLock? || e.HelperSend? {
      HelperAdvances(s, e);
    }
  }

  lemma HelperAdvances(s: State, e: Event)
    requires Inv(s) && Enabled(s, e) && (e.HelperLock? || e.HelperSend?)
    ensures Advances(s, e)
  {
  }

  /** A run without new calls is no longer than the steps its calls have left. */
  lemma {:induction false} RunIsBounded(s: State, es: seq<Event>)
    requires Inv(s) && Run(s, es).Some?
    requires forall e :: e in es ==> !IsStart(e)
    ensures |es| + Tally(StepsLeft, Run(s, es).value.calls) <= Tally(StepsLeft, s.calls)
    decreases |es|
  {
    if es != [] {
      assert es[0] in es;
      StepKeepsInv(s, es[0]);
      StepDecreases(s, es[0]);
      RunIsBounded(Step(s, es[0]), es[1..]);
    }
  }

  /** The events that need no decision of a caller: not a new call, not the expiry of a
      context, not an owner's Unlock. */
  predicate IsInternal(e: Event) {
    !IsStart(e) && !e.Cancel? && !e.Unlock?
  }

  ghost predicate Quiescent(s: State) {
    forall e :: IsInternal(e) ==> !Enabled(s, e)
  }

  /** In a state where nothing internal can happen, a call is over, owns its key, or
      waits: its helper blocks on a mutex that an owner of the same key or, for an
      orphan, of the same keyMutex holds. */
  lemma QuiescentPhase(s: State, c: CallId)
    requires Inv(s) && Quiescent(s) && c < |s.calls|
    ensures
      var p := s.calls[c].phase;
      || p.Finished? || p.Owner?
      || ((p == Waiting(Blocked) || p == Orphan(Blocked)) && IsMutexLocked(s, c))
  {
    var e := match s.calls[c].phase
      case Waiting(h) => HelperEvent(c, h, Receive(c))
      case Cancelled(_) => CancelSection(c)
      case Draining(_) => Drain(c)
      case Orphan(h) => HelperEvent(c, h, OrphanReceive(c))
      case Discarding => Discard(c)
      case Trying => TryMutex(c)
      case TryFailed => TrySection(c)
      case Owner => Unlock(c)
      case Releasing => Release(c)
      case Probing => Probe(c)
      case ProbeHolding => ProbeRelease(c)
      case Finished => Unlock(c);
    assert IsInternal(e) ==> !Enabled(s, e);
  }

  /** What comes next where the helper decides. */
  function HelperEvent(c: CallId, h: Helper, sent: Event): Event {
    match h
    case Blocked => HelperLock(c)
    case Acquired => HelperSend(c)
    case Sent => sent
  }

  /** No deadlock: where nothing internal can happen, every locked mutex is an owner's,
      so each pending call waits for some owner to unlock. */
  lemma QuiescentMutexHasOwner(s: State, m: MutexId) returns (owner: CallId)
    requires Inv(s) && Quiescent(s) && m < |s.table.mutexes| && s.table.mutexes[m].locked
    ensures owner < |s.calls| && s.calls[owner].phase.Owner? && s.calls[owner].mutex == m
  {
    owner := TallyWitness(Holds(m), s.calls);
    QuiescentPhase(s, owner);
  }

  lemma PendingCallWaitsForOwner(s: State, c: CallId) returns (owner: CallId)
    requires Inv(s) && Quiescent(s) && c < |s.calls|
    requires !s.calls[c].phase.Finished? && !s.calls[c].phase.Owner?
    ensures owner < |s.calls| && s.calls[owner].phase.Owner?
    ensures s.calls[owner].mutex == s.calls[c].mutex
    ensures s.calls[c].phase.Waiting? ==> s.calls[owner].key == s.calls[c].key
  {
    QuiescentPhase(s, c);
    owner := QuiescentMutexHasOwner(s, s.calls[c].mutex);
  }

  /** Nothing leaks: when nothing internal can happen and nobody owns a key, every call
      is over, orphans included, every mutex ever made is free, and the map is empty. */
  lemma NothingLeaks(s: State)
    requires Inv(s) && Quiescent(s)
    requires forall c :: 0 <= c < |s.calls| ==> !s.calls[c].phase.Owner?
    ensures forall c :: 0 <= c < |s.calls| ==> s.calls[c].phase.Finished?
    ensures forall m :: 0 <= m < |s.table.mutexes| ==> s.table.mutexes[m] == Mutex(false, 0)
    ensures s.table.locks == map[]
  {
    forall m | 0 <= m < |s.table.mutexes|
      ensures !s.table.mutexes[m].locked
    {
      if s.table.mutexes[m].locked {
        var owner := QuiescentMutexHasOwner(s, m);
      }
    }
    forall c | 0 <= c < |s.calls|
      ensures s.calls[c].phase.Finished?
    {
      QuiescentPhase(s, c);
    }
    forall m | 0 <= m < |s.table.mutexes|
      ensures s.table.mutexes[m].waiters == 0
    {
      if Tally(References(m), s.calls) > 0 {
        var i := TallyWitness(References(m), s.calls);
      }
    }
    assert s.table.locks.Keys == {};
  }

  // ---- TryLock and Unlock against what the interface promises ----

  /** A call that is not an owner but keeps the mutex locked for a moment. */
  predicate IsTransient(p: Phase) {
    Holding(p) && !p.Owner?
  }

  /** Call `d` stands in the way of call `c`. */
  ghost predicate IsRival(s: State, c: CallId, d: CallId)
    requires c < |s.calls|
  {
    && d < |s.calls| && d != c && s.calls[d].mutex == s.calls[c].mutex
    && (IsOwner(s, s.calls[c].key, d) || IsTransient(s.calls[d].phase) || HasHelper(s.calls[d].phase, Blocked))
  }

  /** Of the next steps of a TryLock, one makes it fail. */
  ghost predicate CanFail(s: State, c: CallId) {
    exists e :: (e == TryMutex(c) || e == LoseRace(c)) && FailsBy(s, c, e)
  }

  ghost predicate FailsBy(s: State, c: CallId, e: Event) {
    InRange(s) && Enabled(s, e) && c < |Step(s, e).calls| && Step(s, e).calls[c].phase.TryFailed?
  }

  /** TryLock can fail if and only if another call stands in the way on the same keyMutex:
      an owner of the key, a helper, an orphan, a probe or an Unlock that holds the mutex
      in passing, or a helper queued on it. It must fail if and only if one holds it. */
  lemma TryLockFailsIff(s: State, c: CallId)
    requires Inv(s) && c < |s.calls| && s.calls[c].phase.Trying?
    ensures CanFail(s, c) <==> exists d: CallId :: IsRival(s, c, d)
    ensures FailsBy(s, c, TryMutex(c)) <==> exists d: CallId :: IsRival(s, c, d) && Holding(s.calls[d].phase)
  {
    assert FailsBy(s, c, TryMutex(c)) <==> IsMutexLocked(s, c);
    assert FailsBy(s, c, LoseRace(c)) <==> HasQueue(s, c);
    LockedIffRivalHolds(s, c);
    if d: CallId :| IsRival(s, c, d) {
      assert Holding(s.calls[d].phase) || HasQueue(s, c);
      assert FailsBy(s, c, TryMutex(c)) || FailsBy(s, c, LoseRace(c));
    }
    if HasQueue(s, c) {
      var d :| 0 <= d < |s.calls| && d != c
        && s.calls[d].mutex == s.calls[c].mutex && HasHelper(s.calls[d].phase, Blocked);
      assert IsRival(s, c, d);
    }
  }

  lemma LockedIffRivalHolds(s: State, c: CallId)
    requires Inv(s) && c < |s.calls| && s.calls[c].phase.Trying?
    ensures IsMutexLocked(s, c) <==> exists d: CallId :: IsRival(s, c, d) && Holding(s.calls[d].phase)
  {
    if IsMutexLocked(s, c) {
      var d := TallyWitness(Holds(s.calls[c].mutex), s.calls);
      assert IsRival(s, c, d) && Holding(s.calls[d].phase);
    }
    if d: CallId :| IsRival(s, c, d) && Holding(s.calls[d].phase) {
      HolderSeesLocked(s, d);
    }
  }

  /** So TryLock can fail on a key that nobody owns: here a probe is in the way. */
  lemma TryLockFailsSpuriously(key: Key)
    ensures
      var es := [StartTry(key), StartProbe(key), Probe(1), TryMutex(0)];
      && Run(INIT, es).Some?
      && Run(INIT, es).value.calls[..] == [Call(key, 0, TryFailed), Call(key, 0, ProbeHolding)]
  {
    var es, s := TryThenProbe(key);
    RunAppend(INIT, es, Probe(1));
    StepKeepsInv(s, Probe(1));
    var held := Step(s, Probe(1));
    assert held.calls == [Call(key, 0, Trying), Call(key, 0, ProbeHolding)];
    RunAppend(INIT, es + [Probe(1)], TryMutex(0));
    assert Step(held, TryMutex(0)).calls == [Call(key, 0, TryFailed), Call(key, 0, ProbeHolding)];
    assert es + [Probe(1)] + [TryMutex(0)] == [StartTry(key), StartProbe(key), Probe(1), TryMutex(0)];
  }

  lemma TryThenProbe(key: Key) returns (es: seq<Event>, s: State)
    ensures es == [StartTry(key), StartProbe(key)] && Run(INIT, es) == Some(s) && Inv(s)
    ensures s.calls == [Call(key, 0, Trying), Call(key, 0, Probing)]
    ensures |s.table.mutexes| == 1 && !s.table.mutexes[0].locked
  {
    var t := Step(INIT, StartTry(key));
    StepKeepsInv(INIT, StartTry(key));
    RunAppend(INIT, [], StartTry(key));
    assert [] + [StartTry(key)] == [StartTry(key)];
    s := Step(t, StartProbe(key));
    StepKeepsInv(t, StartProbe(key));
    RunAppend(INIT, [StartTry(key)], StartProbe(key));
    es := [StartTry(key)] + [StartProbe(key)];
  }

  /** Unlock by anybody is a no-op exactly when no call has a reference for the key. The
      interface says "not currently locked"; pending calls make the difference. */
  lemma UnlockIsNoOpIff(s: State, key: Key)
    requires Inv(s)
    ensures UnlockSection(s.table, key) == (s.table, None) <==>
      forall c :: 0 <= c < |s.calls| && s.calls[c].key == key ==> !Referenced(s.calls[c].phase)
  {
    if key in s.table.locks {
      var m := s.table.locks[key];
      var i := TallyWitness(References(m), s.calls);
      assert s.table.locks[s.calls[i].key] == m;
    }
  }

  /** The promise fails: nobody holds or ever held the key, yet an Unlock of it prunes
      the entry of a pending Lock and goes on to unlock a free mutex. */
  lemma UnlockOfFreeKeyIsUnsafe(key: Key)
    ensures
      var s := Step(INIT, StartLock(key));
      && Inv(s) && !s.table.mutexes[0].locked
      && UnlockSection(s.table, key) == (Table(map[], [Mutex(false, 0)]), Some(0))
  {
    StepKeepsInv(INIT, StartLock(key));
    var t := Step(INIT, StartLock(key)).table;
    assert t == Table(map[key := 0], [Mutex(false, 1)]);
    LeaveLast(key);
  }

  lemma LeaveLast(key: Key)
    ensures Leave(Table(map[key := 0], [Mutex(false, 1)]), key, 0) == Table(map[], [Mutex(false, 0)])
  {
    var t := Leave(Table(map[key := 0], [Mutex(false, 1)]), key, 0);
    assert t.mutexes == [Mutex(false, 0)];
    assert t.locks == map[key := 0] - {key} == map[];
  }
}
