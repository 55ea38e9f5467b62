/** cluster/lock.go as an interleaved protocol. One event is one il.mu section, one
    operation on a per-key mutex, or one operation on the channel `acquired`. */
module LockProtocol {
  import opened Options
  import opened LockTable

  type CallId = nat

  /** The goroutine spawned by Lock: it blocks on the per-key mutex, then it sends one
      token on the buffered channel. */
  datatype Helper = Blocked | Acquired | Sent

  /** Where one call stands. The first five phases belong to Lock. */
  datatype Phase =
    | Waiting(helper: Helper)    // in the select of lines 113-139
    | Cancelled(helper: Helper)  // took ctx.Done, not yet in the il.mu section
    | Draining(helper: Helper)   // past that section, before the second select
    | Orphan(helper: Helper)     // returned the error, a goroutine waits for the token
    | Discarding                 // the token is taken, km.mu.Unlock comes next
    | Trying                     // TryLock, registered
    | TryFailed                  // TryLock lost, not yet in the il.mu section
    | Owner                      // Lock returned nil or TryLock returned true
    | Releasing                  // Unlock, past its il.mu section
    | Probing                    // IsLocked, holding a pointer to the keyMutex
    | ProbeHolding               // IsLocked, its TryLock succeeded
    | Finished

  datatype Call = Call(key: Key, mutex: MutexId, phase: Phase)

  datatype State = State(table: Table, calls: seq<Call>)

  const INIT := State(Table(map[], []), [])

  datatype Event =
    | StartLock(key: Key)      // lines 102-111
    | StartTry(key: Key)       // lines 145-147
    | StartProbe(key: Key)     // lines 181-186
    | HelperLock(c: CallId)    // line 109
    | HelperSend(c: CallId)    // line 110
    | Receive(c: CallId)       // lines 114-115
    | Cancel(c: CallId)        // line 116
    | CancelSection(c: CallId) // lines 120-125
    | Drain(c: CallId)         // lines 128-137
    | OrphanReceive(c: CallId) // line 134
    | Discard(c: CallId)       // lines 130 and 135
    | TryMutex(c: CallId)      // line 149
    | TrySection(c: CallId)    // lines 151-156
    | Unlock(c: CallId)        // lines 164-174, called by the owner `c`
    | Release(c: CallId)       // line 175
    | Probe(c: CallId)         // line 188
    | ProbeRelease(c: CallId)  // line 189
    | LoseRace(c: CallId)      // lines 149 and 188, on a free mutex

  predicate IsStart(e: Event) {
    e.StartLock? || e.StartTry? || e.StartProbe?
  }

  /** Whether the call has a share in the reference count of its keyMutex. */
  predicate Referenced(p: Phase) {
    p.Waiting? || p.Cancelled? || p.Trying? || p.TryFailed? || p.Owner?
  }

  /** Whether the call, or its helper, is responsible for a locked mutex. */
  predicate Holding(p: Phase) {
    || ((p.Waiting? || p.Cancelled? || p.Draining? || p.Orphan?) && p.helper != Blocked)
    || p.Discarding? || p.Owner? || p.Releasing? || p.ProbeHolding?
  }

  predicate HasHelper(p: Phase, h: Helper) {
    (p.Waiting? || p.Cancelled? || p.Draining? || p.Orphan?) && p.helper == h
  }

  predicate IsMutexLocked(s: State, c: CallId)
    requires c < |s.calls|
  {
    var m := s.calls[c].mutex;
    m < |s.table.mutexes| && s.table.mutexes[m].locked
  }

  /** Another call's helper is queued on the mutex of call `c`, or about to be. TryLock of
      a sync.Mutex also fails when the mutex changes between its load and its
      compare-and-swap. If it was acquired in between, it was locked at some moment, which
      TryMutex and Probe cover; it changes while free only for goroutines queued on it. */
  predicate HasQueue(s: State, c: CallId)
    requires c < |s.calls|
  {
    exists d :: 0 <= d < |s.calls| && d != c
      && s.calls[d].mutex == s.calls[c].mutex && HasHelper(s.calls[d].phase, Blocked)
  }

  /** What the code allows to happen next. A blocking Lock on a sync.Mutex waits
      until it is free; everything else only looks at its own program counter. */
  predicate Enabled(s: State, e: Event) {
    match e
    case StartLock(_) => true
    case StartTry(_) => true
    case StartProbe(_) => true
    case HelperLock(c) => c < |s.calls| && HasHelper(s.calls[c].phase, Blocked) && !IsMutexLocked(s, c)
    case HelperSend(c) => c < |s.calls| && HasHelper(s.calls[c].phase, Acquired)
    case Receive(c) => c < |s.calls| && s.calls[c].phase == Waiting(Sent)
    case Cancel(c) => c < |s.calls| && s.calls[c].phase.Waiting?
    case CancelSection(c) => c < |s.calls| && s.calls[c].phase.Cancelled?
    case Drain(c) => c < |s.calls| && s.calls[c].phase.Draining?
    case OrphanReceive(c) => c < |s.calls| && s.calls[c].phase == Orphan(Sent)
    case Discard(c) => c < |s.calls| && s.calls[c].phase.Discarding?
    case TryMutex(c) => c < |s.calls| && s.calls[c].phase.Trying?
    case TrySection(c) => c < |s.calls| && s.calls[c].phase.TryFailed?
    case Unlock(c) => c < |s.calls| && s.calls[c].phase.Owner?
    case Release(c) => c < |s.calls| && s.calls[c].phase.Releasing?
    case Probe(c) => c < |s.calls| && s.calls[c].phase.Probing?
    case ProbeRelease(c) => c < |s.calls| && s.calls[c].phase.ProbeHolding?
    case LoseRace(c) =>
      c < |s.calls| && (s.calls[c].phase.Trying? || s.calls[c].phase.Probing?) && HasQueue(s, c)
  }

  /** The ids in a state point into its sequences. */
  ghost predicate InRange(s: State) {
    && WellFormed(s.table)
    && (forall c :: 0 <= c < |s.calls| ==> s.calls[c].mutex < |s.table.mutexes|)
  }

  /** The call moves on and its mutex is left locked or free. */
  function Move(s: State, c: CallId, p: Phase, locked: bool): State
    requires c < |s.calls| && s.calls[c].mutex < |s.table.mutexes|
  {
    State(SetLocked(s.table, s.calls[c].mutex, locked), s.calls[c := s.calls[c].(phase := p)])
  }

  function WithHelper(p: Phase, h: Helper): Phase
    requires p.Waiting? || p.Cancelled? || p.Draining? || p.Orphan?
  {
    match p
    case Waiting(_) => Waiting(h)
    case Cancelled(_) => Cancelled(h)
    case Draining(_) => Draining(h)
    case Orphan(_) => Orphan(h)
  }

  function LostRace(p: Phase): Phase {
    if p.Trying? then TryFailed else Finished
  }

  /** A new call registers with its key's keyMutex. */
  function Register(s: State, key: Key, p: Phase): State
    requires InRange(s)
  {
    var (t, m) := GetOrCreate(s.table, key);
    State(t, s.calls + [Call(key, m, p)])
  }

  /** A call gives its reference back and moves on. */
  function LeaveTo(s: State, c: CallId, p: Phase): State
    requires c < |s.calls| && s.calls[c].mutex < |s.table.mutexes|
  {
    State(Leave(s.table, s.calls[c].key, s.calls[c].mutex), s.calls[c := s.calls[c].(phase := p)])
  }

  function Step(s: State, e: Event): State
    requires InRange(s) && Enabled(s, e)
  {
    match e
    case StartLock(k) => Register(s, k, Waiting(Blocked))
    case StartTry(k) => Register(s, k, Trying)
    case StartProbe(k) =>
      if k in s.table.locks then s.(calls := s.calls + [Call(k, s.table.locks[k], Probing)]) else s
    case HelperLock(c) => Move(s, c, WithHelper(s.calls[c].phase, Acquired), true)
    case HelperSend(c) => Move(s, c, WithHelper(s.calls[c].phase, Sent), IsMutexLocked(s, c))
    case Receive(c) => Move(s, c, Owner, IsMutexLocked(s, c))
    case Cancel(c) => Move(s, c, Cancelled(s.calls[c].phase.helper), IsMutexLocked(s, c))
    case CancelSection(c) => LeaveTo(s, c, Draining(s.calls[c].phase.helper))
    case Drain(c) =>
      var h := s.calls[c].phase.helper;
      Move(s, c, if h.Sent? then Discarding else Orphan(h), IsMutexLocked(s, c))
    case OrphanReceive(c) => Move(s, c, Discarding, IsMutexLocked(s, c))
    case Discard(c) => Move(s, c, Finished, false)
    case TryMutex(c) => Move(s, c, if IsMutexLocked(s, c) then TryFailed else Owner, true)
    case TrySection(c) => LeaveTo(s, c, Finished)
    case Unlock(c) =>
      var k := s.calls[c].key;
      var (t, found) := UnlockSection(s.table, k);
      if found.None? then s.(calls := s.calls[c := s.calls[c].(phase := Finished)])
      else State(t, s.calls[c := Call(k, found.value, Releasing)])
    case Release(c) => Move(s, c, Finished, false)
    case Probe(c) => Move(s, c, if IsMutexLocked(s, c) then Finished else ProbeHolding, true)
    case ProbeRelease(c) => Move(s, c, Finished, false)
    case LoseRace(c) => Move(s, c, LostRace(s.calls[c].phase), IsMutexLocked(s, c))
  }

  // ---- Counting calls ----

  /** What is counted about a call. */
  datatype Quantity =
    | References(m: MutexId)  // its share in the reference count of `m`
    | Holds(m: MutexId)       // its hold on the mutex of `m`
    | Outstanding             // whether it has a reference at all
    | StepsLeft               // how many more steps it can take

  function HelperSteps(h: Helper): nat {
    match h case Blocked => 2 case Acquired => 1 case Sent => 0
  }

  function PhaseSteps(p: Phase): nat {
    match p
    case Waiting(h) => 5 + HelperSteps(h)
    case Cancelled(h) => 4 + HelperSteps(h)
    case Draining(h) => 3 + HelperSteps(h)
    case Orphan(h) => 2 + HelperSteps(h)
    case Trying => 3
    case Owner => 2
    case Probing => 2
    case Discarding => 1
    case TryFailed => 1
    case Releasing => 1
    case ProbeHolding => 1
    case Finished => 0
  }

  function Weight(q: Quantity, c: Call): nat {
    match q
    case References(m) => if c.mutex == m && Referenced(c.phase) then 1 else 0
    case Holds(m) => if c.mutex == m && Holding(c.phase) then 1 else 0
    case Outstanding => if Referenced(c.phase) then 1 else 0
    case StepsLeft => PhaseSteps(c.phase)
  }

  function Tally(q: Quantity, calls: seq<Call>): nat {
    if calls == [] then 0 else Weight(q, calls[0]) + Tally(q, calls[1..])
  }

  lemma {:induction false} TallyAppend(q: Quantity, calls: seq<Call>, c: Call)
    ensures Tally(q, calls + [c]) == Tally(q, calls) + Weight(q, c)
  {
    if calls != [] {
      assert (calls + [c])[1..] == calls[1..] + [c];
      TallyAppend(q, calls[1..], c);
    }
  }

  lemma {:induction false} TallyUpdate(q: Quantity, calls: seq<Call>, i: nat, c: Call)
    requires i < |calls|
    ensures Tally(q, calls[i := c]) == Tally(q, calls) - Weight(q, calls[i]) + Weight(q, c)
    ensures Weight(q, calls[i]) <= Tally(q, calls)
  {
    if i > 0 {
      assert calls[i := c][1..] == calls[1..][i - 1 := c];
      TallyUpdate(q, calls[1..], i - 1, c);
    } else {
      assert calls[0 := c][1..] == calls[1..];
    }
  }

  /** Two calls that weigh in make a tally of at least the sum. */
  lemma {:induction false} TallyTwo(q: Quantity, calls: seq<Call>, i: nat, j: nat)
    requires i < j < |calls|
    ensures Weight(q, calls[i]) + Weight(q, calls[j]) <= Tally(q, calls)
  {
    if i > 0 {
      TallyTwo(q, calls[1..], i - 1, j - 1);
    } else {
      TallyUpdate(q, calls[1..], j - 1, calls[j]);
    }
  }

  /** A positive tally has a call behind it. */
  lemma {:induction false} TallyWitness(q: Quantity, calls: seq<Call>) returns (i: nat)
    requires Tally(q, calls) > 0
    ensures i < |calls| && Weight(q, calls[i]) > 0
  {
    if Weight(q, calls[0]) > 0 {
      i := 0;
    } else {
      i := TallyWitness(q, calls[1..]);
      i := i + 1;
    }
  }

  // ---- The invariant ----

  /** A call with a reference uses the keyMutex the map has for its key. */
  ghost predicate Routed(s: State) {
    forall c :: 0 <= c < |s.calls| && Referenced(s.calls[c].phase) ==>
      s.calls[c].key in s.table.locks && s.table.locks[s.calls[c].key] == s.calls[c].mutex
  }

  /** Every count is the number of calls that have a reference. */
  ghost predicate Counted(s: State) {
    forall m :: 0 <= m < |s.table.mutexes| ==>
      s.table.mutexes[m].waiters == Tally(References(m), s.calls)
  }

  /** A mutex is locked when exactly one call holds it, and free when none does. */
  ghost predicate Exclusive(s: State) {
    forall m :: 0 <= m < |s.table.mutexes| ==>
      Tally(Holds(m), s.calls) == if s.table.mutexes[m].locked then 1 else 0
  }

  /** Entries nobody has a reference to are gone. */
  ghost predicate Pruned(s: State) {
    forall k :: k in s.table.locks && s.table.locks[k] < |s.table.mutexes| ==>
      s.table.mutexes[s.table.locks[k]].waiters > 0
  }

  ghost predicate Inv(s: State) {
    InRange(s) && Routed(s) && Counted(s) && Exclusive(s) && Pruned(s)
  }

  lemma MoveKeepsInv(s: State, c: CallId, p: Phase, locked: bool)
    requires Inv(s) && c < |s.calls|
    requires Referenced(p) == Referenced(s.calls[c].phase)
    requires (if locked then 1 else 0) - (if IsMutexLocked(s, c) then 1 else 0)
          == (if Holding(p) then 1 else 0) - (if Holding(s.calls[c].phase) then 1 else 0)
    ensures Inv(Move(s, c, p, locked))
  {
    var s' := Move(s, c, p, locked);
    forall m | 0 <= m < |s'.table.mutexes|
      ensures s'.table.mutexes[m].waiters == Tally(References(m), s'.calls)
      ensures Tally(Holds(m), s'.calls) == if s'.table.mutexes[m].locked then 1 else 0
    {
      TallyUpdate(References(m), s.calls, c, s'.calls[c]);
      TallyUpdate(Holds(m), s.calls, c, s'.calls[c]);
    }
  }

  lemma RegisterKeepsInv(s: State, key: Key, p: Phase)
    requires Inv(s) && Referenced(p) && !Holding(p)
    ensures Inv(Register(s, key, p))
  {
    var s' := Register(s, key, p);
    forall m | 0 <= m < |s'.table.mutexes|
      ensures s'.table.mutexes[m].waiters == Tally(References(m), s'.calls)
      ensures Tally(Holds(m), s'.calls) == if s'.table.mutexes[m].locked then 1 else 0
    {
      RegisterCounts(s, key, p, m);
    }
  }

  lemma RegisterCounts(s: State, key: Key, p: Phase, m: MutexId)
    requires Inv(s) && Referenced(p) && !Holding(p) && m < |Register(s, key, p).table.mutexes|
    ensures
      var s' := Register(s, key, p);
      && s'.table.mutexes[m].waiters == Tally(References(m), s'.calls)
      && Tally(Holds(m), s'.calls) == if s'.table.mutexes[m].locked then 1 else 0
  {
    var call := Register(s, key, p).calls[|s.calls|];
    TallyAppend(References(m), s.calls, call);
    TallyAppend(Holds(m), s.calls, call);
    if m == |s.table.mutexes| {
      NobodyUsesNew(s, References(m));
      NobodyUsesNew(s, Holds(m));
    }
  }

  /** No call weighs in on a keyMutex that does not exist yet. */
  lemma NobodyUsesNew(s: State, q: Quantity)
    requires InRange(s) && (q.References? || q.Holds?) && q.m == |s.table.mutexes|
    ensures Tally(q, s.calls) == 0
  {
    if Tally(q, s.calls) > 0 {
      var i := TallyWitness(q, s.calls);
    }
  }

  lemma LeaveKeepsInv(s: State, c: CallId, p: Phase)
    requires Inv(s) && c < |s.calls|
    requires Referenced(s.calls[c].phase) && !Referenced(p)
    requires Holding(p) == Holding(s.calls[c].phase)
    ensures Inv(LeaveTo(s, c, p))
  {
    var s' := LeaveTo(s, c, p);
    forall m | 0 <= m < |s'.table.mutexes|
      ensures s'.table.mutexes[m].waiters == Tally(References(m), s'.calls)
      ensures Tally(Holds(m), s'.calls) == if s'.table.mutexes[m].locked then 1 else 0
    {
      TallyUpdate(References(m), s.calls, c, s'.calls[c]);
      TallyUpdate(Holds(m), s.calls, c, s'.calls[c]);
    }
    assert Counted(s') && Exclusive(s');
    forall i | 0 <= i < |s'.calls| && Referenced(s'.calls[i].phase)
      ensures s'.calls[i].key in s'.table.locks
      ensures s'.table.locks[s'.calls[i].key] == s'.calls[i].mutex
    {
      // The entry is deleted only on a count of zero, so not while `i` shares it.
      TallyUpdate(References(s'.calls[i].mutex), s'.calls, i, s'.calls[i]);
    }
  }

  lemma ProbeKeepsInv(s: State, key: Key)
    requires Inv(s)
    ensures Inv(Step(s, StartProbe(key)))
  {
    var s' := Step(s, StartProbe(key));
    if key in s.table.locks {
      forall m | 0 <= m < |s.table.mutexes|
        ensures Tally(References(m), s'.calls) == Tally(References(m), s.calls)
        ensures Tally(Holds(m), s'.calls) == Tally(Holds(m), s.calls)
      {
        ProbeWeighsNothing(s.calls, Call(key, s.table.locks[key], Probing), m);
      }
    }
  }

  lemma ProbeWeighsNothing(calls: seq<Call>, c: Call, m: MutexId)
    requires c.phase.Probing?
    ensures Tally(References(m), calls + [c]) == Tally(References(m), calls)
    ensures Tally(Holds(m), calls + [c]) == Tally(Holds(m), calls)
  {
    TallyAppend(References(m), calls, c);
    TallyAppend(Holds(m), calls, c);
  }

  /** A call that holds its mutex finds it locked. */
  lemma HolderSeesLocked(s: State, c: CallId)
    requires Inv(s) && c < |s.calls| && Holding(s.calls[c].phase)
    ensures IsMutexLocked(s, c)
  {
    TallyUpdate(Holds(s.calls[c].mutex), s.calls, c, s.calls[c]);
  }

  /** The owner's Unlock finds, through the map, the very keyMutex the owner holds. */
  lemma OwnerUnlocksItsOwn(s: State, c: CallId)
    requires Inv(s) && Enabled(s, Unlock(c))
    ensures UnlockSection(s.table, s.calls[c].key).1 == Some(s.calls[c].mutex)
    ensures Step(s, Unlock(c)) == LeaveTo(s, c, Releasing)
  {
  }

  lemma RegistrationKeepsInv(s: State, e: Event)
    requires Inv(s) && Enabled(s, e) && IsStart(e)
    ensures Inv(Step(s, e))
  {
    match e
    case StartLock(k) => RegisterKeepsInv(s, k, Waiting(Blocked));
    case StartTry(k) => RegisterKeepsInv(s, k, Trying);
    case StartProbe(k) => ProbeKeepsInv(s, k);
  }

  lemma SectionKeepsInv(s: State, e: Event)
    requires Inv(s) && Enabled(s, e) && IsSection(e)
    ensures Inv(Step(s, e))
  {
    if e.Unlock? {
      OwnerUnlocksItsOwn(s, e.c);
      LeaveKeepsInv(s, e.c, Releasing);
    } else if e.TrySection? {
      LeaveKeepsInv(s, e.c, Finished);
    } else {
      LeaveKeepsInv(s, e.c, Draining(s.calls[e.c].phase.helper));
    }
  }

  /** The il.mu sections that give a reference back. */
  predicate IsSection(e: Event) {
    e.CancelSection? || e.TrySection? || e.Unlock?
  }

  /** The attempts of TryLock and IsLocked. */
  predicate IsAttempt(e: Event) {
    e.TryMutex? || e.Probe? || e.LoseRace?
  }

  lemma AttemptKeepsInv(s: State, e: Event)
    requires Inv(s) && Enabled(s, e) && IsAttempt(e)
    ensures Inv(Step(s, e))
  {
    if e.TryMutex? {
      MoveKeepsInv(s, e.c, if IsMutexLocked(s, e.c) then TryFailed else Owner, true);
    } else if e.Probe? {
      MoveKeepsInv(s, e.c, if IsMutexLocked(s, e.c) then Finished else ProbeHolding, true);
    } else {
      MoveKeepsInv(s, e.c, LostRace(s.calls[e.c].phase), IsMutexLocked(s, e.c));
    }
  }

  predicate IsUnlocking(e: Event) {
    e.Discard? || e.Release? || e.ProbeRelease?
  }

  /** No step unlocks a mutex that is free, which Go would punish with a fatal error. */
  lemma NeverUnlocksFreeMutex(s: State, e: Event)
    requires Inv(s) && Enabled(s, e) && IsUnlocking(e)
    ensures IsMutexLocked(s, e.c)
    ensures !IsMutexLocked(Step(s, e), e.c)
  {
    HolderSeesLocked(s, e.c);
  }

  lemma ReleaseKeepsInv(s: State, e: Event)
    requires Inv(s) && Enabled(s, e) && IsUnlocking(e)
    ensures Inv(Step(s, e))
  {
    HolderSeesLocked(s, e.c);
    MoveKeepsInv(s, e.c, Finished, false);
  }

  lemma HelperKeepsInv(s: State, e: Event)
    requires Inv(s) && Enabled(s, e) && (e.HelperLock? || e.HelperSend?)
    ensures Inv(Step(s, e))
  {
    var p := s.calls[e.c].phase;
    if e.HelperLock? {
      MoveKeepsInv(s, e.c, WithHelper(p, Acquired), true);
    } else {
      MoveKeepsInv(s, e.c, WithHelper(p, Sent), IsMutexLocked(s, e.c));
    }
  }

  lemma LockStepKeepsInv(s: State, e: Event)
    requires Inv(s) && Enabled(s, e)
    requires e.HelperLock? || e.HelperSend? || e.Receive? || e.Cancel? || e.Drain? || e.OrphanReceive?
    ensures Inv(Step(s, e))
  {
    if e.HelperLock? || e.HelperSend? {
      HelperKeepsInv(s, e);
    } else {
      // Neither the mutex nor the call's hold on it changes.
      MoveKeepsInv(s, e.c, Step(s, e).calls[e.c].phase, IsMutexLocked(s, e.c));
    }
  }

  lemma StepKeepsInv(s: State, e: Event)
    requires Inv(s) && Enabled(s, e)
    ensures Inv(Step(s, e))
  {
    if IsStart(e) {
      RegistrationKeepsInv(s, e);
    } else if IsUnlocking(e) {
      ReleaseKeepsInv(s, e);
    } else if IsSection(e) {
      SectionKeepsInv(s, e);
    } else if IsAttempt(e) {
      AttemptKeepsInv(s, e);
    } else {
      LockStepKeepsInv(s, e);
    }
  }

  // ---- Runs ----

  /** The state a run ends in, if every event was enabled when it came. */
  ghost function Run(s: State, es: seq<Event>): (r: Option<State>)
    decreases |es|
  {
    if es == [] then Some(s)
    else if InRange(s) && Enabled(s, es[0]) then Run(Step(s, es[0]), es[1..])
    else None
  }

  lemma {:induction false} RunAppend(s: State, es: seq<Event>, e: Event)
    requires Run(s, es).Some? && InRange(Run(s, es).value) && Enabled(Run(s, es).value, e)
    ensures Run(s, es + [e]) == Some(Step(Run(s, es).value, e))
    decreases |es|
  {
    if es == [] {
      assert [e][1..] == [];
    } else {
      assert (es + [e])[1..] == es[1..] + [e];
      RunAppend(Step(s, es[0]), es[1..], e);
    }
  }

  ghost predicate Reachable(s: State) {
    exists es :: Run(INIT, es) == Some(s)
  }

  lemma {:induction false} RunKeepsInv(s: State, es: seq<Event>)
    requires Inv(s) && Run(s, es).Some?
    ensures Inv(Run(s, es).value)
    decreases |es|
  {
    if es != [] {
      StepKeepsInv(s, es[0]);
      RunKeepsInv(Step(s, es[0]), es[1..]);
    }
  }

  /** Every interleaving of any number of calls stays inside the invariant. */
  lemma ReachableInv(s: State)
    requires Reachable(s)
    ensures Inv(s)
  {
    var es :| Run(INIT, es) == Some(s);
    RunKeepsInv(INIT, es);
  }
}
