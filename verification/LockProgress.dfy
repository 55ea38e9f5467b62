/** What a caller of Lock can always do: start, get the key once it is free, and give up as
    soon as its context ends, whatever the others are doing. */
module LockProgress {
  import opened Options
  import opened LockTable
  import opened LockProtocol
  import opened LockTheorems

  /** Run, for events one after the other. */
  lemma RunTwo(s: State, e: Event, f: Event)
    requires InRange(s) && Enabled(s, e) && InRange(Step(s, e)) && Enabled(Step(s, e), f)
    ensures Run(s, [e, f]) == Some(Step(Step(s, e), f))
  {
    assert [e, f][1..] == [f] && [f][1..] == [];
    assert Run(Step(s, e), [f]) == Some(Step(Step(s, e), f));
  }

  lemma RunThree(s: State, e: Event, f: Event, g: Event)
    requires InRange(s) && Enabled(s, e) && InRange(Step(s, e)) && Enabled(Step(s, e), f)
    requires InRange(Step(Step(s, e), f)) && Enabled(Step(Step(s, e), f), g)
    ensures Run(s, [e, f, g]) == Some(Step(Step(Step(s, e), f), g))
  {
    assert [e, f, g][1..] == [f, g];
    RunTwo(Step(s, e), f, g);
  }

  // ---- Starting and acquiring ----

  /** A Lock can start at any time, on any key, and leaves every other call alone. */
  lemma LockCanStart(s: State, key: Key)
    requires Inv(s)
    ensures
      Enabled(s, StartLock(key)) && Enabled(s, StartTry(key)) && Enabled(s, StartProbe(key))
    ensures
      var s' := Step(s, StartLock(key));
      && Inv(s') && |s'.calls| == |s.calls| + 1 && s'.calls[..|s.calls|] == s.calls
      && s'.calls[|s.calls|].key == key && s'.calls[|s.calls|].phase == Waiting(Blocked)
    ensures
      var s' := Step(s, StartTry(key));
      && Inv(s') && |s'.calls| == |s.calls| + 1 && s'.calls[..|s.calls|] == s.calls
      && s'.calls[|s.calls|].key == key && s'.calls[|s.calls|].phase == Trying
  {
    StepKeepsInv(s, StartLock(key));
    StepKeepsInv(s, StartTry(key));
  }

  /** Only call `c` has changed, and no mutex has been locked or unlocked. */
  ghost predicate ChangesOnly(s: State, s': State, c: CallId) {
    && |s'.calls| == |s.calls| && |s'.table.mutexes| == |s.table.mutexes|
    && (forall d :: 0 <= d < |s.calls| && d != c ==> s'.calls[d] == s.calls[d])
    && (forall m :: 0 <= m < |s.table.mutexes| ==> s'.table.mutexes[m].locked == s.table.mutexes[m].locked)
  }

  /** A pending Lock whose mutex is free becomes the owner by three events of its own. */
  lemma FreeKeyIsAcquired(s: State, c: CallId)
    requires Inv(s) && c < |s.calls| && s.calls[c].phase == Waiting(Blocked) && !IsMutexLocked(s, c)
    ensures
      var es := [HelperLock(c), HelperSend(c), Receive(c)];
      && Run(s, es).Some? && c < |Run(s, es).value.calls|
      && IsOwner(Run(s, es).value, s.calls[c].key, c) && IsMutexLocked(Run(s, es).value, c)
  {
    var s1 := Step(s, HelperLock(c));
    StepKeepsInv(s, HelperLock(c));
    var s2 := Step(s1, HelperSend(c));
    StepKeepsInv(s1, HelperSend(c));
    StepKeepsInv(s2, Receive(c));
    RunThree(s, HelperLock(c), HelperSend(c), Receive(c));
  }

  // ---- Giving up ----

  /** Whatever the helper is doing, a waiting Lock can take ctx.Done. */
  lemma WaitingCanCancel(s: State, c: CallId)
    requires Inv(s) && c < |s.calls| && s.calls[c].phase.Waiting?
    ensures Enabled(s, Cancel(c)) && Inv(Step(s, Cancel(c)))
    ensures
      var s' := Step(s, Cancel(c));
      && ChangesOnly(s, s', c) && s'.table == s.table
      && s'.calls[c] == s.calls[c].(phase := Cancelled(s.calls[c].phase.helper))
  {
    StepKeepsInv(s, Cancel(c));
    assert SetLocked(s.table, s.calls[c].mutex, IsMutexLocked(s, c)).mutexes == s.table.mutexes;
  }

  /** Its il.mu section gives exactly its own reference back. */
  lemma CancelledCanLeave(s: State, c: CallId)
    requires Inv(s) && c < |s.calls| && s.calls[c].phase.Cancelled?
    ensures Enabled(s, CancelSection(c)) && Inv(Step(s, CancelSection(c)))
    ensures
      var s', m := Step(s, CancelSection(c)), s.calls[c].mutex;
      && ChangesOnly(s, s', c)
      && s'.calls[c] == s.calls[c].(phase := Draining(s.calls[c].phase.helper))
      && s'.table.mutexes[m].waiters == s.table.mutexes[m].waiters - 1
      && (forall n :: 0 <= n < |s.table.mutexes| && n != m ==> s'.table.mutexes[n] == s.table.mutexes[n])
  {
    StepKeepsInv(s, CancelSection(c));
  }

  /** And then it returns: a token that is there is taken, otherwise an orphan waits. */
  lemma DrainingCanReturn(s: State, c: CallId)
    requires Inv(s) && c < |s.calls| && s.calls[c].phase.Draining?
    ensures Enabled(s, Drain(c)) && Inv(Step(s, Drain(c)))
    ensures
      var s', h := Step(s, Drain(c)), s.calls[c].phase.helper;
      && ChangesOnly(s, s', c) && s'.table == s.table
      && s'.calls[c] == s.calls[c].(phase := if h == Sent then Discarding else Orphan(h))
  {
    StepKeepsInv(s, Drain(c));
    assert SetLocked(s.table, s.calls[c].mutex, IsMutexLocked(s, c)).mutexes == s.table.mutexes;
  }

  /** Lock respects its context: from any state, a call that waits, behind an owner or not,
      can return its error by three events of its own, which wait for nobody. They change no
      other call and no mutex, and give one reference back. */
  lemma CancelReturns(s: State, c: CallId)
    requires Inv(s) && c < |s.calls| && s.calls[c].phase.Waiting?
    ensures
      var es := [Cancel(c), CancelSection(c), Drain(c)];
      var h, m := s.calls[c].phase.helper, s.calls[c].mutex;
      && Run(s, es).Some?
      && var s' := Run(s, es).value;
         && Inv(s') && ChangesOnly(s, s', c)
         && s'.calls[c] == s.calls[c].(phase := if h == Sent then Discarding else Orphan(h))
         && s'.table.mutexes[m].waiters == s.table.mutexes[m].waiters - 1
  {
    var s1 := Step(s, Cancel(c));
    WaitingCanCancel(s, c);
    var s2 := Step(s1, CancelSection(c));
    CancelledCanLeave(s1, c);
    DrainingCanReturn(s2, c);
    RunThree(s, Cancel(c), CancelSection(c), Drain(c));
  }

  // ---- With the events of others in between ----

  lemma StepKeepsStanding(s: State, e: Event, c: CallId)
    requires Inv(s) && Enabled(s, e) && c < |s.calls| && e != CancelSection(c) && e != Drain(c)
    requires s.calls[c].phase.Cancelled? || s.calls[c].phase.Draining?
    ensures
      var s' := Step(s, e);
      && c < |s'.calls| && s'.calls[c].key == s.calls[c].key && s'.calls[c].mutex == s.calls[c].mutex
      && s'.calls[c].phase.Cancelled? == s.calls[c].phase.Cancelled?
      && s'.calls[c].phase.Draining? == s.calls[c].phase.Draining?
  {
    if !IsStart(e) && e.c != c {
      var call := StepMovesOneCall(s, e);
    } else if IsStart(e) {
      StartKeepsCalls(s, e);
    }
  }

  lemma StartKeepsCalls(s: State, e: Event)
    requires Inv(s) && IsStart(e)
    ensures Enabled(s, e) && |s.calls| <= |Step(s, e).calls| && Step(s, e).calls[..|s.calls|] == s.calls
  {
  }

  /** No event but its own moves a call on that is giving up. */
  lemma {:induction false} RunKeepsStanding(s: State, es: seq<Event>, c: CallId)
    requires Inv(s) && Run(s, es).Some? && c < |s.calls|
    requires s.calls[c].phase.Cancelled? || s.calls[c].phase.Draining?
    requires CancelSection(c) !in es && Drain(c) !in es
    ensures
      var s' := Run(s, es).value;
      && Inv(s') && c < |s'.calls| && s'.calls[c].key == s.calls[c].key && s'.calls[c].mutex == s.calls[c].mutex
      && s'.calls[c].phase.Cancelled? == s.calls[c].phase.Cancelled?
      && s'.calls[c].phase.Draining? == s.calls[c].phase.Draining?
    decreases |es|
  {
    if es != [] {
      assert es[0] in es && forall e :: e in es[1..] ==> e in es;
      StepKeepsInv(s, es[0]);
      StepKeepsStanding(s, es[0], c);
      RunKeepsStanding(Step(s, es[0]), es[1..], c);
    }
  }

  /** The same with any events in between, of other calls or of the helper: after Cancel the
      section is enabled at every moment, and after it the return, until they happen. */
  lemma CancelIsNeverBlocked(s: State, c: CallId, es: seq<Event>, fs: seq<Event>)
    requires Inv(s) && c < |s.calls| && s.calls[c].phase.Waiting?
    requires CancelSection(c) !in es && Drain(c) !in es && CancelSection(c) !in fs && Drain(c) !in fs
    requires Enabled(s, Cancel(c)) ==> Run(Step(s, Cancel(c)), es).Some?
    ensures Enabled(s, Cancel(c))
    ensures
      var s1 := Run(Step(s, Cancel(c)), es).value;
      && Inv(s1) && Enabled(s1, CancelSection(c)) && s1.calls[c].mutex == s.calls[c].mutex
      && var t := Step(s1, CancelSection(c));
         && ChangesOnly(s1, t, c)
         && t.table.mutexes[s.calls[c].mutex].waiters == s1.table.mutexes[s.calls[c].mutex].waiters - 1
         && (Run(t, fs).Some? ==>
               var s2 := Run(t, fs).value;
               && Inv(s2) && Enabled(s2, Drain(c))
               && var r := Step(s2, Drain(c));
                  ChangesOnly(s2, r, c) && (r.calls[c].phase.Orphan? || r.calls[c].phase.Discarding?))
  {
    WaitingCanCancel(s, c);
    RunKeepsStanding(Step(s, Cancel(c)), es, c);
    var s1 := Run(Step(s, Cancel(c)), es).value;
    CancelledCanLeave(s1, c);
    var t := Step(s1, CancelSection(c));
    if Run(t, fs).Some? {
      RunKeepsStanding(t, fs, c);
      DrainingCanReturn(Run(t, fs).value, c);
    }
  }

  // ---- Behind an owner ----

  /** One keyMutex, made for `key`, with these calls. */
  function With(key: Key, locked: bool, waiters: int, calls: seq<Call>): State {
    State(Table(map[key := 0], [Mutex(locked, waiters)]), calls)
  }

  function Alone(key: Key, locked: bool, p: Phase): State {
    With(key, locked, 1, [Call(key, 0, p)])
  }

  function BehindOwner(key: Key, waiters: int, p: Phase): State {
    With(key, true, waiters, [Call(key, 0, Owner), Call(key, 0, p)])
  }

  lemma Starts(key: Key)
    ensures Step(INIT, StartLock(key)) == Alone(key, false, Waiting(Blocked))
  {
  }

  lemma Acquires(key: Key)
    ensures
      var s := Alone(key, false, Waiting(Blocked));
      InRange(s) && Enabled(s, HelperLock(0)) && Step(s, HelperLock(0)) == Alone(key, true, Waiting(Acquired))
    ensures
      var s := Alone(key, true, Waiting(Acquired));
      InRange(s) && Enabled(s, HelperSend(0)) && Step(s, HelperSend(0)) == Alone(key, true, Waiting(Sent))
    ensures
      var s := Alone(key, true, Waiting(Sent));
      InRange(s) && Enabled(s, Receive(0)) && Step(s, Receive(0)) == Alone(key, true, Owner)
  {
  }

  lemma StartsBehind(key: Key)
    ensures
      var s := Alone(key, true, Owner);
      InRange(s) && Step(s, StartLock(key)) == BehindOwner(key, 2, Waiting(Blocked))
  {
    assert [Call(key, 0, Owner)] + [Call(key, 0, Waiting(Blocked))]
        == [Call(key, 0, Owner), Call(key, 0, Waiting(Blocked))];
  }

  lemma GivesUpBehind(key: Key)
    ensures
      var s := BehindOwner(key, 2, Waiting(Blocked));
      InRange(s) && Enabled(s, Cancel(1)) && Step(s, Cancel(1)) == BehindOwner(key, 2, Cancelled(Blocked))
    ensures
      var s := BehindOwner(key, 2, Cancelled(Blocked));
      InRange(s) && Enabled(s, CancelSection(1)) && Step(s, CancelSection(1)) == BehindOwner(key, 1, Draining(Blocked))
    ensures
      var s := BehindOwner(key, 1, Draining(Blocked));
      InRange(s) && Enabled(s, Drain(1)) && Step(s, Drain(1)) == BehindOwner(key, 1, Orphan(Blocked))
  {
  }

  /** One more event at the end of a run. */
  lemma OneMore(es: seq<Event>, s: State, e: Event) returns (es': seq<Event>)
    requires Run(INIT, es) == Some(s) && InRange(s) && Enabled(s, e)
    ensures es' == es + [e] && Run(INIT, es') == Some(Step(s, e))
  {
    RunAppend(INIT, es, e);
    es' := es + [e];
  }

  lemma OwnerAndWaiter(key: Key) returns (es: seq<Event>)
    ensures es == [StartLock(key), HelperLock(0), HelperSend(0), Receive(0), StartLock(key)]
    ensures Run(INIT, es) == Some(BehindOwner(key, 2, Waiting(Blocked)))
  {
    Starts(key);
    Acquires(key);
    StartsBehind(key);
    es := OneMore([], INIT, StartLock(key));
    es := OneMore(es, Alone(key, false, Waiting(Blocked)), HelperLock(0));
    es := OneMore(es, Alone(key, true, Waiting(Acquired)), HelperSend(0));
    es := OneMore(es, Alone(key, true, Waiting(Sent)), Receive(0));
    es := OneMore(es, Alone(key, true, Owner), StartLock(key));
  }

  /** A Lock behind an owner gives up: the owner keeps the key, and the count is one again. */
  lemma CancelBehindOwner(key: Key)
    ensures
      var es := [StartLock(key), HelperLock(0), HelperSend(0), Receive(0), StartLock(key),
                 Cancel(1), CancelSection(1), Drain(1)];
      Run(INIT, es) == Some(State(Table(map[key := 0], [Mutex(true, 1)]),
                                  [Call(key, 0, Owner), Call(key, 0, Orphan(Blocked))]))
  {
    var es := OwnerAndWaiter(key);
    GivesUpBehind(key);
    es := OneMore(es, BehindOwner(key, 2, Waiting(Blocked)), Cancel(1));
    es := OneMore(es, BehindOwner(key, 2, Cancelled(Blocked)), CancelSection(1));
    es := OneMore(es, BehindOwner(key, 1, Draining(Blocked)), Drain(1));
    assert es == [StartLock(key), HelperLock(0), HelperSend(0), Receive(0), StartLock(key),
                  Cancel(1), CancelSection(1), Drain(1)];
  }
}
