/** The scheduler's control goroutine (scheduler/scheduler.go) feeding the worker pool,
    with the shutdown order of main.go. */
module Dispatch {
  import opened Options
  import P = WorkerPool
  import C = SessionCreation

  type SessionId = int

  /** Where the control goroutine stands. */
  datatype Control =
    | Checking                                          // the select of lines 49-54
    | Counting                                          // line 64
    | Dispatching(count: nat, id: nat)                  // the loop of lines 65-75
    | Sending(count: nat, id: nat, job: P.Job)          // in Submit
    | Exited
    | Crashed(id: nat)                                  // sent on the closed channel

  /** `jobs` is a history: the session of each Submit call. `rounds` counts the loops
      over the sessions that have been completed. */
  datatype System = System(
    pool: P.Pool,
    control: Control,
    stopping: bool,
    sessions: set<SessionId>,
    jobs: seq<SessionId>,
    rounds: nat)

  datatype Event =
    | Check
    | ReadCount
    | Look
    | Sent
    | Panic
    | StopScheduler           // Scheduler.Stop, main.go line 155
    | Pool(e: P.Event)        // the workers, and WorkerPool.Stop, main.go line 158
    | StopAll                 // SessionManager.StopAll, main.go line 161

  function Start(workerCount: int, sessions: set<SessionId>): System {
    System(P.NewPool(workerCount), Checking, false, sessions, [], 0)
  }

  predicate IsPoolsOwn(e: P.Event) {
    !e.Submit? && !e.Send? && !e.SendClosed?
  }

  predicate Enabled(s: System, e: Event) {
    match e
    case Check => s.control.Checking?
    case ReadCount => s.control.Counting?
    case Look => s.control.Dispatching?
    case Sent => s.control.Sending? && P.Enabled(s.pool, P.Send(s.control.job))
    case Panic => s.control.Sending? && P.Enabled(s.pool, P.SendClosed(s.control.job))
    case StopScheduler => true
    case Pool(e) => IsPoolsOwn(e) && P.Enabled(s.pool, e)
    case StopAll => true
  }

  function Step(s: System, e: Event): System
    requires Enabled(s, e)
  {
    match e
    case Check => s.(control := if s.stopping then Exited else Counting)
    case ReadCount => s.(control := Dispatching(|s.sessions|, 0))
    case Look =>
      var count, id := s.control.count, s.control.id;
      if id >= count then s.(control := Checking, rounds := s.rounds + 1)
      else if id in s.sessions then
        s.(control := Sending(count, id, |s.pool.calls|),
           pool := P.Step(s.pool, P.Submit),
           jobs := s.jobs + [id])
      else s.(control := Dispatching(count, id + 1))
    case Sent =>
      s.(control := Dispatching(s.control.count, s.control.id + 1), pool := P.Step(s.pool, P.Send(s.control.job)))
    case Panic =>
      s.(control := Crashed(s.control.id), pool := P.Step(s.pool, P.SendClosed(s.control.job)))
    case StopScheduler => s.(stopping := true)
    case Pool(e) => s.(pool := P.Step(s.pool, e))
    case StopAll => s.(sessions := {})
  }

  ghost function Run(s: System, es: seq<Event>): Option<System>
    decreases |es|
  {
    if es == [] then Some(s)
    else if Enabled(s, es[0]) then Run(Step(s, es[0]), es[1..])
    else None
  }

  // ---- The invariant ----

  /** Every Submit call was accepted, except the one the control goroutine is in. */
  ghost predicate CallsInv(s: System) {
    && |s.jobs| == |s.pool.calls|
    && (s.control.Sending? ==> s.control.job == |s.pool.calls| - 1 && s.pool.calls[s.control.job].Blocked?)
    && (forall j :: 0 <= j < |s.pool.calls| && !(s.control.Sending? && j == s.control.job) ==>
          s.pool.calls[j].Accepted? || s.control.Crashed?)
  }

  ghost predicate Inv(s: System) {
    P.Inv(s.pool) && CallsInv(s)
  }

  lemma StepKeepsInv(s: System, e: Event)
    requires Inv(s) && Enabled(s, e)
    ensures Inv(Step(s, e))
  {
    match e
    case Look => P.StepKeepsInv(s.pool, P.Submit);
    case Sent => P.StepKeepsInv(s.pool, P.Send(s.control.job));
    case Panic => P.StepKeepsInv(s.pool, P.SendClosed(s.control.job));
    case Pool(e) => P.StepKeepsInv(s.pool, e);
    case _ =>
  }

  lemma StartInv(workerCount: int, sessions: set<SessionId>)
    ensures Inv(Start(workerCount, sessions))
  {
    P.NewPoolInv(workerCount);
  }

  // ---- Fair dispatch ----

  /** How many ids the loop under way has been past. */
  function Passed(c: Control): nat {
    match c
    case Dispatching(_, id) => id
    case Sending(_, id, _) => id + 1
    case Crashed(id) => id + 1
    case _ => 0
  }

  /** The loop goes over the ids below the number of sessions; it finds those that are
      registered. */
  predicate IsReached(sessions: set<SessionId>, i: SessionId) {
    i in sessions && 0 <= i < |sessions|
  }

  /** How often session `i` has been submitted: if the loop reaches it, once a round and
      once more if the loop under way has been past it; otherwise never. */
  function Share(s: System, i: SessionId): nat {
    if IsReached(s.sessions, i) then s.rounds + if i < Passed(s.control) then 1 else 0 else 0
  }

  ghost predicate Fair(s: System) {
    && (s.control.Dispatching? ==> s.control.count == |s.sessions| && s.control.id <= s.control.count)
    && (s.control.Sending? ==> s.control.count == |s.sessions| && IsReached(s.sessions, s.control.id))
    && forall i: SessionId :: multiset(s.jobs)[i] == Share(s, i)
  }

  lemma StepKeepsFair(s: System, e: Event)
    requires Fair(s) && Enabled(s, e) && !e.StopAll?
    ensures Fair(Step(s, e)) && Step(s, e).sessions == s.sessions
  {
    if e.Look? {
      LookKeepsFair(s);
    }
  }

  lemma LookKeepsFair(s: System)
    requires Fair(s) && Enabled(s, Look)
    ensures Fair(Step(s, Look))
  {
    var s' := Step(s, Look);
    forall i: SessionId
      ensures multiset(s'.jobs)[i] == Share(s', i)
    {
      assert multiset(s.jobs)[i] == Share(s, i);
    }
  }

  lemma {:induction false} RunKeepsFair(s: System, es: seq<Event>)
    requires Fair(s) && Run(s, es).Some? && StopAll !in es
    ensures Fair(Run(s, es).value) && Run(s, es).value.sessions == s.sessions
    decreases |es|
  {
    if es != [] {
      assert es[0] in es && forall e :: e in es[1..] ==> e in es;
      StepKeepsFair(s, es[0]);
      RunKeepsFair(Step(s, es[0]), es[1..]);
    }
  }

  /** While a set of sessions, whatever its ids, stays registered, at every point of every
      run: the registered ids below the number of sessions have been submitted equally
      often, once for each completed loop, up to one more for the lower ids; and no other
      id has ever been. */
  lemma DispatchIsFair(workerCount: int, sessions: set<SessionId>, es: seq<Event>)
    requires Run(Start(workerCount, sessions), es).Some? && StopAll !in es
    ensures
      var s := Run(Start(workerCount, sessions), es).value;
      var jobs := multiset(s.jobs);
      && (forall i :: IsReached(sessions, i) ==> s.rounds <= jobs[i] <= s.rounds + 1)
      && (forall a, b :: IsReached(sessions, a) && IsReached(sessions, b) && a <= b ==>
            jobs[b] <= jobs[a] <= jobs[b] + 1)
      && (forall i: SessionId :: !IsReached(sessions, i) ==> jobs[i] == 0)
  {
    RunKeepsFair(Start(workerCount, sessions), es);
  }

  /** From an empty manager: when CreateSessions has succeeded, in whatever interleaving,
      dispatch over the sessions it registered is fair to all of them. */
  lemma CreatedSessionsAreDispatchedFairly(proxies: seq<string>, index: nat, count: nat, creation: seq<C.Event>,
                                           workerCount: int, es: seq<Event>, a: nat, b: nat)
    requires proxies != [] ==> index < |proxies|
    requires C.Run(C.Start(proxies, index, count, map[]), creation).Some?
    requires C.IsDone(C.Run(C.Start(proxies, index, count, map[]), creation).value)
    requires C.Run(C.Start(proxies, index, count, map[]), creation).value.errors == 0
    requires
      var created := C.Run(C.Start(proxies, index, count, map[]), creation).value.sessions.Keys;
      Run(Start(workerCount, created), es).Some? && StopAll !in es
    requires a <= b < count
    ensures
      var created := C.Run(C.Start(proxies, index, count, map[]), creation).value.sessions.Keys;
      var jobs := multiset(Run(Start(workerCount, created), es).value.jobs);
      jobs[b] <= jobs[a] <= jobs[b] + 1
  {
    C.FreshIdsAreContiguous(proxies, index, count, creation);
    DispatchIsFair(workerCount, C.Ids(count), es);
    assert IsReached(C.Ids(count), a) && IsReached(C.Ids(count), b);
  }

  // ---- Which sessions are served at all ----

  /** Some run submits the session. */
  ghost predicate CanBeServed(workerCount: int, sessions: set<SessionId>, i: SessionId) {
    exists es :: StopAll !in es && Serves(Start(workerCount, sessions), es, i)
  }

  ghost predicate Serves(s: System, es: seq<Event>, i: SessionId) {
    Run(s, es).Some? && i in Run(s, es).value.jobs
  }

  lemma {:induction false} RunConcat(s: System, es: seq<Event>, more: seq<Event>)
    requires Run(s, es).Some?
    ensures Run(s, es + more) == Run(Run(s, es).value, more)
    decreases |es|
  {
    if es == [] {
      assert es + more == more;
    } else {
      assert (es + more)[1..] == es[1..] + more;
      RunConcat(Step(s, es[0]), es[1..], more);
    }
  }

  lemma RunOne(s: System, e: Event)
    requires Enabled(s, e)
    ensures Run(s, [e]) == Some(Step(s, e))
  {
    assert [e][1..] == [];
  }

  /** The pool has room and a worker with nothing to do. */
  predicate IsReady(p: P.Pool) {
    |p.workers| > 0 && p.workers[0].Idle? && p.queue == [] && !p.closed
  }

  /** A worker does the one job that is queued. */
  lemma WorkOff(s: System) returns (s': System, es: seq<Event>)
    requires Inv(s) && |s.pool.queue| == 1 && s.pool.workers[0].Idle?
    ensures Inv(s') && Run(s, es) == Some(s') && StopAll !in es
    ensures s' == s.(pool := s'.pool) && s'.pool.closed == s.pool.closed
    ensures s'.pool.queue == [] && s'.pool.workers[0].Idle?
  {
    var s1 := TakeOnly(s);
    s' := Step(s1, Pool(P.Finish(0)));
    StepKeepsInv(s1, Pool(P.Finish(0)));
    RunOne(s1, Pool(P.Finish(0)));
    RunConcat(s, [Pool(P.Take(0))], [Pool(P.Finish(0))]);
    es := [Pool(P.Take(0))] + [Pool(P.Finish(0))];
  }

  lemma TakeOnly(s: System) returns (s': System)
    requires Inv(s) && |s.pool.queue| == 1 && s.pool.workers[0].Idle?
    ensures Inv(s') && Run(s, [Pool(P.Take(0))]) == Some(s')
    ensures s' == s.(pool := s'.pool) && s'.pool.closed == s.pool.closed
    ensures s'.pool.queue == [] && s'.pool.workers[0].Running?
  {
    s' := Step(s, Pool(P.Take(0)));
    StepKeepsInv(s, Pool(P.Take(0)));
    RunOne(s, Pool(P.Take(0)));
  }

  lemma SendAndFinish(s: System) returns (s': System, es: seq<Event>)
    requires Inv(s) && s.control.Sending? && IsReady(s.pool)
    ensures Inv(s') && Run(s, es) == Some(s') && StopAll !in es
    ensures IsReady(s'.pool) && s'.sessions == s.sessions
    ensures s'.control == Dispatching(s.control.count, s.control.id + 1)
  {
    var s1 := Step(s, Sent);
    StepKeepsInv(s, Sent);
    RunOne(s, Sent);
    s', es := WorkOff(s1);
    RunConcat(s, [Sent], es);
    es := [Sent] + es;
  }

  /** A loop that has not been past a registered id below its count gets to it. */
  lemma {:induction false} LoopServes(s: System, i: SessionId) returns (es: seq<Event>)
    requires Inv(s) && IsReady(s.pool) && s.control.Dispatching?
    requires s.control.id <= i < s.control.count && i in s.sessions
    ensures StopAll !in es && Serves(s, es, i)
    decreases i - s.control.id
  {
    var s1 := Step(s, Look);
    StepKeepsInv(s, Look);
    RunOne(s, Look);
    es := [Look];
    if s.control.id != i {
      var rest: seq<Event>;
      if s1.control.Sending? {
        var work;
        s1, work := SendAndFinish(s1);
        RunConcat(s, es, work);
        es := es + work;
      }
      rest := LoopServes(s1, i);
      RunConcat(s, es, rest);
      es := es + rest;
    }
  }

  /** A registered session is served in some run if and only if its id is below the number
      of sessions; otherwise in none, for the scheduler counts but does not enumerate. */
  lemma ServedIff(workerCount: int, sessions: set<SessionId>, i: SessionId)
    ensures CanBeServed(workerCount, sessions, i) <==> IsReached(sessions, i)
  {
    var s := Start(workerCount, sessions);
    if IsReached(sessions, i) {
      StartInv(workerCount, sessions);
      var s1, s2 := Step(s, Check), Step(Step(s, Check), ReadCount);
      StepKeepsInv(s, Check);
      StepKeepsInv(s1, ReadCount);
      var es := LoopServes(s2, i);
      RunOne(s, Check);
      RunOne(s1, ReadCount);
      RunConcat(s, [Check], [ReadCount]);
      RunConcat(s, [Check] + [ReadCount], es);
      assert Serves(s, [Check] + [ReadCount] + es, i);
    }
    if es :| StopAll !in es && Serves(s, es, i) {
      DispatchIsFair(workerCount, sessions, es);
      assert multiset(Run(s, es).value.jobs)[i] > 0;
    }
  }

  lemma SubsetOfIds(sessions: set<SessionId>)
    requires forall i :: i in sessions ==> 0 <= i < |sessions|
    ensures sessions == C.Ids(|sessions|)
  {
    var ids := C.Ids(|sessions|);
    assert sessions <= ids;
    assert |ids - sessions| == 0 by { assert ids == sessions + (ids - sessions); }
  }

  /** Every registered session is served if and only if the ids are exactly 0 to n-1. */
  lemma AllServedIff(workerCount: int, sessions: set<SessionId>)
    ensures (forall i :: i in sessions ==> CanBeServed(workerCount, sessions, i))
       <==> sessions == C.Ids(|sessions|)
  {
    forall i | i in sessions
      ensures CanBeServed(workerCount, sessions, i) <==> 0 <= i < |sessions|
    {
      ServedIff(workerCount, sessions, i);
    }
    if forall i :: i in sessions ==> 0 <= i < |sessions| {
      SubsetOfIds(sessions);
    }
  }

  /** So a session that CreateSessions has registered can starve: when session 0 fails,
      session 1 stays registered and no run ever submits it. */
  lemma FailedCreationStarves(workerCount: int) returns (creation: seq<C.Event>)
    ensures
      var end := C.Run(C.Start([], 0, 2, map[]), creation);
      && end.Some? && C.IsDone(end.value) && end.value.sessions.Keys == {1}
      && !CanBeServed(workerCount, end.value.sessions.Keys, 1)
  {
    creation := C.FirstFails();
    ServedIff(workerCount, {1}, 1);
  }

  // ---- Stopping the scheduler ----

  /** An event of the control goroutine. */
  predicate IsControl(e: Event) {
    e.Check? || e.ReadCount? || e.Look? || e.Sent? || e.Panic?
  }

  function ControlEvents(es: seq<Event>): nat {
    if es == [] then 0 else (if IsControl(es[0]) then 1 else 0) + ControlEvents(es[1..])
  }

  /** How many sessions the iteration under way can still submit. */
  function Ahead(s: System): nat {
    match s.control
    case Counting => |s.sessions|
    case Dispatching(count, id) => if id < count then count - id else 0
    case Sending(count, id, _) => if id + 1 < count then count - id - 1 else 0
    case _ => 0
  }

  /** Whether an iteration is under way. */
  function Iterations(c: Control): nat {
    if c.Counting? || c.Dispatching? || c.Sending? then 1 else 0
  }

  /** How many events the control goroutine has left once Stop has been called. */
  function ControlLeft(s: System): nat {
    match s.control
    case Checking => 1
    case Counting => 3 + 2 * Ahead(s)
    case Dispatching(_, _) => 2 + 2 * Ahead(s)
    case Sending(_, _, _) => 3 + 2 * Ahead(s)
    case _ => 0
  }

  lemma StoppingStep(s: System, e: Event)
    requires s.stopping && Enabled(s, e)
    ensures
      var s' := Step(s, e);
      && s'.stopping
      && ControlLeft(s') + (if IsControl(e) then 1 else 0) <= ControlLeft(s)
      && s'.rounds + Iterations(s'.control) <= s.rounds + Iterations(s.control)
      && |s'.jobs| + Ahead(s') <= |s.jobs| + Ahead(s)
  {
  }

  /** Once Stop has been called, in every run: the goroutine takes a bounded number of
      events, completes no iteration but the one under way, and submits no more than the
      sessions this one has ahead of it. */
  lemma {:induction false} StopEndsDispatch(s: System, es: seq<Event>)
    requires s.stopping && Run(s, es).Some?
    ensures
      var s' := Run(s, es).value;
      && ControlEvents(es) + ControlLeft(s') <= ControlLeft(s)
      && s'.rounds <= s.rounds + Iterations(s.control)
      && |s'.jobs| <= |s.jobs| + Ahead(s)
      && s'.rounds + Iterations(s'.control) <= s.rounds + Iterations(s.control)
      && |s'.jobs| + Ahead(s') <= |s.jobs| + Ahead(s)
    decreases |es|
  {
    if es != [] {
      StoppingStep(s, es[0]);
      StopEndsDispatch(Step(s, es[0]), es[1..]);
    }
  }

  lemma {:induction false} EmptyStaysEmpty(s: System, es: seq<Event>)
    requires s.sessions == {} && Run(s, es).Some?
    ensures Run(s, es).value.sessions == {} && Run(s, es).value.jobs == s.jobs
    decreases |es|
  {
    if es != [] {
      EmptyStaysEmpty(Step(s, es[0]), es[1..]);
    }
  }

  /** After SessionManager.StopAll nothing more is submitted, in any run. */
  lemma StopAllEndsSubmitting(s: System, es: seq<Event>)
    requires Run(Step(s, StopAll), es).Some?
    ensures Enabled(s, StopAll) && Run(Step(s, StopAll), es).value.jobs == s.jobs
    ensures Run(Step(s, StopAll), es).value.sessions == {}
  {
    EmptyStaysEmpty(Step(s, StopAll), es);
  }

  /** Scheduler.Stop can be called at any time, more than once, and waits for nobody. */
  lemma StopIsIdempotent(s: System)
    ensures Enabled(s, StopScheduler) && Step(s, StopScheduler).stopping
    ensures Step(Step(s, StopScheduler), StopScheduler) == Step(s, StopScheduler)
  {
  }

  /** And it is never stuck before it has exited: it can take an event itself, or a worker
      can make room for its Submit. */
  lemma ControlIsNeverStuck(s: System) returns (e: Event)
    requires Inv(s) && !s.control.Exited? && !s.control.Crashed?
    ensures Enabled(s, e)
    ensures IsControl(e) || (e.Pool? && (e.e.Take? || e.e.Finish?))
  {
    match s.control
    case Checking => e := Check;
    case Counting => e := ReadCount;
    case Dispatching(_, _) => e := Look;
    case Sending(_, _, job) =>
      if s.pool.closed {
        e := Panic;
      } else {
        var p := P.SubmitIsNeverStuck(s.pool, job);
        e := if p.Send? then Sent else Pool(p);
      }
  }

  // ---- Shutdown ----

  ghost predicate SomeRegistered(s: System, lo: nat, hi: nat) {
    exists i :: lo <= i < hi && i in s.sessions
  }

  /** The control goroutine has yet to submit something. It is not enough that Stop has
      been called: the goroutine may be past its select. */
  ghost predicate WillSubmit(s: System) {
    match s.control
    case Checking => !s.stopping && SomeRegistered(s, 0, |s.sessions|)
    case Counting => SomeRegistered(s, 0, |s.sessions|)
    case Dispatching(count, id) => SomeRegistered(s, id, count)
    case Sending(_, _, _) => true
    case Exited => false
    case Crashed(_) => false
  }

  ghost predicate CanCrash(s: System) {
    exists es :: Run(s, es).Some? && Run(s, es).value.control.Crashed?
  }

  lemma {:induction false} NeverSubmits(s: System, es: seq<Event>)
    requires s.stopping && !WillSubmit(s) && !s.control.Crashed? && Run(s, es).Some?
    ensures !WillSubmit(Run(s, es).value) && !Run(s, es).value.control.Crashed?
    ensures Run(s, es).value.jobs == s.jobs
    decreases |es|
  {
    if es != [] {
      StaysQuiet(s, es[0]);
      NeverSubmits(Step(s, es[0]), es[1..]);
    }
  }

  lemma StaysQuiet(s: System, e: Event)
    requires s.stopping && !WillSubmit(s) && !s.control.Crashed? && Enabled(s, e)
    ensures
      var s' := Step(s, e);
      s'.stopping && !WillSubmit(s') && !s'.control.Crashed? && s'.jobs == s.jobs
  {
    if s.control.Dispatching? && e.Look? && s.control.id < s.control.count {
      assert s.control.id !in s.sessions;
    }
  }

  /** From a loop with a registered session ahead, the closed channel is reached. */
  lemma {:induction false} ReachesClosedChannel(s: System, i: nat) returns (es: seq<Event>)
    requires Inv(s) && s.pool.closed && s.control.Dispatching?
    requires s.control.id <= i < s.control.count && i in s.sessions
    ensures Run(s, es).Some? && Run(s, es).value.control.Crashed?
    decreases i - s.control.id
  {
    var s1 := Step(s, Look);
    StepKeepsInv(s, Look);
    if s1.control.Sending? {
      var s2 := Step(s1, Panic);
      es := [Look, Panic];
      assert es[1..] == [Panic] && [Panic][1..] == [];
      assert Run(s1, [Panic]) == Some(s2) by { assert Run(s2, []) == Some(s2); }
    } else {
      var rest := ReachesClosedChannel(s1, i);
      es := [Look] + rest;
      assert es[1..] == rest;
    }
  }

  lemma Prepend(s: System, e: Event, es: seq<Event>)
    requires Enabled(s, e) && Run(Step(s, e), es).Some? && Run(Step(s, e), es).value.control.Crashed?
    ensures CanCrash(s)
  {
    assert ([e] + es)[1..] == es;
    assert Run(s, [e] + es).Some?;
  }

  lemma SubmitterCanCrash(s: System)
    requires Inv(s) && s.pool.closed && WillSubmit(s)
    ensures CanCrash(s)
  {
    match s.control
    case Sending(_, _, _) =>
      assert Run(Step(s, Panic), []).Some?;
      Prepend(s, Panic, []);
    case Dispatching(count, id) =>
      var i: nat :| id <= i < count && i in s.sessions;
      var es := ReachesClosedChannel(s, i);
    case Counting =>
      CounterCanCrash(s);
    case Checking =>
      StepKeepsInv(s, Check);
      CounterCanCrash(Step(s, Check));
      var es :| Run(Step(s, Check), es).Some? && Run(Step(s, Check), es).value.control.Crashed?;
      Prepend(s, Check, es);
  }

  lemma CounterCanCrash(s: System)
    requires Inv(s) && s.pool.closed && s.control.Counting? && WillSubmit(s)
    ensures CanCrash(s)
  {
    var i: nat :| 0 <= i < |s.sessions| && i in s.sessions;
    StepKeepsInv(s, ReadCount);
    var es := ReachesClosedChannel(Step(s, ReadCount), i);
    Prepend(s, ReadCount, es);
  }

  /** Once both Stops have been called, a panic is possible exactly while the control
      goroutine still has something to submit. */
  lemma CrashIffStillSubmitting(s: System)
    requires Inv(s) && s.stopping && s.pool.closed && !s.control.Crashed?
    ensures CanCrash(s) <==> WillSubmit(s)
  {
    if WillSubmit(s) {
      SubmitterCanCrash(s);
    }
    if CanCrash(s) && !WillSubmit(s) {
      var es :| Run(s, es).Some? && Run(s, es).value.control.Crashed?;
      NeverSubmits(s, es);
    }
  }

  /** The order of main.go does not rule it out: the goroutine is past its select when
      both Stops are called. */
  lemma MainCanCrash()
    ensures
      var s := Start(1, {0});
      var es := [Check, ReadCount, StopScheduler, Pool(P.Close)];
      && Run(s, es).Some? && Run(s, es).value.stopping && Run(s, es).value.pool.closed
      && CanCrash(Run(s, es).value)
  {
    var s := Start(1, {0});
    StartInv(1, {0});
    var s1 := Step(s, Check);
    var s2 := Step(s1, ReadCount);
    var s3 := Step(s2, StopScheduler);
    var s4 := Step(s3, Pool(P.Close));
    StepKeepsInv(s, Check);
    StepKeepsInv(s1, ReadCount);
    StepKeepsInv(s2, StopScheduler);
    StepKeepsInv(s3, Pool(P.Close));
    assert s4.control == Dispatching(1, 0) && 0 in s4.sessions;
    CrashIffStillSubmitting(s4);
    var e3 := [Pool(P.Close)];
    var e2 := [StopScheduler, Pool(P.Close)];
    var e1 := [ReadCount, StopScheduler, Pool(P.Close)];
    var es := [Check, ReadCount, StopScheduler, Pool(P.Close)];
    assert e3[1..] == [] && e2[1..] == e3 && e1[1..] == e2 && es[1..] == e1;
    assert Run(s4, []) == Some(s4);
    assert Run(s3, e3) == Some(s4);
    assert Run(s2, e2) == Some(s4);
    assert Run(s1, e1) == Some(s4);
  }

  lemma {:induction false} RunKeepsInv(s: System, es: seq<Event>)
    requires Inv(s) && Run(s, es).Some?
    ensures Inv(Run(s, es).value)
    decreases |es|
  {
    if es != [] {
      StepKeepsInv(s, es[0]);
      RunKeepsInv(Step(s, es[0]), es[1..]);
    }
  }

  /** If the control goroutine has nothing left to submit when the channel is closed, then
      whatever happens next, nothing panics, and when WorkerPool.Stop has returned every
      job ever submitted has been done exactly once. */
  lemma CleanShutdown(s: System, es: seq<Event>)
    requires Inv(s) && s.stopping && s.pool.closed && !WillSubmit(s) && !s.control.Crashed?
    requires Run(s, es).Some?
    ensures
      var s' := Run(s, es).value;
      && !s'.control.Crashed? && s'.jobs == s.jobs
      && (s'.pool.stop.Returned? ==> forall j :: 0 <= j < |s'.jobs| ==> multiset(s'.pool.finished)[j] == 1)
  {
    NeverSubmits(s, es);
    RunKeepsInv(s, es);
    var s' := Run(s, es).value;
    if s'.pool.stop.Returned? {
      P.StopDrains(s'.pool);
      assert forall j: P.Job :: j < |s'.jobs| ==> P.WasAccepted(s'.pool, j);
    }
  }
}
