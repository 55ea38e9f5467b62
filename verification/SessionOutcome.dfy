/** What CreateSessions comes to: which addresses its sessions use, and that it returns. */
module SessionOutcome {
  import opened SessionCreation

  // ---- How many sessions use an address ----

  /** The goroutines below `n` that took position `p`. */
  function Takers(routines: seq<Routine>, n: nat, p: nat): (r: set<SessionId>)
    requires n <= |routines|
    ensures forall id :: id in r <==> 0 <= id < n && HasWeight(routines[id], p) == 1
  {
    if n == 0 then {} else Takers(routines, n - 1, p) + if HasWeight(routines[n - 1], p) == 1 then {n - 1} else {}
  }

  lemma {:induction false} GivenToAppend(routines: seq<Routine>, r: Routine, p: nat)
    ensures GivenTo(routines + [r], p) == GivenTo(routines, p) + HasWeight(r, p)
  {
    if routines == [] {
      assert [] + [r] == [r] && [r][1..] == [];
    } else {
      assert (routines + [r])[1..] == routines[1..] + [r];
      GivenToAppend(routines[1..], r, p);
    }
  }

  lemma {:induction false} TakersAreCounted(routines: seq<Routine>, n: nat, p: nat)
    requires n <= |routines|
    ensures |Takers(routines, n, p)| == GivenTo(routines[..n], p)
    decreases n
  {
    if n > 0 {
      TakersAreCounted(routines, n - 1, p);
      assert routines[..n] == routines[..n - 1] + [routines[n - 1]];
      GivenToAppend(routines[..n - 1], routines[n - 1], p);
    }
  }

  /** The registered sessions that use a proxy address. */
  ghost function Users(sessions: map<SessionId, Session>, address: string): set<SessionId> {
    set id | id in sessions && sessions[id].proxy == address
  }

  ghost predicate AllDistinct(proxies: seq<string>) {
    forall i, j :: 0 <= i < j < |proxies| ==> proxies[i] != proxies[j]
  }

  lemma UsersAreTakers(s: State, n: nat, p: nat)
    requires |s.routines| == n && p < |s.proxies| && AllDistinct(s.proxies)
    requires forall id: SessionId :: id in s.sessions <==> 0 <= id < n
    requires forall id: SessionId :: 0 <= id < n ==> IsBuilt(s, id)
    ensures Users(s.sessions, s.proxies[p]) == Takers(s.routines, n, p)
  {
    var users, takers := Users(s.sessions, s.proxies[p]), Takers(s.routines, n, p);
    forall id: SessionId
      ensures id in users <==> id in takers
    {
      if 0 <= id < n {
        assert IsBuilt(s, id);
        UsesIffTook(s, id, p);
      }
    }
  }

  lemma UsesIffTook(s: State, id: SessionId, p: nat)
    requires IsBuilt(s, id) && p < |s.proxies| && AllDistinct(s.proxies)
    ensures s.sessions[id].proxy == s.proxies[p] <==> HasWeight(s.routines[id], p) == 1
  {
    var q := s.routines[id].position.value;
    assert q < p || p < q ==> s.proxies[q] != s.proxies[p];
  }

  /** From an empty manager, with distinct proxies loaded: when CreateSessions has
      succeeded, in whatever interleaving, each address is that of floor(n/m) or ceil(n/m)
      of the n sessions. */
  lemma AddressesAreBalanced(proxies: seq<string>, index: nat, count: nat, es: seq<Event>, p: nat)
    requires index < |proxies| && p < |proxies| && AllDistinct(proxies)
    requires Run(Start(proxies, index, count, map[]), es).Some?
    requires IsDone(Run(Start(proxies, index, count, map[]), es).value)
    requires Run(Start(proxies, index, count, map[]), es).value.errors == 0
    ensures
      var sessions := Run(Start(proxies, index, count, map[]), es).value.sessions;
      R.IsShare(|Users(sessions, proxies[p])|, count, |proxies|)
  {
    var s := Run(Start(proxies, index, count, map[]), es).value;
    StartProxies(proxies, index, count, map[]);
    RunKeepsProxies(Start(proxies, index, count, map[]), es, index);
    ProxiesAreBalanced(proxies, index, count, map[], es, p);
    CreateSessionsRegisters(proxies, index, count, map[], es);
    UsersAreTakers(s, count, p);
    TakersAreCounted(s.routines, count, p);
    assert s.routines[..count] == s.routines;
  }

  /** With no proxies loaded, every session is created without one. */
  lemma NoProxiesNoProxy(index: nat, count: nat, before: map<SessionId, Session>, es: seq<Event>, id: SessionId)
    requires Run(Start([], index, count, before), es).Some?
    requires IsDone(Run(Start([], index, count, before), es).value)
    requires WasCreated(Run(Start([], index, count, before), es).value.received, id)
    ensures
      var s := Run(Start([], index, count, before), es).value;
      id in s.sessions && s.sessions[id] == Session(id, "")
  {
    CreateSessionsRegisters([], index, count, before, es);
    RunKeepsLoaded(Start([], index, count, before), es);
  }

  lemma {:induction false} RunKeepsLoaded(s: State, es: seq<Event>)
    requires InRange(s) && Run(s, es).Some?
    ensures Run(s, es).value.proxies == s.proxies
    decreases |es|
  {
    if es != [] {
      StepKeepsRange(s, es[0]);
      RunKeepsLoaded(Step(s, es[0]), es[1..]);
    }
  }

  // ---- CreateSessions returns ----

  function RoutineSteps(r: Routine): nat {
    match r case Spawned => 3 case HasProxy(_) => 2 case Delivered(_) => 0
  }

  function StepsOf(routines: seq<Routine>): nat {
    if routines == [] then 0 else RoutineSteps(routines[0]) + StepsOf(routines[1..])
  }

  function StepsLeft(s: State): nat {
    StepsOf(s.routines) + |s.channel|
  }

  lemma {:induction false} StepsUpdate(routines: seq<Routine>, i: nat, r: Routine)
    requires i < |routines|
    ensures StepsOf(routines[i := r]) == StepsOf(routines) - RoutineSteps(routines[i]) + RoutineSteps(r)
  {
    if i > 0 {
      assert routines[i := r][1..] == routines[1..][i - 1 := r];
      StepsUpdate(routines[1..], i - 1, r);
    } else {
      assert routines[0 := r][1..] == routines[1..];
    }
  }

  /** Until it is done something can happen, whether NewSession is going to succeed or not. */
  lemma CreationIsNeverStuck(s: State, ok: bool) returns (e: Event)
    requires !IsDone(s)
    ensures Enabled(s, e) && (e.Deliver? ==> e.ok == ok)
  {
    if s.channel != [] {
      e := Collect;
    } else {
      var id: nat :| id < |s.routines| && !s.routines[id].Delivered?;
      e := if s.routines[id].Spawned? then TakeProxy(id) else Deliver(id, ok);
    }
  }

  /** And every event is one of finitely many, so CreateSessions returns. */
  lemma CreationEnds(s: State, e: Event)
    requires InRange(s) && Enabled(s, e)
    ensures StepsLeft(Step(s, e)) < StepsLeft(s)
  {
    if !e.Collect? {
      StepsUpdate(s.routines, e.id, Step(s, e).routines[e.id]);
    }
  }

  /** If no NewSession fails, it can succeed. */
  lemma {:induction false} CreationCanSucceed(s: State) returns (es: seq<Event>)
    requires InRange(s) && Failures(s.channel) == 0
    ensures Run(s, es).Some? && IsDone(Run(s, es).value) && Run(s, es).value.errors == s.errors
    decreases StepsLeft(s)
  {
    es := [];
    if !IsDone(s) {
      var e := CreationIsNeverStuck(s, true);
      StepKeepsRange(s, e);
      CreationEnds(s, e);
      SuccessStays(s, e);
      es := CreationCanSucceed(Step(s, e));
      es := Prepend(s, e, es);
    }
  }

  lemma SuccessStays(s: State, e: Event)
    requires InRange(s) && Enabled(s, e) && Failures(s.channel) == 0 && (e.Deliver? ==> e.ok)
    ensures Failures(Step(s, e).channel) == 0 && Step(s, e).errors == s.errors
  {
    NoFailureIff(s.channel);
    NoFailureIff(Step(s, e).channel);
  }
}
