/** SessionManager.CreateSessions of session/manager.go: one goroutine per session takes
    a proxy, builds the session and sends the result; the caller collects them. */
module SessionCreation {
  import opened Options
  import R = ProxyRotation

  type SessionId = int

  datatype Session = Session(id: SessionId, proxy: string)

  /** What a goroutine sends: a session, or that NewSession failed. */
  datatype Result = Created(session: Session) | Failed(id: SessionId)

  function IdOf(r: Result): SessionId {
    match r case Created(s) => s.id case Failed(id) => id
  }

  /** A goroutine: it has yet to take a proxy, it has taken one (or none is loaded), or
      its result has been sent. */
  datatype Routine = Spawned | HasProxy(position: Option<nat>) | Delivered(position: Option<nat>)

  /** `handed` and `received` are histories: the positions handed out, in the order of
      the calls of GetNextProxy, and the results collected. */
  datatype State = State(
    proxies: seq<string>,
    index: nat,
    routines: seq<Routine>,
    channel: seq<Result>,
    sessions: map<SessionId, Session>,
    errors: nat,
    handed: seq<nat>,
    received: seq<Result>)

  /** CreateSessions(count, pm) has spawned its goroutines. A nil pm is one without proxies. */
  function Start(proxies: seq<string>, index: nat, count: nat, sessions: map<SessionId, Session>): State {
    State(proxies, index, seq(count, _ => Spawned), [], sessions, 0, [], [])
  }

  datatype Event =
    | TakeProxy(id: nat)            // lines 60-63, GetNextProxy under its mutex
    | Deliver(id: nat, ok: bool)    // lines 64-65, NewSession succeeds or fails
    | Collect                       // lines 77-83

  predicate Enabled(s: State, e: Event) {
    match e
    case TakeProxy(id) => id < |s.routines| && s.routines[id].Spawned?
    case Deliver(id, _) => id < |s.routines| && s.routines[id].HasProxy?
    case Collect => s.channel != []
  }

  ghost predicate InRange(s: State) {
    && (s.proxies != [] ==> s.index < |s.proxies|)
    && forall i :: 0 <= i < |s.routines| && s.routines[i].HasProxy? && s.routines[i].position.Some? ==>
         s.routines[i].position.value < |s.proxies|
  }

  function ProxyAt(s: State, position: Option<nat>): string
    requires position.Some? ==> position.value < |s.proxies|
  {
    if position.Some? then s.proxies[position.value] else ""
  }

  function Step(s: State, e: Event): State
    requires InRange(s) && Enabled(s, e)
  {
    match e
    case TakeProxy(id) =>
      if s.proxies == [] then s.(routines := s.routines[id := HasProxy(None)])
      else s.(routines := s.routines[id := HasProxy(Some(s.index))],
              index := R.Next(s.index, |s.proxies|),
              handed := s.handed + [s.index])
    case Deliver(id, ok) =>
      var position := s.routines[id].position;
      var r := if ok then Created(Session(id, ProxyAt(s, position))) else Failed(id);
      s.(routines := s.routines[id := Delivered(position)], channel := s.channel + [r])
    case Collect =>
      var r := s.channel[0];
      var t := s.(channel := s.channel[1..], received := s.received + [r]);
      match r
      case Created(session) => t.(sessions := s.sessions[session.id := session])
      case Failed(_) => t.(errors := s.errors + 1)
  }

  /** The range over the results channel ends: it is closed and empty. */
  predicate IsDone(s: State) {
    s.channel == [] && forall id :: 0 <= id < |s.routines| ==> s.routines[id].Delivered?
  }

  ghost function Run(s: State, es: seq<Event>): Option<State>
    decreases |es|
  {
    if es == [] then Some(s)
    else if InRange(s) && Enabled(s, es[0]) then Run(Step(s, es[0]), es[1..])
    else None
  }

  // ---- Proxies ----

  function TakenWeight(r: Routine): nat {
    if r.Spawned? then 0 else 1
  }

  function Taken(routines: seq<Routine>): nat {
    if routines == [] then 0 else TakenWeight(routines[0]) + Taken(routines[1..])
  }

  function HasWeight(r: Routine, p: nat): nat {
    if !r.Spawned? && r.position == Some(p) then 1 else 0
  }

  /** How many sessions have been given the proxy at position `p`. */
  function GivenTo(routines: seq<Routine>, p: nat): nat {
    if routines == [] then 0 else HasWeight(routines[0], p) + GivenTo(routines[1..], p)
  }

  lemma {:induction false} TakenUpdate(routines: seq<Routine>, i: nat, r: Routine, p: nat)
    requires i < |routines|
    ensures Taken(routines[i := r]) == Taken(routines) - TakenWeight(routines[i]) + TakenWeight(r)
    ensures GivenTo(routines[i := r], p) == GivenTo(routines, p) - HasWeight(routines[i], p) + HasWeight(r, p)
  {
    if i > 0 {
      assert routines[i := r][1..] == routines[1..][i - 1 := r];
      TakenUpdate(routines[1..], i - 1, r, p);
    } else {
      assert routines[0 := r][1..] == routines[1..];
    }
  }

  lemma {:induction false} AllTaken(routines: seq<Routine>)
    requires forall i :: 0 <= i < |routines| ==> !routines[i].Spawned?
    ensures Taken(routines) == |routines|
  {
    if routines != [] {
      AllTaken(routines[1..]);
    }
  }

  lemma {:induction false} NoneTaken(routines: seq<Routine>, p: nat)
    requires forall i :: 0 <= i < |routines| ==> routines[i].Spawned?
    ensures Taken(routines) == 0 && GivenTo(routines, p) == 0
  {
    if routines != [] {
      NoneTaken(routines[1..], p);
    }
  }

  /** With `m` proxies and a start at `first`: the positions handed out so far are those
      of the rotation, whichever goroutines took them, and each is with one goroutine. */
  ghost predicate ProxyInv(s: State, first: nat) {
    && s.proxies != [] && first < |s.proxies|
    && s.index == R.Advance(first, |s.handed|, |s.proxies|)
    && s.handed == R.HandedOut(first, |s.handed|, |s.proxies|)
    && Taken(s.routines) == |s.handed|
    && forall p :: GivenTo(s.routines, p) == R.Count(s.handed, p)
  }

  lemma StepKeepsProxies(s: State, e: Event, first: nat)
    requires InRange(s) && ProxyInv(s, first) && Enabled(s, e)
    ensures InRange(Step(s, e)) && ProxyInv(Step(s, e), first)
    ensures Step(s, e).proxies == s.proxies && |Step(s, e).routines| == |s.routines|
  {
    var s' := Step(s, e);
    if !e.Collect? {
      forall p: nat
        ensures GivenTo(s'.routines, p) == R.Count(s'.handed, p)
      {
        TakenUpdate(s.routines, e.id, s'.routines[e.id], p);
        if e.TakeProxy? {
          R.CountAppend(s.handed, s.index, p);
        }
      }
      TakenNow(s, e);
    }
  }

  lemma TakenNow(s: State, e: Event)
    requires InRange(s) && Enabled(s, e) && !e.Collect? && s.proxies != []
    requires Taken(s.routines) == |s.handed|
    ensures Taken(Step(s, e).routines) == |Step(s, e).handed|
  {
    TakenUpdate(s.routines, e.id, Step(s, e).routines[e.id], 0);
  }

  lemma {:induction false} RunKeepsProxies(s: State, es: seq<Event>, first: nat)
    requires InRange(s) && ProxyInv(s, first) && Run(s, es).Some?
    ensures ProxyInv(Run(s, es).value, first)
    ensures Run(s, es).value.proxies == s.proxies && |Run(s, es).value.routines| == |s.routines|
    decreases |es|
  {
    if es != [] {
      StepKeepsProxies(s, es[0], first);
      RunKeepsProxies(Step(s, es[0]), es[1..], first);
    }
  }

  lemma StartProxies(proxies: seq<string>, index: nat, count: nat, sessions: map<SessionId, Session>)
    requires index < |proxies|
    ensures InRange(Start(proxies, index, count, sessions))
    ensures ProxyInv(Start(proxies, index, count, sessions), index)
  {
    forall p: nat
      ensures GivenTo(Start(proxies, index, count, sessions).routines, p) == 0
    {
      NoneTaken(Start(proxies, index, count, sessions).routines, p);
    }
    NoneTaken(Start(proxies, index, count, sessions).routines, 0);
  }

  /** For every interleaving of the goroutines, with any starting index: the positions
      are handed out in the one order of the rotation, and each proxy goes to floor(n/m)
      or ceil(n/m) of the n sessions. */
  lemma ProxiesAreBalanced(proxies: seq<string>, index: nat, count: nat,
                           sessions: map<SessionId, Session>, es: seq<Event>, p: nat)
    requires index < |proxies| && p < |proxies|
    requires Run(Start(proxies, index, count, sessions), es).Some?
    requires IsDone(Run(Start(proxies, index, count, sessions), es).value)
    ensures
      var s := Run(Start(proxies, index, count, sessions), es).value;
      var m := |proxies|;
      && s.handed == R.HandedOut(index, count, m)
      && R.IsShare(GivenTo(s.routines, p), count, m)
  {
    var s0 := Start(proxies, index, count, sessions);
    StartProxies(proxies, index, count, sessions);
    RunKeepsProxies(s0, es, index);
    var s := Run(s0, es).value;
    AllTaken(s.routines);
    R.RotationIsBalanced(index, count, |proxies|, p);
  }

  // ---- Registration ----

  ghost predicate HasResult(rs: seq<Result>, id: SessionId) {
    exists i :: 0 <= i < |rs| && IdOf(rs[i]) == id
  }

  ghost predicate WasCreated(rs: seq<Result>, id: SessionId) {
    exists i :: 0 <= i < |rs| && rs[i].Created? && rs[i].session.id == id
  }

  /** All results sent, in order: the channel keeps what has not been collected. */
  function Sent(s: State): seq<Result> {
    s.received + s.channel
  }

  ghost predicate HasDelivered(s: State, id: SessionId) {
    0 <= id < |s.routines| && s.routines[id].Delivered?
  }

  /** Each goroutine sends one result, under its own id. */
  ghost predicate SentInv(s: State) {
    && (forall id: SessionId :: HasResult(Sent(s), id) <==> HasDelivered(s, id))
    && (forall i, j :: 0 <= i < j < |Sent(s)| ==> IdOf(Sent(s)[i]) != IdOf(Sent(s)[j]))
  }

  /** The sessions that registering a list of results leads to. */
  function Collected(before: map<SessionId, Session>, rs: seq<Result>): map<SessionId, Session>
    decreases |rs|
  {
    if rs == [] then before
    else
      var sessions := Collected(before, rs[..|rs| - 1]);
      match rs[|rs| - 1]
      case Created(session) => sessions[session.id := session]
      case Failed(_) => sessions
  }

  function Failures(rs: seq<Result>): nat {
    if rs == [] then 0 else Failures(rs[..|rs| - 1]) + if rs[|rs| - 1].Failed? then 1 else 0
  }

  lemma CollectAppend(before: map<SessionId, Session>, rs: seq<Result>, r: Result)
    ensures Collected(before, rs + [r])
         == if r.Created? then Collected(before, rs)[r.session.id := r.session] else Collected(before, rs)
    ensures Failures(rs + [r]) == Failures(rs) + if r.Failed? then 1 else 0
  {
    assert (rs + [r])[..|rs|] == rs;
  }

  ghost predicate RegisteredInv(s: State, before: map<SessionId, Session>) {
    s.sessions == Collected(before, s.received) && s.errors == Failures(s.received)
  }

  /** The proxy of a goroutine that has taken one: at its position, and none without. */
  ghost predicate IsProxyAt(s: State, position: Option<nat>, proxy: string) {
    match position
    case Some(p) => p < |s.proxies| && proxy == s.proxies[p]
    case None => s.proxies == [] && proxy == ""
  }

  /** A session was built by its goroutine with the proxy that goroutine took. */
  ghost predicate HasItsProxy(s: State, r: Result) {
    r.Created? ==>
      && HasDelivered(s, r.session.id)
      && IsProxyAt(s, s.routines[r.session.id].position, r.session.proxy)
  }

  /** A goroutine that goes without a proxy found none loaded. */
  ghost predicate TookInv(s: State) {
    forall i :: 0 <= i < |s.routines| && !s.routines[i].Spawned? ==>
      (s.routines[i].position.None? <==> s.proxies == [])
  }

  ghost predicate BuiltInv(s: State) {
    forall i :: 0 <= i < |Sent(s)| ==> HasItsProxy(s, Sent(s)[i])
  }

  lemma StepKeepsRange(s: State, e: Event)
    requires InRange(s) && Enabled(s, e)
    ensures InRange(Step(s, e))
  {
  }

  lemma StepKeepsSent(s: State, e: Event)
    requires InRange(s) && SentInv(s) && Enabled(s, e)
    ensures SentInv(Step(s, e))
  {
    if e.Deliver? {
      DeliverKeepsSent(s, e);
    } else {
      OtherStepKeepsSent(s, e);
    }
  }

  lemma OtherStepKeepsSent(s: State, e: Event)
    requires InRange(s) && SentInv(s) && Enabled(s, e) && !e.Deliver?
    ensures SentInv(Step(s, e))
  {
    if e.Collect? {
      assert s.channel == [s.channel[0]] + s.channel[1..];
    }
    assert Sent(Step(s, e)) == Sent(s);
    assert forall i: SessionId :: HasDelivered(Step(s, e), i) <==> HasDelivered(s, i);
  }

  lemma DeliverKeepsSent(s: State, e: Event)
    requires InRange(s) && SentInv(s) && Enabled(s, e) && e.Deliver?
    ensures SentInv(Step(s, e))
  {
    var s' := Step(s, e);
    var r := s'.channel[|s.channel|];
    assert Sent(s') == Sent(s) + [r];
    assert !HasDelivered(s, e.id);
    forall i: SessionId
      ensures HasResult(Sent(s'), i) <==> HasDelivered(s', i)
    {
      OneMoreResult(Sent(s), r, i);
      assert HasDelivered(s', i) <==> HasDelivered(s, i) || i == e.id;
    }
    AppendDistinct(Sent(s), r);
  }

  lemma AppendDistinct(rs: seq<Result>, r: Result)
    requires forall i, j :: 0 <= i < j < |rs| ==> IdOf(rs[i]) != IdOf(rs[j])
    requires !HasResult(rs, IdOf(r))
    ensures forall i, j :: 0 <= i < j < |rs + [r]| ==> IdOf((rs + [r])[i]) != IdOf((rs + [r])[j])
  {
  }

  lemma OneMoreResult(rs: seq<Result>, r: Result, id: SessionId)
    ensures HasResult(rs + [r], id) <==> HasResult(rs, id) || IdOf(r) == id
    ensures WasCreated(rs + [r], id) <==> WasCreated(rs, id) || (r.Created? && r.session.id == id)
  {
    var more := rs + [r];
    assert more[|rs|] == r;
    if i :| 0 <= i < |rs| && IdOf(rs[i]) == id {
      assert IdOf(more[i]) == id;
    }
    if i :| 0 <= i < |rs| && rs[i].Created? && rs[i].session.id == id {
      assert more[i].Created?;
    }
  }

  lemma StepKeepsRegistered(s: State, e: Event, before: map<SessionId, Session>)
    requires InRange(s) && RegisteredInv(s, before) && Enabled(s, e)
    ensures RegisteredInv(Step(s, e), before)
  {
    if e.Collect? {
      CollectAppend(before, s.received, s.channel[0]);
    }
  }

  lemma StepKeepsTook(s: State, e: Event)
    requires InRange(s) && TookInv(s) && Enabled(s, e)
    ensures TookInv(Step(s, e))
  {
  }

  lemma StepKeepsBuilt(s: State, e: Event)
    requires InRange(s) && TookInv(s) && BuiltInv(s) && Enabled(s, e)
    ensures BuiltInv(Step(s, e))
  {
    var s' := Step(s, e);
    forall i | 0 <= i < |Sent(s')|
      ensures HasItsProxy(s', Sent(s')[i])
    {
      if e.Collect? {
        assert s.channel == [s.channel[0]] + s.channel[1..];
        assert Sent(s') == Sent(s);
      }
      assert i < |Sent(s)| ==> Sent(s')[i] == Sent(s)[i] && HasItsProxy(s, Sent(s)[i]);
    }
  }

  ghost predicate Inv(s: State, before: map<SessionId, Session>) {
    InRange(s) && SentInv(s) && RegisteredInv(s, before) && TookInv(s) && BuiltInv(s)
  }

  lemma {:induction false} RunKeepsInv(s: State, es: seq<Event>, before: map<SessionId, Session>)
    requires Inv(s, before) && Run(s, es).Some?
    ensures Inv(Run(s, es).value, before) && |Run(s, es).value.routines| == |s.routines|
    decreases |es|
  {
    if es != [] {
      StepKeepsRange(s, es[0]);
      StepKeepsSent(s, es[0]);
      StepKeepsRegistered(s, es[0], before);
      StepKeepsTook(s, es[0]);
      StepKeepsBuilt(s, es[0]);
      RunKeepsInv(Step(s, es[0]), es[1..], before);
    }
  }

  // ---- What is registered in the end ----

  lemma {:induction false} UncreatedStays(before: map<SessionId, Session>, rs: seq<Result>, id: SessionId)
    requires !WasCreated(rs, id)
    ensures id in Collected(before, rs) <==> id in before
    ensures id in before ==> Collected(before, rs)[id] == before[id]
    decreases |rs|
  {
    if rs != [] {
      var n := |rs| - 1;
      assert rs == rs[..n] + [rs[n]];
      OneMoreResult(rs[..n], rs[n], id);
      UncreatedStays(before, rs[..n], id);
    }
  }

  lemma {:induction false} CreatedIsRegistered(before: map<SessionId, Session>, rs: seq<Result>, i: nat)
    requires i < |rs| && rs[i].Created?
    requires forall j, k :: 0 <= j < k < |rs| ==> IdOf(rs[j]) != IdOf(rs[k])
    ensures rs[i].session.id in Collected(before, rs)
    ensures Collected(before, rs)[rs[i].session.id] == rs[i].session
    decreases |rs|
  {
    var n := |rs| - 1;
    if i < n {
      CreatedIsRegistered(before, rs[..n], i);
      assert IdOf(rs[i]) != IdOf(rs[n]);
    }
  }

  lemma {:induction false} NoFailureIff(rs: seq<Result>)
    ensures Failures(rs) == 0 <==> forall i :: 0 <= i < |rs| ==> rs[i].Created?
  {
    if rs != [] {
      var n := |rs| - 1;
      NoFailureIff(rs[..n]);
      assert forall i :: 0 <= i < n ==> rs[..n][i] == rs[i];
    }
  }

  /** Nothing failed exactly if every id was created. */
  lemma NoErrorIff(s: State)
    requires SentInv(s) && IsDone(s)
    ensures Failures(s.received) == 0 <==> forall id: SessionId :: 0 <= id < |s.routines| ==> WasCreated(s.received, id)
  {
    assert Sent(s) == s.received;
    NoFailureIff(s.received);
    if Failures(s.received) == 0 {
      forall id: SessionId | 0 <= id < |s.routines|
        ensures WasCreated(s.received, id)
      {
        assert HasDelivered(s, id);
        var i :| 0 <= i < |s.received| && IdOf(s.received[i]) == id;
        assert s.received[i].Created?;
      }
    } else {
      var i :| 0 <= i < |s.received| && !s.received[i].Created?;
      var id := IdOf(s.received[i]);
      assert HasResult(Sent(s), id) && HasDelivered(s, id);
      assert forall j :: 0 <= j < |s.received| && s.received[j].Created? ==> IdOf(s.received[j]) != id;
      assert !WasCreated(s.received, id);
    }
  }

  lemma StartInv(proxies: seq<string>, index: nat, count: nat, before: map<SessionId, Session>)
    requires proxies != [] ==> index < |proxies|
    ensures Inv(Start(proxies, index, count, before), before)
  {
    var s := Start(proxies, index, count, before);
    assert forall id: SessionId :: !HasResult(Sent(s), id);
  }

  /** For every interleaving: when CreateSessions returns, the sessions registered are the
      old ones and those that were created, each under its own id and with the proxy that
      its own goroutine took; it reports an error exactly if some creation failed, and
      otherwise ids 0 to count-1 are all there. */
  lemma CreateSessionsRegisters(proxies: seq<string>, index: nat, count: nat,
                                before: map<SessionId, Session>, es: seq<Event>)
    requires proxies != [] ==> index < |proxies|
    requires Run(Start(proxies, index, count, before), es).Some?
    requires IsDone(Run(Start(proxies, index, count, before), es).value)
    ensures
      var s := Run(Start(proxies, index, count, before), es).value;
      && |s.routines| == count && InRange(s)
      && (forall id: SessionId :: id in s.sessions <==> id in before || WasCreated(s.received, id))
      && (forall id: SessionId :: id in before && !WasCreated(s.received, id) ==> s.sessions[id] == before[id])
      && (forall id: SessionId :: WasCreated(s.received, id) ==> IsBuilt(s, id))
      && (s.errors == 0 <==> forall id: SessionId :: 0 <= id < count ==> WasCreated(s.received, id))
  {
    StartInv(proxies, index, count, before);
    RunKeepsInv(Start(proxies, index, count, before), es, before);
    var s := Run(Start(proxies, index, count, before), es).value;
    NoErrorIff(s);
    forall id: SessionId
      ensures id in s.sessions <==> id in before || WasCreated(s.received, id)
      ensures id in before && !WasCreated(s.received, id) ==> s.sessions[id] == before[id]
      ensures WasCreated(s.received, id) ==> IsBuilt(s, id)
    {
      if WasCreated(s.received, id) {
        CreatedIsBuilt(s, before, id);
      } else {
        UncreatedStays(before, s.received, id);
      }
    }
  }

  /** The session registered under `id` is the one of goroutine `id`: with the proxy that is
      loaded at the position the goroutine took, or with none if none is loaded. */
  ghost predicate IsBuilt(s: State, id: SessionId) {
    && HasDelivered(s, id) && id in s.sessions && s.sessions[id].id == id
    && IsProxyAt(s, s.routines[id].position, s.sessions[id].proxy)
  }

  lemma CreatedIsBuilt(s: State, before: map<SessionId, Session>, id: SessionId)
    requires Inv(s, before) && IsDone(s) && WasCreated(s.received, id)
    ensures IsBuilt(s, id)
  {
    assert Sent(s) == s.received;
    var i :| 0 <= i < |s.received| && s.received[i].Created? && s.received[i].session.id == id;
    CreatedIsRegistered(before, s.received, i);
    assert HasItsProxy(s, Sent(s)[i]);
  }

  function Ids(n: nat): (r: set<SessionId>)
    ensures |r| == n
    ensures forall i :: i in r <==> 0 <= i < n
  {
    if n == 0 then {} else Ids(n - 1) + {n - 1}
  }

  /** On an empty manager, success leaves exactly the ids 0 to count-1. */
  lemma FreshIdsAreContiguous(proxies: seq<string>, index: nat, count: nat, es: seq<Event>)
    requires proxies != [] ==> index < |proxies|
    requires Run(Start(proxies, index, count, map[]), es).Some?
    requires IsDone(Run(Start(proxies, index, count, map[]), es).value)
    requires Run(Start(proxies, index, count, map[]), es).value.errors == 0
    ensures Run(Start(proxies, index, count, map[]), es).value.sessions.Keys == Ids(count)
  {
    CreateSessionsRegisters(proxies, index, count, map[], es);
  }

  /** A creation of two sessions in which the first fails. */
  lemma FirstFails() returns (es: seq<Event>)
    ensures
      var end := Run(Start([], 0, 2, map[]), es);
      end.Some? && IsDone(end.value) && end.value.sessions == map[1 := Session(1, "")]
  {
    var s0 := Start([], 0, 2, map[]);
    var s1 := Step(s0, TakeProxy(0));
    var s2 := Step(s1, TakeProxy(1));
    assert s2.routines == [HasProxy(None), HasProxy(None)];
    var s3 := Step(s2, Deliver(0, false));
    var s4 := Step(s3, Deliver(1, true));
    assert s4.routines == [Delivered(None), Delivered(None)];
    assert s4.channel == [Failed(0), Created(Session(1, ""))];
    var s5 := Step(s4, Collect);
    var s6 := Step(s5, Collect);
    es := [];
    es := Prepend(s5, Collect, es);
    es := Prepend(s4, Collect, es);
    es := Prepend(s3, Deliver(1, true), es);
    es := Prepend(s2, Deliver(0, false), es);
    es := Prepend(s1, TakeProxy(1), es);
    es := Prepend(s0, TakeProxy(0), es);
  }

  lemma Prepend(s: State, e: Event, es: seq<Event>) returns (es': seq<Event>)
    requires InRange(s) && Enabled(s, e)
    ensures Run(s, es') == Run(Step(s, e), es)
  {
    es' := [e] + es;
    assert es'[1..] == es;
  }

  // ---- The object ----

  class SessionManager {
    var sessions: map<SessionId, Session>

    constructor ()
      ensures sessions == map[]
    {
      sessions := map[];
    }

    /** The loop of lines 77-83 over the results, in the order they came. */
    method CollectAll(results: seq<Result>) returns (errors: nat)
      modifies this
      ensures sessions == Collected(old(sessions), results) && errors == Failures(results)
    {
      errors := 0;
      for i := 0 to |results|
        invariant sessions == Collected(old(sessions), results[..i]) && errors == Failures(results[..i])
      {
        var r := results[i];
        assert results[..i + 1] == results[..i] + [r];
        CollectAppend(old(sessions), results[..i], r);
        if r.Failed? {
          errors := errors + 1;
        } else {
          sessions := sessions[r.session.id := r.session];
        }
      }
      assert results[..|results|] == results;
    }

    method GetSession(id: SessionId) returns (s: Option<Session>)
      ensures s == if id in sessions then Some(sessions[id]) else None
    {
      s := if id in sessions then Some(sessions[id]) else None;
    }

    method Count() returns (n: nat)
      ensures n == |sessions|
    {
      n := |sessions|;
    }
  }
}
