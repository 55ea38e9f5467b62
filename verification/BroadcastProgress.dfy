/** What the calls of the broadcast protocol do when they run: what a read returns, how far
    a broadcast gets, and how a stream goes on or ends. */
module BroadcastProgress {
  import opened Options
  import opened CookieJar
  import opened BroadcastProtocol
  import opened BroadcastInvariant
  import opened BroadcastOverlap

  // ---- Reads ----

  /** Everything stored so far, under the version of the last bump. */
  ghost predicate IsPresent(s: State, r: Response) {
    r.cookies == Replay(s.applied) && r.version == |s.bumps|
  }

  /** GetGlobalCookies can be called at any time and returns the present jar. */
  lemma ReadIsPresent(s: State)
    requires Inv(s)
    ensures Enabled(s, Read)
    ensures
      var s' := Step(s, Read);
      && |s'.snapshots| == |s.snapshots| + 1 && s'.snapshots[..|s.snapshots|] == s.snapshots
      && IsPresent(s, s'.snapshots[|s.snapshots|])
  {
  }

  /** A stream starts with the jar of the moment after its registration, not of before. */
  lemma FirstIsPresent(s: State, i: StreamId)
    requires Inv(s) && Enabled(s, TakeSnapshot(i))
    ensures IsPresent(s, Step(s, TakeSnapshot(i)).streams[i].first)
  {
  }

  /** A broadcast's response holds the jar of its snapshot and the version of its bump. */
  lemma ResponseIsPresent(s: State, o: OpId)
    requires Inv(s) && Enabled(s, Snap(o))
    ensures
      var r := Step(s, Snap(o)).ops[o].resp;
      && r.cookies == Replay(s.applied) && 1 <= r.version <= |s.bumps| && s.bumps[r.version - 1] == o
  {
    assert GotVersion(s, o, s.ops[o].ver);
    assert IsBumper(s, o, s.ops[o].ver);
  }

  // ---- One broadcast, from the call to the end of its fan-out ----

  /** The channel of a subscriber after an offer: a response goes in if fewer than 32 are
      pending, and is dropped otherwise. */
  ghost predicate GotOffer(st: Stream, st': Stream, r: Response) {
    && st'.queue == (if |st.queue| < 32 then st.queue + [r] else st.queue)
    && st' == st.(queue := st'.queue, sent := st'.sent, dropped := st'.dropped)
  }

  /** What the pushes of a fan-out leave as it was. */
  ghost predicate SameButStreams(s: State, s': State) {
    && s'.ops == s.ops && s'.subs == s.subs && s'.entries == s.entries && |s'.streams| == |s.streams|
    && s'.version == s.version && s'.applied == s.applied
  }

  /** The live streams with a pc_id in `done` have been offered `r`, the others nothing. */
  ghost predicate Reached(s: State, s': State, done: set<PcId>, r: Response) {
    && |s'.streams| == |s.streams|
    && forall i :: 0 <= i < |s.streams| ==>
         if IsLive(s.streams[i]) && s.streams[i].pc in done then GotOffer(s.streams[i], s'.streams[i], r)
         else s'.streams[i] == s.streams[i]
  }

  /** The fan-out under way is that of call `o`. */
  ghost predicate Fans(s: State, o: OpId, todo: set<PcId>, r: Response) {
    s.fan == Some(FanOut(o, todo)) && o < |s.ops| && s.ops[o] == Fanning(r)
  }

  /** A push can be offered to every subscriber still to come, whatever its channel holds. */
  lemma PushOffers(s: State, pc: PcId, o: OpId, todo: set<PcId>, r: Response)
    requires InRange(s) && Fans(s, o, todo, r) && pc in todo
    ensures Enabled(s, Push(pc)) && pc in s.subs && s.subs[pc] < |s.streams|
    ensures SameButStreams(s, Step(s, Push(pc))) && Fans(Step(s, Push(pc)), o, todo - {pc}, r)
    ensures
      var s', i := Step(s, Push(pc)), s.subs[pc];
      GotOffer(s.streams[i], s'.streams[i], r) && s'.streams == s.streams[i := s'.streams[i]]
  {
  }

  lemma OfferReaches(s: State, s': State, pc: PcId, r: Response)
    requires SubsInv(s) && pc in s.subs && |s'.streams| == |s.streams|
    requires s'.streams == s.streams[s.subs[pc] := s'.streams[s.subs[pc]]]
    requires GotOffer(s.streams[s.subs[pc]], s'.streams[s.subs[pc]], r)
    ensures Reached(s, s', {pc}, r)
  {
  }

  lemma PushReaches(s: State, pc: PcId, o: OpId, todo: set<PcId>, r: Response)
    requires SubsInv(s) && Fans(s, o, todo, r) && pc in todo
    ensures Enabled(s, Push(pc)) && Reached(s, Step(s, Push(pc)), {pc}, r)
  {
    PushOffers(s, pc, o, todo, r);
    OfferReaches(s, Step(s, Push(pc)), pc, r);
  }

  lemma ReachedInTurn(s: State, t: State, s': State, pc: PcId, rest: set<PcId>, r: Response)
    requires SameButStreams(s, t) && SameButStreams(t, s')
    requires Reached(s, t, {pc}, r) && Reached(t, s', rest, r) && pc !in rest
    ensures SameButStreams(s, s') && Reached(s, s', rest + {pc}, r)
  {
  }

  /** The run from `s0` has led to `s`, in the fan-out of call `o`. */
  ghost predicate LeadsToFan(s0: State, es: seq<Event>, s: State, o: OpId, todo: set<PcId>, r: Response) {
    Leads(s0, es, s) && SubsInv(s) && Fans(s, o, todo, r)
  }

  lemma {:induction false} FanOutReaches(s0: State, es0: seq<Event>, s: State,
                                         o: OpId, todo: set<PcId>, r: Response)
      returns (es: seq<Event>, s': State)
    requires LeadsToFan(s0, es0, s, o, todo, r)
    ensures LeadsToFan(s0, es, s', o, {}, r) && SameButStreams(s, s') && Reached(s, s', todo, r)
    decreases |todo|
  {
    if todo == {} {
      es, s' := es0, s;
    } else {
      var pc :| pc in todo;
      var rest := todo - {pc};
      var t: State;
      es, t := PushOnce(s0, es0, s, pc, o, todo, r);
      es, s' := FanOutReaches(s0, es, t, o, rest, r);
      ReachedInTurn(s, t, s', pc, rest, r);
      assert rest + {pc} == todo;
    }
  }

  lemma PushOnce(s0: State, es0: seq<Event>, s: State, pc: PcId, o: OpId, todo: set<PcId>, r: Response)
      returns (es: seq<Event>, t: State)
    requires LeadsToFan(s0, es0, s, o, todo, r) && pc in todo
    ensures LeadsToFan(s0, es, t, o, todo - {pc}, r) && SameButStreams(s, t) && Reached(s, t, {pc}, r)
  {
    PushReaches(s, pc, o, todo, r);
    PushOffers(s, pc, o, todo, r);
    es, t := OneMore(s0, es0, s, Push(pc));
    PushKeepsSubs(s, pc);
  }

  /** The jar part of a broadcast: it stores, bumps and reads with nothing in between. */
  lemma StoreBumpSnap(s: State, batch: seq<Cookie>) returns (es: seq<Event>, s': State)
    requires Inv(s) && batch != []
    ensures Leads(s, es, s') && Inv(s') && s'.entries == StoreAll(s.entries, batch)
    ensures s'.version == s.version + 1 && s'.streams == s.streams && s'.subs == s.subs && s'.fan == s.fan
    ensures |s'.ops| == |s.ops| + 1 && s'.ops[|s.ops|].Ready?
    ensures s'.ops[|s.ops|].resp.cookies == s'.entries && s'.ops[|s.ops|].resp.version == s'.version
  {
    var o := |s.ops|;
    es := Nothing(s);
    es, s' := OneMore(s, es, s, Apply(batch));
    StepKeepsInv(s, Apply(batch));
    StepKeepsInv(s', Bump(o));
    es, s' := OneMore(s, es, s', Bump(o));
    StepKeepsInv(s', Snap(o));
    es, s' := OneMore(s, es, s', Snap(o));
  }

  /** From any state in which subMu is free, any non-empty batch can be broadcast to the
      end without waiting for anybody: every live stream, slow or not, has then been
      offered a response with the whole jar, the batch included, and the new version. */
  lemma BroadcastCompletes(s: State, batch: seq<Cookie>) returns (es: seq<Event>, s': State)
    requires Inv(s) && s.fan.None? && batch != []
    ensures Leads(s, es, s') && Inv(s') && s'.fan.None? && s'.entries == StoreAll(s.entries, batch)
    ensures |s'.ops| == |s.ops| + 1 && s'.ops[|s.ops|].Done? && |s'.streams| == |s.streams|
    ensures
      var r := s'.ops[|s.ops|].resp;
      && r.cookies == s'.entries && r.version == s.version + 1 == s'.version
      && forall i :: 0 <= i < |s.streams| ==>
           if IsLive(s.streams[i]) then GotOffer(s.streams[i], s'.streams[i], r)
           else s'.streams[i] == s.streams[i]
  {
    var o := |s.ops|;
    var s1: State;
    es, s1 := StoreBumpSnap(s, batch);
    es, s' := FanOutCompletes(s, es, s1, o, s1.ops[o].resp);
    AllLiveReached(s, s', s1.ops[o].resp);
    RunKeepsInv(s, es);
  }

  lemma FanOutCompletes(s0: State, es0: seq<Event>, s: State, o: OpId, r: Response)
      returns (es: seq<Event>, s': State)
    requires Leads(s0, es0, s) && SubsInv(s) && s.fan.None? && o < |s.ops| && s.ops[o] == Ready(r)
    ensures Leads(s0, es, s') && s'.fan.None? && s'.ops == s.ops[o := Done(r)]
    ensures s'.entries == s.entries && s'.version == s.version
    ensures Reached(s, s', s.subs.Keys, r)
  {
    var t: State;
    FanOutKeepsSubs(s, Lock(o));
    es, t := OneMore(s0, es0, s, Lock(o));
    es, s' := FanOutReaches(s0, es, t, o, s.subs.Keys, r);
    es, s' := OneMore(s0, es, s', Unlock);
  }

  lemma AllLiveReached(s: State, s': State, r: Response)
    requires SubsInv(s) && Reached(s, s', s.subs.Keys, r)
    ensures forall i :: 0 <= i < |s.streams| ==>
      if IsLive(s.streams[i]) then GotOffer(s.streams[i], s'.streams[i], r)
      else s'.streams[i] == s.streams[i]
  {
  }

  // ---- One stream ----

  /** A registered stream can start: it sends the jar of that moment and goes on to forward. */
  lemma StreamStarts(s: State, i: StreamId) returns (es: seq<Event>, s': State)
    requires Inv(s) && i < |s.streams| && s.streams[i].phase.Registered?
    ensures es == [TakeSnapshot(i), SendFirst(i, true)] && Leads(s, es, s')
    ensures i < |s'.streams| && s'.streams[i].phase.Forwarding? && IsPresent(s, s'.streams[i].first)
    ensures s'.streams[i].queue == s.streams[i].queue && s'.streams[i].forwarded == s.streams[i].forwarded
  {
    FirstIsPresent(s, i);
    es, s' := StreamRuns(s, i);
  }

  lemma StreamRuns(s: State, i: StreamId) returns (es: seq<Event>, s': State)
    requires InRange(s) && i < |s.streams| && s.streams[i].phase.Registered?
    ensures es == [TakeSnapshot(i), SendFirst(i, true)] && Leads(s, es, s')
    ensures i < |s'.streams| && s'.streams[i].phase.Forwarding?
    ensures i < |Step(s, TakeSnapshot(i)).streams|
    ensures s'.streams[i].first == Step(s, TakeSnapshot(i)).streams[i].first
    ensures s'.streams[i].queue == s.streams[i].queue && s'.streams[i].forwarded == s.streams[i].forwarded
  {
    var t := SnapshotTaken(s, i);
    es := Nothing(s);
    es, t := OneMore(s, es, s, TakeSnapshot(i));
    es, s' := OneMore(s, es, t, SendFirst(i, true));
    assert [] + [TakeSnapshot(i)] + [SendFirst(i, true)] == [TakeSnapshot(i), SendFirst(i, true)];
  }

  lemma SnapshotTaken(s: State, i: StreamId) returns (s': State)
    requires InRange(s) && i < |s.streams| && s.streams[i].phase.Registered?
    ensures Enabled(s, TakeSnapshot(i)) && s' == Step(s, TakeSnapshot(i))
    ensures InRange(s') && Enabled(s', SendFirst(i, true))
    ensures
      var t := Step(s', SendFirst(i, true));
      && i < |t.streams| && t.streams[i].phase.Forwarding? && t.streams[i].first == s'.streams[i].first
      && t.streams[i].queue == s.streams[i].queue && t.streams[i].forwarded == s.streams[i].forwarded
  {
    s' := Step(s, TakeSnapshot(i));
    StepKeepsRange(s, TakeSnapshot(i));
  }

  /** The Forward events of `n` updates that are sent. */
  function Forwards(i: StreamId, n: nat): seq<Event> {
    if n == 0 then [] else [Forward(i, true)] + Forwards(i, n - 1)
  }

  /** A successful Send keeps the loop going: a stream can forward all that is pending, in
      order, and is then still forwarding. */
  lemma {:induction false} StreamDrains(s: State, i: StreamId)
    requires InRange(s) && i < |s.streams| && s.streams[i].phase.Forwarding?
    ensures Run(s, Forwards(i, |s.streams[i].queue|)).Some?
    ensures
      var s', st := Run(s, Forwards(i, |s.streams[i].queue|)).value, s.streams[i];
      && i < |s'.streams| && s'.streams == s.streams[i := s'.streams[i]] && s'.ops == s.ops && s'.subs == s.subs
      && s'.streams[i].phase.Forwarding? && s'.streams[i].queue == []
      && s'.streams[i].forwarded == st.forwarded + st.queue && s'.streams[i].first == st.first
    decreases |s.streams[i].queue|
  {
    var st := s.streams[i];
    if st.queue == [] {
      assert st.forwarded + st.queue == st.forwarded;
    } else {
      var s1 := Step(s, Forward(i, true));
      StepKeepsRange(s, Forward(i, true));
      var rest := Forwards(i, |st.queue| - 1);
      assert ([Forward(i, true)] + rest)[1..] == rest;
      StreamDrains(s1, i);
      assert (st.forwarded + [st.queue[0]]) + st.queue[1..] == st.forwarded + st.queue;
    }
  }

  predicate IsOver(st: Stream) {
    st.phase.Closing? || st.phase.Closed?
  }

  /** An event after which WatchCookies returns. */
  predicate IsEnding(e: Event) {
    (e.SendFirst? && !e.ok) || (e.Forward? && !e.ok) || e.Disconnect?
  }

  lemma OverStays(s: State, e: Event, i: StreamId)
    requires InRange(s) && Enabled(s, e) && i < |s.streams| && IsOver(s.streams[i])
    ensures
      var s' := Step(s, e);
      && i < |s'.streams| && IsOver(s'.streams[i])
      && s'.streams[i].forwarded == s.streams[i].forwarded && s'.streams[i].first == s.streams[i].first
  {
  }

  lemma {:induction false} RunKeepsOver(s: State, es: seq<Event>, i: StreamId)
    requires InRange(s) && Run(s, es).Some? && i < |s.streams| && IsOver(s.streams[i])
    ensures
      var s' := Run(s, es).value;
      && i < |s'.streams| && IsOver(s'.streams[i])
      && s'.streams[i].forwarded == s.streams[i].forwarded && s'.streams[i].first == s.streams[i].first
    decreases |es|
  {
    if es != [] {
      StepKeepsRange(s, es[0]);
      OverStays(s, es[0], i);
      RunKeepsOver(Step(s, es[0]), es[1..], i);
    }
  }

  /** After a failed Send, or when the client has gone, nothing more is ever sent on the
      stream, in any run; an update that failed was the last one tried. */
  lemma EndedStreamSendsNothing(s: State, e: Event, es: seq<Event>)
    requires InRange(s) && Enabled(s, e) && IsEnding(e) && Run(Step(s, e), es).Some?
    ensures e.i < |s.streams|
    ensures
      var s', st := Run(Step(s, e), es).value, s.streams[e.i];
      && e.i < |s'.streams| && IsOver(s'.streams[e.i]) && s'.streams[e.i].first == st.first
      && s'.streams[e.i].forwarded
         == if e.Forward? then st.forwarded + [st.queue[0]] else st.forwarded
  {
    StepKeepsRange(s, e);
    RunKeepsOver(Step(s, e), es, e.i);
  }

  /** A client can go at any moment, whatever is still pending for it. */
  lemma ClientCanLeave(s: State, i: StreamId)
    requires Inv(s) && i < |s.streams| && s.streams[i].phase.Forwarding?
    ensures Enabled(s, Disconnect(i)) && Inv(Step(s, Disconnect(i)))
    ensures Step(s, Disconnect(i)).streams[i].phase.Closing? && Step(s, Disconnect(i)).subs == s.subs
  {
    StepKeepsInv(s, Disconnect(i));
  }

  /** And a stream that is over can leave the map of subscribers as soon as subMu is free,
      after which no fan-out reaches it. */
  lemma EndedStreamLeaves(s: State, i: StreamId)
    requires Inv(s) && i < |s.streams| && s.streams[i].phase.Closing? && s.fan.None?
    ensures Enabled(s, Deregister(i)) && Inv(Step(s, Deregister(i)))
    ensures
      var s' := Step(s, Deregister(i));
      s'.streams[i].phase.Closed? && s.streams[i].pc !in s'.subs && s'.subs == s.subs - {s.streams[i].pc}
  {
    StepKeepsInv(s, Deregister(i));
  }

  // ---- Nothing gets stuck ----

  /** The events that need no decision of a client: not a new call, not a lost connection. */
  predicate IsInternal(e: Event) {
    !e.Apply? && !e.Read? && !e.Register? && !e.Disconnect? && (e.SendFirst? || e.Forward? ==> e.ok)
  }

  lemma FanOutIsNeverStuck(s: State) returns (e: Event)
    requires Inv(s) && s.fan.Some?
    ensures IsInternal(e) && Enabled(s, e)
  {
    if s.fan.value.todo == {} {
      e := Unlock;
    } else {
      var pc :| pc in s.fan.value.todo;
      e := Push(pc);
    }
  }

  /** A broadcast waits for nobody but the fan-out that holds subMu. */
  lemma BroadcastIsNeverStuck(s: State, o: OpId) returns (e: Event)
    requires Inv(s) && s.fan.None? && o < |s.ops| && !s.ops[o].Done?
    ensures IsInternal(e) && Enabled(s, e) && (e == Bump(o) || e == Snap(o) || e == Lock(o))
  {
    e := match s.ops[o] case Applied => Bump(o) case Bumped(_) => Snap(o) case _ => Lock(o);
  }

  /** A stream always can go on, and its Send may succeed or fail, unless it has nothing to
      send or waits for the fan-out that holds subMu. */
  lemma StreamIsNeverStuck(s: State, i: StreamId, ok: bool) returns (e: Event)
    requires Inv(s) && i < |s.streams| && !s.streams[i].phase.Closed?
    requires s.streams[i].phase.Forwarding? ==> s.streams[i].queue != []
    requires s.streams[i].phase.Closing? ==> s.fan.None?
    ensures Enabled(s, e) && (ok ==> IsInternal(e))
    ensures e == TakeSnapshot(i) || e == SendFirst(i, ok) || e == Forward(i, ok) || e == Deregister(i)
  {
    e := match s.streams[i].phase
      case Registered => TakeSnapshot(i)
      case Snapped => SendFirst(i, ok)
      case Forwarding => Forward(i, ok)
      case _ => Deregister(i);
  }

  /** Where nothing internal can happen, all broadcasts are over, subMu is free, and every
      stream is closed or forwarding with nothing pending. */
  lemma NothingIsStuck(s: State)
    requires Inv(s) && forall e :: IsInternal(e) ==> !Enabled(s, e)
    ensures s.fan.None? && forall o :: 0 <= o < |s.ops| ==> s.ops[o].Done?
    ensures forall i :: 0 <= i < |s.streams| ==>
      s.streams[i].phase.Closed? || (s.streams[i].phase.Forwarding? && s.streams[i].queue == [])
  {
    if s.fan.Some? {
      var e := FanOutIsNeverStuck(s);
    }
    forall o | 0 <= o < |s.ops|
      ensures s.ops[o].Done?
    {
      if !s.ops[o].Done? {
        var e := BroadcastIsNeverStuck(s, o);
      }
    }
    forall i | 0 <= i < |s.streams|
      ensures s.streams[i].phase.Closed? || (s.streams[i].phase.Forwarding? && s.streams[i].queue == [])
    {
      if !s.streams[i].phase.Closed? && (s.streams[i].phase.Forwarding? ==> s.streams[i].queue != []) {
        var e := StreamIsNeverStuck(s, i, true);
      }
    }
  }

  /** A client is turned away only for an empty pc_id, and waits only for subMu. */
  lemma ClientsAreServed(s: State, pc: PcId)
    requires Inv(s) && s.fan.None? && pc != ""
    ensures Enabled(s, Register(pc))
    ensures
      var s' := Step(s, Register(pc));
      && |s'.streams| == |s.streams| + 1 && s'.streams[..|s.streams|] == s.streams
      && s'.streams[|s.streams|].pc == pc && s'.streams[|s.streams|].phase.Registered?
      && s'.streams[|s.streams|].queue == [] && s'.subs == s.subs[pc := |s.streams|]
  {
  }
}
