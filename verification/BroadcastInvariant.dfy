/** The invariant of the broadcast protocol is kept by every event of a disciplined run. */
module BroadcastInvariant {
  import opened Options
  import opened CookieJar
  import opened BroadcastProtocol

  // ---- What a step leaves in place ----

  /** Histories only grow, and a response, once given, does not change. */
  ghost predicate Extends(s: State, s': State) {
    && s.applied <= s'.applied
    && |s.ops| <= |s'.ops|
    && (forall o :: 0 <= o < |s.ops| && HasResponse(s.ops[o]) ==>
          HasResponse(s'.ops[o]) && s'.ops[o].resp == s.ops[o].resp)
    && (forall o :: 0 <= o < |s.ops| && s.ops[o].Done? ==> s'.ops[o].Done?)
  }

  lemma StepExtends(s: State, e: Event)
    requires InRange(s) && Enabled(s, e)
    ensures Extends(s, Step(s, e))
  {
  }

  lemma StepKeepsRange(s: State, e: Event)
    requires InRange(s) && Enabled(s, e)
    ensures InRange(Step(s, e))
  {
  }

  lemma FaithfulStays(applied: seq<seq<Cookie>>, applied': seq<seq<Cookie>>, r: Response)
    requires Faithful(applied, r) && applied <= applied'
    ensures Faithful(applied', r)
  {
    assert applied'[..r.prefix] == applied[..r.prefix];
  }

  lemma SnapshotIsFaithful(s: State)
    requires JarInv(s)
    ensures Faithful(s.applied, Snapshot(s))
  {
    assert s.applied[..|s.applied|] == s.applied;
  }

  lemma FifoStays(s: State, s': State, st: Stream)
    requires Extends(s, s') && FifoInv(s, st)
    ensures FifoInv(s', st)
  {
  }

  lemma FirstStays(s: State, s': State, st: Stream)
    requires Extends(s, s') && FirstInv(s, st)
    ensures FirstInv(s', st)
  {
    FaithfulStays(s.applied, s'.applied, st.first);
  }

  /** The fan-outs that have passed `st` are the same in both states. */
  ghost predicate SamePassed(s: State, s': State, st: Stream) {
    forall o :: Passed(s, o, st) <==> Passed(s', o, st)
  }

  lemma CoverStays(s: State, s': State, st: Stream)
    requires CoverInv(s, st) && SamePassed(s, s', st)
    ensures CoverInv(s', st)
  {
    forall o | Passed(s', o, st)
      ensures o in st.missed || o in st.sent || o in st.dropped
    {
      assert Passed(s, o, st);
    }
    forall o | o in st.sent || o in st.dropped
      ensures Passed(s', o, st)
    {
      assert Passed(s, o, st);
    }
  }

  // ---- The jar, the versions and the responses ----

  lemma {:induction false} InFlightUpdate(ops: seq<Phase>, o: nat, p: Phase)
    requires o < |ops|
    ensures InFlight(ops[o := p])
         == InFlight(ops) - (if ops[o].Applied? then 1 else 0) + if p.Applied? then 1 else 0
  {
    var n := |ops| - 1;
    if o < n {
      assert ops[o := p][..n] == ops[..n][o := p];
      InFlightUpdate(ops[..n], o, p);
    } else {
      assert ops[o := p][..n] == ops[..n];
    }
  }

  /** A call moves on, from or to anywhere but the state before the bump. */
  lemma InFlightStays(s: State, s': State, o: OpId)
    requires JarInv(s) && o < |s.ops| && !s.ops[o].Applied?
    requires |s'.ops| == |s.ops| && s'.ops == s.ops[o := s'.ops[o]] && !s'.ops[o].Applied?
    requires s'.entries == s.entries && s'.applied == s.applied && s'.version == s.version
    ensures JarInv(s')
  {
    InFlightUpdate(s.ops, o, s'.ops[o]);
  }

  lemma StepKeepsJar(s: State, e: Event)
    requires InRange(s) && JarInv(s) && Enabled(s, e)
    ensures JarInv(Step(s, e))
  {
    if e.Apply? || e.Bump? {
      StoreStepKeepsJar(s, e);
    } else if e.Snap? || e.Lock? {
      InFlightStays(s, Step(s, e), e.o);
    } else if e.Unlock? {
      InFlightStays(s, Step(s, e), s.fan.value.op);
    } else {
      OtherStepKeepsJar(s, e);
    }
  }

  /** The two halves of Store. */
  lemma StoreStepKeepsJar(s: State, e: Event)
    requires InRange(s) && JarInv(s) && Enabled(s, e) && (e.Apply? || e.Bump?)
    ensures JarInv(Step(s, e))
  {
    if e.Apply? {
      ReplayAppend(s.applied, e.batch);
      assert (s.ops + [Phase.Applied])[..|s.ops|] == s.ops;
    } else {
      InFlightUpdate(s.ops, e.o, Bumped(s.version + 1));
    }
  }

  lemma OtherStepKeepsJar(s: State, e: Event)
    requires InRange(s) && JarInv(s) && Enabled(s, e) && !e.Apply? && !e.Bump?
    requires !e.Snap? && !e.Lock? && !e.Unlock?
    ensures JarInv(Step(s, e))
  {
  }

  /** A step adds one call to those that got a version, or none. */
  ghost predicate NewVersion(s: State, e: Event, o: OpId, v: nat) {
    e.Bump? && e.o == o && v == s.version + 1
  }

  lemma StepGivesVersion(s: State, e: Event, o: OpId, v: nat)
    requires Inv(s) && Enabled(s, e)
    ensures GotVersion(Step(s, e), o, v) <==> GotVersion(s, o, v) || NewVersion(s, e, o, v)
  {
  }

  lemma StepRecordsBumper(s: State, e: Event, o: OpId, v: nat)
    requires InRange(s) && VersionInv(s) && Enabled(s, e)
    ensures IsBumper(Step(s, e), o, v) <==> IsBumper(s, o, v) || NewVersion(s, e, o, v)
  {
  }

  lemma StepKeepsVersions(s: State, e: Event)
    requires Inv(s) && Enabled(s, e)
    ensures VersionInv(Step(s, e))
  {
    var s' := Step(s, e);
    forall o: OpId, v: nat
      ensures GotVersion(s', o, v) <==> IsBumper(s', o, v)
    {
      StepGivesVersion(s, e, o, v);
      StepRecordsBumper(s, e, o, v);
    }
  }

  lemma StepKeepsOps(s: State, e: Event)
    requires Inv(s) && Enabled(s, e)
    ensures OpsInv(Step(s, e))
  {
    var s' := Step(s, e);
    forall o | 0 <= o < |s'.ops| && HasResponse(s'.ops[o])
      ensures Faithful(s'.applied, s'.ops[o].resp) && o < s'.ops[o].resp.prefix
    {
      if HasResponse(s.ops[o]) {
        StepExtends(s, e);
        FaithfulStays(s.applied, s'.applied, s.ops[o].resp);
      } else {
        assert GotVersion(s, o, s.ops[o].ver);
        SnapshotIsFaithful(s);
      }
    }
  }

  lemma StepKeepsSnapshots(s: State, e: Event)
    requires Inv(s) && Enabled(s, e)
    ensures ReadsInv(Step(s, e))
  {
    var s' := Step(s, e);
    StepExtends(s, e);
    SnapshotIsFaithful(s);
    forall i | 0 <= i < |s'.snapshots|
      ensures Faithful(s'.applied, s'.snapshots[i])
    {
      FaithfulStays(s.applied, s'.applied, if i < |s.snapshots| then s.snapshots[i] else Snapshot(s));
    }
  }

  /** A step outside subMu: it leaves pc_ids, liveness and the fan-out alone. */
  lemma SubsStay(s: State, s': State)
    requires SubsInv(s) && s'.subs == s.subs && s'.fan == s.fan && |s'.streams| == |s.streams|
    requires forall i :: 0 <= i < |s.streams| ==>
      s'.streams[i].pc == s.streams[i].pc && IsLive(s'.streams[i]) == IsLive(s.streams[i])
    requires |s.ops| <= |s'.ops|
    requires forall o :: 0 <= o < |s.ops| ==> s'.ops[o].Fanning? == s.ops[o].Fanning?
    requires forall o :: |s.ops| <= o < |s'.ops| ==> !s'.ops[o].Fanning?
    ensures SubsInv(s')
  {
  }

  lemma PushKeepsSubs(s: State, pc: PcId)
    requires SubsInv(s) && Enabled(s, Push(pc))
    ensures SubsInv(Step(s, Push(pc)))
  {
    var s' := Step(s, Push(pc));
    assert forall i :: 0 <= i < |s.streams| ==>
        s'.streams[i].pc == s.streams[i].pc && s'.streams[i].phase == s.streams[i].phase;
  }

  lemma FanOutKeepsSubs(s: State, e: Event)
    requires SubsInv(s) && Enabled(s, e) && (e.Lock? || e.Unlock?)
    ensures SubsInv(Step(s, e))
  {
  }

  lemma OtherStepKeepsSubs(s: State, e: Event)
    requires SubsInv(s) && Enabled(s, e) && !e.Register? && !e.Deregister?
    requires !e.Push? && !e.Lock? && !e.Unlock?
    ensures SubsInv(Step(s, e))
  {
    SubsStay(s, Step(s, e));
  }

  lemma StepKeepsSubs(s: State, e: Event)
    requires Inv(s) && Enabled(s, e) && Disciplined(s, e)
    ensures SubsInv(Step(s, e))
  {
    if e.Register? {
      RegisterKeepsSubs(s, e.pc);
    } else if e.Deregister? {
      DeregisterKeepsSubs(s, e.i);
    } else if e.Push? {
      PushKeepsSubs(s, e.pc);
    } else if e.Lock? || e.Unlock? {
      FanOutKeepsSubs(s, e);
    } else {
      OtherStepKeepsSubs(s, e);
    }
  }

  lemma RegisterKeepsSubs(s: State, pc: PcId)
    requires SubsInv(s) && Enabled(s, Register(pc)) && Disciplined(s, Register(pc))
    ensures SubsInv(Step(s, Register(pc)))
  {
  }

  lemma DeregisterKeepsSubs(s: State, i: StreamId)
    requires SubsInv(s) && Enabled(s, Deregister(i))
    ensures SubsInv(Step(s, Deregister(i)))
  {
  }

  // ---- The streams ----

  /** A step that neither touches the streams nor lets a fan-out pass one. */
  lemma StreamsStay(s: State, s': State)
    requires StreamsInv(s) && Extends(s, s') && s'.streams == s.streams
    requires forall i :: 0 <= i < |s.streams| && IsLive(s.streams[i]) ==> SamePassed(s, s', s.streams[i])
    ensures StreamsInv(s')
  {
    forall i | 0 <= i < |s.streams|
      ensures FifoInv(s', s.streams[i]) && FirstInv(s', s.streams[i])
      ensures IsLive(s.streams[i]) ==> CoverInv(s', s.streams[i])
    {
      FifoStays(s, s', s.streams[i]);
      FirstStays(s, s', s.streams[i]);
      if IsLive(s.streams[i]) {
        CoverStays(s, s', s.streams[i]);
      }
    }
  }

  /** A step that changes one stream, for which the invariant is shown separately. */
  lemma OneStreamChanges(s: State, s': State, i: StreamId, st: Stream)
    requires StreamsInv(s) && Extends(s, s') && i < |s.streams| && s'.streams == s.streams[i := st]
    requires FifoInv(s', st) && FirstInv(s', st) && (IsLive(st) ==> CoverInv(s', st))
    requires forall j :: 0 <= j < |s.streams| && j != i && IsLive(s.streams[j]) ==>
      SamePassed(s, s', s.streams[j])
    ensures StreamsInv(s')
  {
    forall j | 0 <= j < |s.streams| && j != i
      ensures FifoInv(s', s.streams[j]) && FirstInv(s', s.streams[j])
      ensures IsLive(s.streams[j]) ==> CoverInv(s', s.streams[j])
    {
      FifoStays(s, s', s.streams[j]);
      FirstStays(s, s', s.streams[j]);
      if IsLive(s.streams[j]) {
        CoverStays(s, s', s.streams[j]);
      }
    }
  }

  predicate LeavesStreams(e: Event) {
    e.Apply? || e.Bump? || e.Snap? || e.Lock? || e.Unlock? || e.Read?
  }

  lemma QuietStepKeepsStreams(s: State, e: Event)
    requires Inv(s) && Enabled(s, e) && LeavesStreams(e)
    ensures StreamsInv(Step(s, e))
  {
    var s' := Step(s, e);
    StepExtends(s, e);
    forall i | 0 <= i < |s.streams| && IsLive(s.streams[i])
      ensures SamePassed(s, s', s.streams[i])
    {
      QuietStepPassesNone(s, e, s.streams[i]);
    }
    StreamsStay(s, s');
  }

  lemma QuietStepPassesNone(s: State, e: Event, st: Stream)
    requires InRange(s) && Enabled(s, e) && LeavesStreams(e) && st.pc in s.subs
    ensures SamePassed(s, Step(s, e), st)
  {
  }

  lemma OfferKeepsFifo(s: State, s': State, st: Stream, o: OpId)
    requires FifoInv(s, st) && o < |s.ops| && HasResponse(s.ops[o]) && s'.ops == s.ops
    ensures FifoInv(s', Offer(st, o, s.ops[o].resp))
  {
    var resp := s.ops[o].resp;
    assert st.forwarded + (st.queue + [resp]) == (st.forwarded + st.queue) + [resp];
  }

  lemma OfferKeepsFirst(s: State, s': State, st: Stream, o: OpId)
    requires FirstInv(s, st) && o < |s.ops| && HasResponse(s.ops[o])
    requires s'.ops == s.ops && s'.applied == s.applied
    ensures FirstInv(s', Offer(st, o, s.ops[o].resp))
  {
  }

  lemma OfferKeepsCover(s: State, s': State, st: Stream, o: OpId)
    requires CoverInv(s, st) && FirstInv(s, st) && s.fan.Some? && s.fan.value.op == o
    requires st.pc in s.fan.value.todo && o < |s.ops| && s.ops[o].Fanning?
    requires s'.ops == s.ops && s'.fan == Some(s.fan.value.(todo := s.fan.value.todo - {st.pc}))
    ensures CoverInv(s', Offer(st, o, s.ops[o].resp))
  {
    var st' := Offer(st, o, s.ops[o].resp);
    assert !Passed(s, o, st) && o !in st.missed;
    forall x
      ensures Passed(s', x, st') <==> Passed(s, x, st) || x == o
    {
    }
    forall x | Passed(s', x, st')
      ensures x in st'.missed || x in st'.sent || x in st'.dropped
    {
      assert Passed(s, x, st) || x == o;
    }
    forall x | x in st'.sent || x in st'.dropped
      ensures Passed(s', x, st')
    {
      assert x == o || Passed(s, x, st);
    }
  }

  lemma PushPassesOne(s: State, pc: PcId, st: Stream)
    requires InRange(s) && Enabled(s, Push(pc)) && st.pc != pc
    ensures SamePassed(s, Step(s, Push(pc)), st)
  {
  }

  lemma PushKeepsStreams(s: State, pc: PcId)
    requires Inv(s) && Enabled(s, Push(pc))
    ensures StreamsInv(Step(s, Push(pc)))
  {
    var s' := Step(s, Push(pc));
    var o := s.fan.value.op;
    var i := s.subs[pc];
    var st := s.streams[i];
    StepExtends(s, Push(pc));
    OfferKeepsFifo(s, s', st, o);
    OfferKeepsFirst(s, s', st, o);
    OfferKeepsCover(s, s', st, o);
    forall j | 0 <= j < |s.streams| && j != i && IsLive(s.streams[j])
      ensures SamePassed(s, s', s.streams[j])
    {
      PushPassesOne(s, pc, s.streams[j]);
    }
    OneStreamChanges(s, s', i, s'.streams[i]);
  }

  lemma RegisterKeepsStreams(s: State, pc: PcId)
    requires Inv(s) && Enabled(s, Register(pc)) && Disciplined(s, Register(pc))
    ensures StreamsInv(Step(s, Register(pc)))
  {
    var s' := Step(s, Register(pc));
    var n := |s.streams|;
    StepExtends(s, Register(pc));
    assert Replay(s.applied[..0]) == map[];
    forall i | 0 <= i < |s'.streams|
      ensures FifoInv(s', s'.streams[i]) && FirstInv(s', s'.streams[i])
      ensures IsLive(s'.streams[i]) ==> CoverInv(s', s'.streams[i])
    {
      if i < n {
        FifoStays(s, s', s.streams[i]);
        FirstStays(s, s', s.streams[i]);
        if IsLive(s.streams[i]) {
          CoverStays(s, s', s.streams[i]);
        }
      }
    }
  }

  predicate IsStreamStep(e: Event) {
    e.TakeSnapshot? || e.SendFirst? || e.Forward? || e.Disconnect? || e.Deregister?
  }

  lemma StreamStepKeepsFifo(s: State, e: Event)
    requires Inv(s) && Enabled(s, e) && IsStreamStep(e)
    ensures FifoInv(Step(s, e), Step(s, e).streams[e.i])
  {
    var s', st := Step(s, e), s.streams[e.i];
    assert s'.ops == s.ops && FifoInv(s, st);
    if e.Forward? {
      ForwardKeepsFifo(s, s', st, s'.streams[e.i].phase);
    }
  }

  lemma ForwardKeepsFifo(s: State, s': State, st: Stream, phase: StreamPhase)
    requires FifoInv(s, st) && st.queue != [] && s'.ops == s.ops
    ensures FifoInv(s', st.(queue := st.queue[1..], forwarded := st.forwarded + [st.queue[0]], phase := phase))
  {
    assert st.queue == [st.queue[0]] + st.queue[1..];
    assert (st.forwarded + [st.queue[0]]) + st.queue[1..] == st.forwarded + st.queue;
  }

  lemma StreamStepKeepsFirst(s: State, e: Event)
    requires Inv(s) && Enabled(s, e) && IsStreamStep(e)
    ensures FirstInv(Step(s, e), Step(s, e).streams[e.i])
  {
    var s', st := Step(s, e), s.streams[e.i];
    assert FirstInv(s, st);
    if e.TakeSnapshot? {
      SnapshotCoversMissed(s, st);
    } else {
      StreamStepKeepsSnapshot(s, e);
      assert s'.ops == s.ops && s'.applied == s.applied;
    }
  }

  lemma SnapshotCoversMissed(s: State, st: Stream)
    requires Inv(s) && FirstInv(s, st)
    ensures FirstInv(s, st.(phase := Snapped, first := Snapshot(s)))
  {
    SnapshotIsFaithful(s);
    forall o | o in st.missed
      ensures Version(s.ops[o]) <= s.version && o < |s.applied|
    {
      assert GotVersion(s, o, Version(s.ops[o]));
    }
  }

  lemma StreamStepKeepsSnapshot(s: State, e: Event)
    requires Inv(s) && Enabled(s, e) && IsStreamStep(e) && !e.TakeSnapshot?
    ensures
      var st, st' := s.streams[e.i], Step(s, e).streams[e.i];
      st'.first == st.first && st'.missed == st.missed && !st.phase.Registered?
  {
  }

  lemma StreamStepKeepsStreams(s: State, e: Event)
    requires Inv(s) && Enabled(s, e) && IsStreamStep(e)
    ensures StreamsInv(Step(s, e))
  {
    var s' := Step(s, e);
    var st := s.streams[e.i];
    var st' := s'.streams[e.i];
    StepExtends(s, e);
    StreamStepKeepsFifo(s, e);
    StreamStepKeepsFirst(s, e);
    StreamStepIsLocal(s, e);
    forall j | 0 <= j < |s.streams|
      ensures SamePassed(s, s', s.streams[j])
    {
      SameFanOut(s, s', s.streams[j]);
    }
    if IsLive(st') {
      CoverStays(s, s', st);
      CoverIgnoresChannel(s', st, st');
    }
    OneStreamChanges(s, s', e.i, st');
  }

  /** A stream's own step changes no channel but its own, and no fan-out. */
  lemma StreamStepIsLocal(s: State, e: Event)
    requires Inv(s) && Enabled(s, e) && IsStreamStep(e)
    ensures
      var s' := Step(s, e);
      var st, st' := s.streams[e.i], s'.streams[e.i];
      && s'.streams == s.streams[e.i := st'] && s'.ops == s.ops && s'.fan == s.fan
      && st'.pc == st.pc && st'.sent == st.sent && st'.dropped == st.dropped && st'.missed == st.missed
      && IsLive(st)
  {
  }

  lemma SameFanOut(s: State, s': State, st: Stream)
    requires s'.ops == s.ops && s'.fan == s.fan
    ensures SamePassed(s, s', st)
  {
  }

  lemma CoverIgnoresChannel(s: State, st: Stream, st': Stream)
    requires CoverInv(s, st)
    requires st'.pc == st.pc && st'.sent == st.sent && st'.dropped == st.dropped && st'.missed == st.missed
    ensures CoverInv(s, st')
  {
    forall o
      ensures Passed(s, o, st) <==> Passed(s, o, st')
    {
    }
  }

  lemma StepKeepsStreams(s: State, e: Event)
    requires Inv(s) && Enabled(s, e) && Disciplined(s, e)
    ensures StreamsInv(Step(s, e))
  {
    if LeavesStreams(e) {
      QuietStepKeepsStreams(s, e);
    } else if e.Push? {
      PushKeepsStreams(s, e.pc);
    } else if e.Register? {
      RegisterKeepsStreams(s, e.pc);
    } else {
      StreamStepKeepsStreams(s, e);
    }
  }

  lemma StepKeepsInv(s: State, e: Event)
    requires Inv(s) && Enabled(s, e) && Disciplined(s, e)
    ensures Inv(Step(s, e))
  {
    StepKeepsJar(s, e);
    StepKeepsVersions(s, e);
    StepKeepsOps(s, e);
    StepKeepsSnapshots(s, e);
    StepKeepsSubs(s, e);
    StepKeepsStreams(s, e);
  }

  // ---- Runs ----

  /** The state after a run, if the code allows every event when it comes. */
  ghost function Run(s: State, es: seq<Event>): Option<State>
    decreases |es|
  {
    if es == [] then Some(s)
    else if InRange(s) && Enabled(s, es[0]) then Run(Step(s, es[0]), es[1..])
    else None
  }

  /** No two live streams ever get to share a pc_id. */
  ghost predicate DisciplinedRun(s: State, es: seq<Event>)
    requires Run(s, es).Some?
    decreases |es|
  {
    es != [] ==> Disciplined(s, es[0]) && DisciplinedRun(Step(s, es[0]), es[1..])
  }

  lemma InitInv()
    ensures Inv(INIT)
  {
    var s := INIT;
    assert s.ops == [] && s.streams == [] && s.snapshots == [] && s.bumps == [] && s.applied == [];
    assert JarInv(s) && VersionInv(s) && OpsInv(s) && ReadsInv(s);
  }

  /** The invariant is kept by every disciplined run, whatever the interleaving. */
  lemma {:induction false} RunKeepsInv(s: State, es: seq<Event>)
    requires Inv(s) && Run(s, es).Some? && DisciplinedRun(s, es)
    ensures Inv(Run(s, es).value)
    decreases |es|
  {
    if es != [] {
      StepKeepsInv(s, es[0]);
      RunKeepsInv(Step(s, es[0]), es[1..]);
    }
  }

  lemma RunInv(es: seq<Event>)
    requires Run(INIT, es).Some? && DisciplinedRun(INIT, es)
    ensures Inv(Run(INIT, es).value)
  {
    InitInv();
    RunKeepsInv(INIT, es);
  }

  lemma {:induction false} RunConcat(s: State, es: seq<Event>, more: seq<Event>)
    requires Run(s, es).Some?
    ensures Run(s, es + more) == Run(Run(s, es).value, more)
    ensures Run(s, es + more).Some? ==>
      (DisciplinedRun(s, es + more) <==> DisciplinedRun(s, es) && DisciplinedRun(Run(s, es).value, more))
    decreases |es|
  {
    if es == [] {
      assert es + more == more;
    } else {
      assert (es + more)[1..] == es[1..] + more;
      RunConcat(Step(s, es[0]), es[1..], more);
    }
  }

  lemma RunOne(s: State, e: Event)
    requires InRange(s) && Enabled(s, e)
    ensures Run(s, [e]) == Some(Step(s, e)) && (DisciplinedRun(s, [e]) <==> Disciplined(s, e))
  {
    assert [e][1..] == [];
  }
}
