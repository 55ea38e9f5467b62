/** What a registration under the pc_id of a live stream does to the no-gap guarantee. */
module BroadcastOverlap {
  import opened Options
  import opened CookieJar
  import opened BroadcastProtocol
  import opened BroadcastInvariant
  import opened BroadcastTheorems

  /** The broadcast is finished and the stream is live and past its snapshot. */
  predicate IsDue(s: State, st: Stream, o: OpId)
    requires o < |s.ops|
  {
    s.ops[o].Done? && IsLive(st) && !st.phase.Registered?
  }

  /** Every finished broadcast has reached every live stream past its snapshot. */
  ghost predicate NoGapIn(s: State) {
    forall i, o :: 0 <= i < |s.streams| && 0 <= o < |s.ops| && IsDue(s, s.streams[i], o) ==>
      IsCovered(s, s.streams[i], o)
  }

  /** There is no gap now, or after any run in which no further pc_id overlaps. */
  ghost predicate KeepsNoGap(s: State) {
    forall es :: Run(s, es).Some? && DisciplinedRun(s, es) ==> NoGapIn(Run(s, es).value)
  }

  lemma InvKeepsNoGap(s: State)
    requires Inv(s)
    ensures KeepsNoGap(s)
  {
    forall es | Run(s, es).Some? && DisciplinedRun(s, es)
      ensures NoGapIn(Run(s, es).value)
    {
      RunKeepsInv(s, es);
      var s' := Run(s, es).value;
      forall i, o | 0 <= i < |s'.streams| && 0 <= o < |s'.ops| && IsDue(s', s'.streams[i], o)
        ensures IsCovered(s', s'.streams[i], o)
      {
        FinishedIsCovered(s', i, o);
      }
    }
  }

  // ---- A broadcast that passes a stream by ----

  /** A run, as an existential: it leads from `s` to `s'` without registrations. */
  ghost predicate Leads(s: State, es: seq<Event>, s': State) {
    Run(s, es) == Some(s') && InRange(s') && DisciplinedRun(s, es)
  }

  lemma Nothing(s: State) returns (es: seq<Event>)
    requires InRange(s)
    ensures Leads(s, es, s) && es == []
  {
    es := [];
  }

  /** One more event at the end of a run. */
  lemma OneMore(s0: State, es: seq<Event>, s: State, e: Event) returns (es': seq<Event>, s': State)
    requires Leads(s0, es, s) && Enabled(s, e) && Disciplined(s, e)
    ensures Leads(s0, es', s') && s' == Step(s, e) && es' == es + [e]
  {
    RunOne(s, e);
    RunConcat(s0, es, [e]);
    StepKeepsRange(s, e);
    es', s' := es + [e], Step(s, e);
  }

  /** The stream is not where its pc_id leads, and holds nothing of calls to come. */
  ghost predicate IsOrphaned(s: State, i: StreamId) {
    && i < |s.streams| && i !in s.subs.Values && IsLive(s.streams[i])
    && |s.ops| == |s.applied|
    && s.streams[i].first.prefix <= |s.applied|
    && (forall j :: 0 <= j < |s.streams[i].sent| ==> s.streams[i].sent[j] < |s.ops|)
    && (forall o :: o in s.streams[i].dropped ==> o < |s.ops|)
  }

  /** The pushes of a fan-out, in whatever order, to streams other than `i`. */
  lemma {:induction false} PushAll(s0: State, es0: seq<Event>, s: State, i: StreamId)
      returns (es: seq<Event>, s': State)
    requires Leads(s0, es0, s) && s.fan.Some? && i < |s.streams| && i !in s.subs.Values
    ensures Leads(s0, es, s') && s'.fan == Some(FanOut(s.fan.value.op, {}))
    ensures s'.ops == s.ops && i < |s'.streams| && s'.streams[i] == s.streams[i]
    decreases |s.fan.value.todo|
  {
    es, s' := es0, s;
    if s.fan.value.todo != {} {
      var pc :| pc in s.fan.value.todo;
      es, s' := OneMore(s0, es0, s, Push(pc));
      assert s.subs[pc] in s.subs.Values;
      es, s' := PushAll(s0, es, s', i);
    }
  }

  /** From a state with no fan-out under way, a run that ends with a finished broadcast of
      which an orphaned stream got nothing. */
  lemma BroadcastPassesBy(s0: State, es0: seq<Event>, s: State, i: StreamId, c: Cookie)
      returns (es: seq<Event>, s': State)
    requires Leads(s0, es0, s) && s.fan.None? && IsOrphaned(s, i)
    ensures Leads(s0, es, s') && i < |s'.streams| && s'.streams[i] == s.streams[i]
    ensures |s.ops| < |s'.ops| && s'.ops[|s.ops|].Done?
  {
    var o := |s.ops|;
    es, s' := OneMore(s0, es0, s, Apply([c]));
    es, s' := OneMore(s0, es, s', Bump(o));
    es, s' := OneMore(s0, es, s', Snap(o));
    es, s' := OneMore(s0, es, s', Lock(o));
    es, s' := PushAll(s0, es, s', i);
    es, s' := OneMore(s0, es, s', Unlock);
  }

  lemma OrphanMisses(s: State, s': State, i: StreamId)
    requires IsOrphaned(s, i) && i < |s'.streams| && s'.streams[i] == s.streams[i]
    requires |s.ops| < |s'.ops| && s'.ops[|s.ops|].Done? && !s.streams[i].phase.Registered?
    ensures !IsCovered(s', s'.streams[i], |s.ops|) && !NoGapIn(s')
  {
    var st, o := s.streams[i], |s.ops|;
    assert !InFirst(s', st, o);
    assert !Enqueued(s', st, o);
    assert !DroppedWhenFull(st, o);
  }

  /** So the guarantee is lost for an orphaned stream. */
  lemma OrphanHasGap(s: State, i: StreamId)
    requires InRange(s) && s.fan.None? && IsOrphaned(s, i)
    ensures !KeepsNoGap(s)
  {
    var es := Nothing(s);
    var s1 := s;
    if s.streams[i].phase.Registered? {
      es, s1 := OneMore(s, es, s, TakeSnapshot(i));
    }
    var s2: State;
    es, s2 := BroadcastPassesBy(s, es, s1, i, Cookie("", "", ""));
    OrphanMisses(s1, s2, i);
  }

  /** Registering over a live stream orphans it. */
  lemma OverlapOrphans(s: State, i: StreamId)
    requires Inv(s) && i < |s.streams| && IsLive(s.streams[i])
    requires Enabled(s, Register(s.streams[i].pc))
    ensures IsOrphaned(Step(s, Register(s.streams[i].pc)), i)
  {
    var st := s.streams[i];
    var s' := Step(s, Register(st.pc));
    assert FifoInv(s, st) && CoverInv(s, st) && FirstInv(s, st);
    forall o | o in st.dropped
      ensures o < |s.ops|
    {
      assert Passed(s, o, st);
    }
    forall pc | pc in s'.subs
      ensures s'.subs[pc] != i
    {
      if pc != st.pc {
        assert s.streams[s.subs[pc]].pc == pc;
      }
    }
  }

  /** A registration keeps the no-gap guarantee, for all live streams and over all runs
      that follow, if and only if no live stream has its pc_id. */
  lemma RegisterKeepsNoGapIff(s: State, pc: PcId)
    requires Inv(s) && Enabled(s, Register(pc))
    ensures KeepsNoGap(Step(s, Register(pc))) <==> Disciplined(s, Register(pc))
  {
    var s' := Step(s, Register(pc));
    if Disciplined(s, Register(pc)) {
      StepKeepsInv(s, Register(pc));
      InvKeepsNoGap(s');
    } else {
      var i :| 0 <= i < |s.streams| && IsLive(s.streams[i]) && s.streams[i].pc == pc;
      OverlapOrphans(s, i);
      StepKeepsRange(s, Register(pc));
      OrphanHasGap(s', i);
    }
  }

  /** Registering keeps the subscribers' map exact if and only if no live stream has the
      same pc_id already. */
  lemma RegisterKeepsSubsIff(s: State, pc: PcId)
    requires Inv(s) && Enabled(s, Register(pc))
    ensures SubsInv(Step(s, Register(pc))) <==> Disciplined(s, Register(pc))
  {
    var s' := Step(s, Register(pc));
    if Disciplined(s, Register(pc)) {
      RegisterKeepsSubs(s, pc);
    } else {
      var i :| 0 <= i < |s.streams| && IsLive(s.streams[i]) && s.streams[i].pc == pc;
      assert s'.streams[i] == s.streams[i] && s'.subs[pc] != i;
    }
  }

  /** Without distinct pc_ids the no-gap guarantee is lost: when an older stream with the
      same pc_id ends, its deferred delete removes the newer one's registration, and the
      newer one misses a whole broadcast with its channel empty. */
  lemma OverlapLosesSubscription(pc: PcId, c: Cookie) returns (es: seq<Event>)
    requires pc != ""
    ensures Run(INIT, es).Some? && !DisciplinedRun(INIT, es)
    ensures
      var s := Run(INIT, es).value;
      && |s.ops| > 0 && s.ops[0].Done? && |s.streams| > 1 && s.streams[1].phase.Forwarding?
      && !IsCovered(s, s.streams[1], 0)
  {
    var before, s0 := Overlap(pc);
    var s: State;
    es, s := OlderEnds(s0, pc);
    var s': State;
    es, s' := BroadcastPassesBy(s0, es, s, 1, c);
    OrphanMisses(s, s', 1);
    RunConcat(INIT, before, es);
    es := before + es;
  }

  /** Of two streams with one pc_id, the older one ends and the newer one goes on. */
  lemma OlderEnds(s0: State, pc: PcId) returns (es: seq<Event>, s: State)
    requires s0 == INIT.(streams := [NewStream(pc, {}), NewStream(pc, {})], subs := map[pc := 1])
    ensures Leads(s0, es, s) && s.fan.None? && IsOrphaned(s, 1) && s.ops == []
    ensures s.streams[1].phase.Forwarding?
  {
    es := Nothing(s0);
    es, s := OneMore(s0, es, s0, TakeSnapshot(0));
    es, s := OneMore(s0, es, s, SendFirst(0, false));
    es, s := OneMore(s0, es, s, Deregister(0));
    assert s.subs == map[] && s.streams[1] == NewStream(pc, {});
    es, s := OneMore(s0, es, s, TakeSnapshot(1));
    es, s := OneMore(s0, es, s, SendFirst(1, true));
  }

  lemma Overlap(pc: PcId) returns (es: seq<Event>, s: State)
    requires pc != ""
    ensures Run(INIT, es) == Some(s) && !DisciplinedRun(INIT, es) && InRange(s)
    ensures s == INIT.(streams := [NewStream(pc, {}), NewStream(pc, {})], subs := map[pc := 1])
  {
    assert DoneOps([]) == {};
    s := INIT;
    es := [];
    es, s := Continue(es, s, Register(pc));
    assert s == INIT.(streams := [NewStream(pc, {})], subs := map[pc := 0]);
    assert !Disciplined(s, Register(pc)) by { assert IsLive(s.streams[0]); }
    es, s := Continue(es, s, Register(pc));
  }
}
