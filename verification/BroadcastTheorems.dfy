/** What the broadcast protocol guarantees, and what it does not. */
module BroadcastTheorems {
  import opened Options
  import opened CookieJar
  import opened BroadcastProtocol
  import opened BroadcastInvariant

  // ---- The version is a lower bound on the content ----

  /** Everything a client can get: a GetGlobalCookies response, the first snapshot of a
      stream, or a response pushed to it, whether forwarded already or still queued. */
  ghost predicate IsMessage(s: State, r: Response) {
    || r in s.snapshots
    || (exists i :: 0 <= i < |s.streams| && IsStreamMessage(s.streams[i], r))
  }

  ghost predicate IsStreamMessage(st: Stream, r: Response) {
    r == st.first || r in st.forwarded || r in st.queue
  }

  /** Every message holds exactly the jar after some prefix of the stored batches, and
      that prefix is at least as long as the version the message carries. */
  lemma EveryMessageIsFaithful(s: State, r: Response)
    requires Inv(s) && IsMessage(s, r)
    ensures Faithful(s.applied, r)
  {
    if r !in s.snapshots {
      var i :| 0 <= i < |s.streams| && IsStreamMessage(s.streams[i], r);
      PushedIsFaithful(s, i, r);
    }
  }

  lemma PushedIsFaithful(s: State, i: StreamId, r: Response)
    requires Inv(s) && i < |s.streams| && IsStreamMessage(s.streams[i], r)
    ensures Faithful(s.applied, r)
  {
    var st := s.streams[i];
    assert FifoInv(s, st) && FirstInv(s, st);
    if r != st.first {
      assert r in st.forwarded + st.queue;
      var j :| 0 <= j < |st.forwarded + st.queue| && (st.forwarded + st.queue)[j] == r;
      assert HasResponse(s.ops[st.sent[j]]);
    }
  }

  lemma {:induction false} NoneInFlight(ops: seq<Phase>)
    ensures InFlight(ops) == 0 <==> forall o :: 0 <= o < |ops| ==> !ops[o].Applied?
  {
    if ops != [] {
      var n := |ops| - 1;
      NoneInFlight(ops[..n]);
      assert forall o :: 0 <= o < n ==> ops[..n][o] == ops[o];
    }
  }

  /** A snapshot's version tells exactly which batches it holds if and only if no Store
      call is between its unlock and its Add; otherwise it holds more. */
  lemma SnapshotIsAtomicIff(s: State)
    requires Inv(s)
    ensures Snapshot(s).prefix == Snapshot(s).version + InFlight(s.ops)
    ensures Snapshot(s).version == Snapshot(s).prefix <==>
      forall o :: 0 <= o < |s.ops| ==> !s.ops[o].Applied?
  {
    NoneInFlight(s.ops);
  }

  lemma {:induction false} ReplayHas(history: seq<seq<Cookie>>, k: nat, c: Cookie)
    requires k < |history| && c in history[k]
    ensures c.name in Replay(history)
    decreases |history|
  {
    var n := |history| - 1;
    if k < n {
      ReplayHas(history[..n], k, c);
      StoreAllHas(Replay(history[..n]), history[n], c.name);
    } else {
      StoreAllHas(Replay(history[..n]), history[n], c.name);
    }
  }

  lemma {:induction false} StoreAllHas(jar: Jar, batch: seq<Cookie>, name: string)
    requires name in jar || exists i :: 0 <= i < |batch| && batch[i].name == name
    ensures name in StoreAll(jar, batch)
    decreases |batch|
  {
    if batch != [] {
      StoreAllHas(jar[batch[0].name := batch[0]], batch[1..], name);
    }
  }

  /** A broadcast's own batch is among those that its response is the replay of, so all
      names of the batch are in it. */
  lemma BroadcastIncludesItsOwn(s: State, o: OpId)
    requires Inv(s) && o < |s.ops| && HasResponse(s.ops[o])
    ensures
      var r := s.ops[o].resp;
      && o < r.prefix <= |s.applied| && r.cookies == Replay(s.applied[..r.prefix])
      && forall c :: c in s.applied[o] ==> c.name in r.cookies
  {
    var r := s.ops[o].resp;
    forall c | c in s.applied[o]
      ensures c.name in r.cookies
    {
      ReplayHas(s.applied[..r.prefix], o, c);
    }
  }

  /** No two broadcasts get the same version, and every version up to the current one
      was given to one of them. */
  lemma VersionsAreABijection(s: State, v: nat) returns (o: OpId)
    requires Inv(s) && 1 <= v <= s.version
    ensures GotVersion(s, o, v)
    ensures forall p :: GotVersion(s, p, v) ==> p == o
  {
    o := s.bumps[v - 1];
    assert IsBumper(s, o, v);
    forall p | GotVersion(s, p, v)
      ensures p == o
    {
      assert IsBumper(s, p, v);
    }
  }

  // ---- No gap ----

  ghost predicate InFirst(s: State, st: Stream, o: OpId)
    requires o < |s.ops| && !s.ops[o].Applied?
  {
    Version(s.ops[o]) <= st.first.version && o < st.first.prefix
  }

  ghost predicate Enqueued(s: State, st: Stream, o: OpId)
    requires o < |s.ops| && HasResponse(s.ops[o])
  {
    exists j :: 0 <= j < |st.sent| && st.sent[j] == o && j < |st.forwarded + st.queue|
      && (st.forwarded + st.queue)[j] == s.ops[o].resp
  }

  ghost predicate DroppedWhenFull(st: Stream, o: OpId) {
    o in st.dropped && st.dropped[o] == 32
  }

  ghost predicate IsCovered(s: State, st: Stream, o: OpId)
    requires o < |s.ops| && HasResponse(s.ops[o])
  {
    InFirst(s, st, o) || Enqueued(s, st, o) || DroppedWhenFull(st, o)
  }

  lemma FinishedIsCovered(s: State, i: StreamId, o: OpId)
    requires Inv(s) && i < |s.streams| && o < |s.ops| && s.ops[o].Done?
    requires IsLive(s.streams[i]) && !s.streams[i].phase.Registered?
    ensures IsCovered(s, s.streams[i], o)
  {
    var st := s.streams[i];
    assert FifoInv(s, st) && CoverInv(s, st) && FirstInv(s, st);
    assert Passed(s, o, st);
    if o in st.sent {
      var j :| 0 <= j < |st.sent| && st.sent[j] == o;
      assert (st.forwarded + st.queue)[j] == s.ops[o].resp;
    }
  }

  /** In every run whose live streams have distinct pc_ids, a broadcast whose fan-out is
      over is, for every live stream past its snapshot, in the snapshot, or went into the
      channel, or was dropped with exactly 32 responses pending; and it went into the
      channel at most once. */
  lemma NoGap(es: seq<Event>, i: StreamId, o: OpId)
    requires Run(INIT, es).Some? && DisciplinedRun(INIT, es)
    requires i < |Run(INIT, es).value.streams| && o < |Run(INIT, es).value.ops| && Run(INIT, es).value.ops[o].Done?
    requires IsLive(Run(INIT, es).value.streams[i]) && !Run(INIT, es).value.streams[i].phase.Registered?
    ensures
      var s := Run(INIT, es).value;
      var st := s.streams[i];
      && IsCovered(s, st, o)
      && (forall j, k :: 0 <= j < k < |st.sent| ==> st.sent[j] != st.sent[k])
  {
    RunInv(es);
    FinishedIsCovered(Run(INIT, es).value, i, o);
  }

  /** A push is dropped exactly when 32 responses are pending. */
  lemma DropIffFull(s: State, pc: PcId)
    requires Inv(s) && Enabled(s, Push(pc))
    ensures
      var i, o := s.subs[pc], s.fan.value.op;
      var st, st' := s.streams[i], Step(s, Push(pc)).streams[i];
      && (o in st'.dropped <==> |st.queue| == 32)
      && (o in st'.sent <==> |st.queue| < 32)
  {
    var i, o := s.subs[pc], s.fan.value.op;
    assert CoverInv(s, s.streams[i]) && FifoInv(s, s.streams[i]);
    assert !Passed(s, o, s.streams[i]);
  }

  /** Every push to the stream finds fewer than 32 responses pending. */
  ghost predicate AlwaysRoom(s: State, es: seq<Event>, i: StreamId)
    requires Run(s, es).Some?
    decreases |es|
  {
    es != [] ==>
      && (es[0].Push? && s.subs[es[0].pc] == i ==> i < |s.streams| && |s.streams[i].queue| < 32)
      && AlwaysRoom(Step(s, es[0]), es[1..], i)
  }

  lemma OtherStepDropsNothing(s: State, e: Event, i: StreamId)
    requires InRange(s) && Enabled(s, e) && i < |s.streams|
    requires e.Push? ==> s.subs[e.pc] != i
    ensures i < |Step(s, e).streams| && Step(s, e).streams[i].dropped == s.streams[i].dropped
  {
  }

  lemma PushOnlyAdds(s: State, pc: PcId)
    requires InRange(s) && Enabled(s, Push(pc))
    ensures Step(s, Push(pc)).streams[s.subs[pc]].dropped.Keys >= s.streams[s.subs[pc]].dropped.Keys
  {
  }

  /** Over any disciplined run, a stream loses no response if and only if there is room at
      every push. */
  lemma {:induction false} LosesNothingIff(s: State, es: seq<Event>, i: StreamId)
    requires Inv(s) && Run(s, es).Some? && DisciplinedRun(s, es) && i < |s.streams|
    ensures i < |Run(s, es).value.streams|
    ensures Run(s, es).value.streams[i].dropped == map[] <==>
      s.streams[i].dropped == map[] && AlwaysRoom(s, es, i)
    decreases |es|
  {
    if es != [] {
      if es[0].Push? && s.subs[es[0].pc] == i {
        DropIffFull(s, es[0].pc);
        PushOnlyAdds(s, es[0].pc);
        assert CoverInv(s, s.streams[i]) && FifoInv(s, s.streams[i]);
      } else {
        OtherStepDropsNothing(s, es[0], i);
      }
      StepKeepsInv(s, es[0]);
      LosesNothingIff(Step(s, es[0]), es[1..], i);
    }
  }

  // ---- Convergence ----

  /** All broadcasts are over and the stream's channel is drained. */
  ghost predicate Drained(s: State, i: StreamId) {
    && i < |s.streams| && s.streams[i].phase.Forwarding?
    && s.streams[i].queue == []
    && (forall o :: 0 <= o < |s.ops| ==> s.ops[o].Done?)
  }

  /** And the push with the highest version was not dropped. */
  ghost predicate Settled(s: State, i: StreamId) {
    && Drained(s, i)
    && (forall o :: o in s.streams[i].dropped && o < |s.ops| ==> Version(s.ops[o]) != |s.ops|)
  }

  /** What the client of a stream got: the snapshot and then the pushes. */
  function Received(st: Stream): seq<Response> {
    [st.first] + st.forwarded
  }

  lemma SettledVersion(s: State)
    requires Inv(s) && forall o :: 0 <= o < |s.ops| ==> s.ops[o].Done?
    ensures s.version == |s.applied| == |s.ops|
  {
    NoneInFlight(s.ops);
  }

  lemma ReceivedVersionIsBounded(s: State, i: StreamId, r: Response)
    requires Inv(s) && i < |s.streams| && r in Received(s.streams[i])
    ensures r.version <= |s.ops|
  {
    PushedIsFaithful(s, i, r);
  }

  /** A covered broadcast that was not dropped has reached the client, if the channel is
      drained, with its own version or a higher one. */
  lemma CoveredArrives(s: State, st: Stream, o: OpId) returns (k: nat)
    requires o < |s.ops| && HasResponse(s.ops[o]) && st.queue == []
    requires InFirst(s, st, o) || Enqueued(s, st, o)
    ensures k < |Received(st)| && Version(s.ops[o]) <= Received(st)[k].version
  {
    if InFirst(s, st, o) {
      k := 0;
    } else {
      var j :| 0 <= j < |st.sent| && st.sent[j] == o && j < |st.forwarded + st.queue|
        && (st.forwarded + st.queue)[j] == s.ops[o].resp;
      assert st.forwarded + st.queue == st.forwarded;
      k := j + 1;
    }
  }

  /** Convergence: whatever order the fan-outs ran in, the client has got a message with
      version N, the number of broadcasts, and no higher one. */
  lemma HighestVersionArrives(s: State, i: StreamId) returns (k: nat)
    requires Inv(s) && Settled(s, i) && |s.ops| > 0
    ensures k < |Received(s.streams[i])| && Received(s.streams[i])[k].version == |s.ops|
    ensures forall r :: r in Received(s.streams[i]) ==> r.version <= |s.ops|
  {
    SettledVersion(s);
    var o := VersionsAreABijection(s, |s.ops|);
    FinishedIsCovered(s, i, o);
    k := CoveredArrives(s, s.streams[i], o);
    forall r | r in Received(s.streams[i])
      ensures r.version <= |s.ops|
    {
      ReceivedVersionIsBounded(s, i, r);
    }
  }

  /** And any message with that version, whoever got it, holds exactly the final jar. */
  lemma HighestVersionIsFinal(s: State, r: Response)
    requires Inv(s) && (forall o :: 0 <= o < |s.ops| ==> s.ops[o].Done?)
    requires IsMessage(s, r) && r.version == |s.ops|
    ensures r.cookies == s.entries
  {
    SettledVersion(s);
    EveryMessageIsFaithful(s, r);
    assert s.applied[..|s.applied|] == s.applied;
  }

  // ---- What does not hold ----

  /** The state after `es`, one event on. */
  lemma Continue(es: seq<Event>, s: State, e: Event) returns (es': seq<Event>, s': State)
    requires Run(INIT, es) == Some(s) && InRange(s) && Enabled(s, e)
    ensures Run(INIT, es') == Some(s') && InRange(s') && s' == Step(s, e)
    ensures DisciplinedRun(INIT, es') <==> DisciplinedRun(INIT, es) && Disciplined(s, e)
  {
    RunOne(s, e);
    RunConcat(INIT, es, [e]);
    StepKeepsRange(s, e);
    es', s' := es + [e], Step(s, e);
  }

  /** A GetGlobalCookies response can hold a cookie whose version it does not carry yet. */
  lemma SnapshotCanRunAhead(c: Cookie) returns (es: seq<Event>)
    ensures Run(INIT, es).Some? && DisciplinedRun(INIT, es)
    ensures Run(INIT, es).value.snapshots == [Response(map[c.name := c], 0, 1)]
  {
    var s := INIT;
    es := [];
    es, s := Continue(es, s, Apply([c]));
    assert s.entries == StoreAll(map[], [c]) == map[c.name := c] by { StoreOne(map[], c); }
    es, s := Continue(es, s, Read);
  }

  lemma StoreOne(jar: Jar, c: Cookie)
    ensures StoreAll(jar, [c]) == jar[c.name := c]
  {
    assert [c][1..] == [];
    assert StoreAll(jar[c.name := c], []) == jar[c.name := c];
  }

  /** One call stores one cookie and takes its snapshot, with nothing in between. */
  lemma StoreAndSnap(es0: seq<Event>, s0: State, c: Cookie) returns (es: seq<Event>, s: State)
    requires Run(INIT, es0) == Some(s0) && InRange(s0)
    ensures Run(INIT, es) == Some(s) && InRange(s) && (DisciplinedRun(INIT, es) <==> DisciplinedRun(INIT, es0))
    ensures s.entries == s0.entries[c.name := c]
    ensures s.ops == s0.ops + [Ready(Response(s.entries, s0.version + 1, |s0.applied| + 1))]
    ensures s.version == s0.version + 1 && |s.applied| == |s0.applied| + 1
    ensures s.streams == s0.streams && s.subs == s0.subs && s.fan == s0.fan
  {
    var o := |s0.ops|;
    var s1 := ApplyOne(s0, c);
    var s2 := BumpLast(s0.ops, s1);
    SnapLast(s0.ops, s2);
    es, s := Continue(es0, s0, Apply([c]));
    es, s := Continue(es, s1, Bump(o));
    es, s := Continue(es, s2, Snap(o));
  }

  lemma ApplyOne(s0: State, c: Cookie) returns (s: State)
    requires InRange(s0)
    ensures s == Step(s0, Apply([c]))
    ensures InRange(s) && s.entries == s0.entries[c.name := c] && s.ops == s0.ops + [Phase.Applied]
    ensures s.version == s0.version && |s.applied| == |s0.applied| + 1
    ensures s.streams == s0.streams && s.subs == s0.subs && s.fan == s0.fan
  {
    s := Step(s0, Apply([c]));
    StoreOne(s0.entries, c);
  }

  lemma BumpLast(ops: seq<Phase>, s0: State) returns (s: State)
    requires InRange(s0) && s0.ops == ops + [Phase.Applied]
    ensures s == Step(s0, Bump(|ops|))
    ensures InRange(s) && s.ops == ops + [Bumped(s0.version + 1)] && s.version == s0.version + 1
    ensures s.entries == s0.entries && s.applied == s0.applied
    ensures s.streams == s0.streams && s.subs == s0.subs && s.fan == s0.fan
  {
    LastOp(ops, Phase.Applied, Bumped(s0.version + 1));
    s := Step(s0, Bump(|ops|));
  }

  lemma SnapLast(ops: seq<Phase>, s0: State)
    requires InRange(s0) && s0.version > 0 && s0.ops == ops + [Bumped(s0.version)]
    ensures
      var s := Step(s0, Snap(|ops|));
      && s.ops == ops + [Ready(Snapshot(s0))]
      && s.entries == s0.entries && s.applied == s0.applied && s.version == s0.version
      && s.streams == s0.streams && s.subs == s0.subs && s.fan == s0.fan
  {
    LastOp(ops, Bumped(s0.version), Ready(Snapshot(s0)));
  }

  lemma LastOp(ops: seq<Phase>, p: Phase, q: Phase)
    ensures (ops + [p])[|ops| := q] == ops + [q]
  {
  }

  lemma OpenStream(pc: PcId) returns (es: seq<Event>, s: State)
    requires pc != ""
    ensures Run(INIT, es) == Some(s) && DisciplinedRun(INIT, es) && InRange(s)
    ensures s == INIT.(subs := map[pc := 0], streams := [NewStream(pc, {}).(phase := Forwarding)],
                       marks := [FirstRead(0)])
  {
    var st := NewStream(pc, {});
    assert DoneOps([]) == {};
    s := INIT;
    es := [];
    es, s := Continue(es, s, Register(pc));
    assert s == INIT.(subs := map[pc := 0], streams := [st]);
    es, s := Continue(es, s, TakeSnapshot(0));
    assert s == INIT.(subs := map[pc := 0], streams := [st.(phase := Snapped)], marks := [FirstRead(0)]);
    es, s := Continue(es, s, SendFirst(0, true));
  }

  /** One fan-out to a single subscriber whose channel has room. */
  lemma FanOutOnce(es0: seq<Event>, s0: State, pc: PcId, o: OpId) returns (es: seq<Event>, s: State)
    requires Run(INIT, es0) == Some(s0) && DisciplinedRun(INIT, es0) && InRange(s0)
    requires o < |s0.ops| && s0.ops[o].Ready? && s0.fan == None && s0.subs == map[pc := 0]
    requires |s0.streams| == 1 && |s0.streams[0].queue| < CAPACITY
    ensures Run(INIT, es) == Some(s) && DisciplinedRun(INIT, es) && InRange(s)
    ensures s.ops == s0.ops[o := Done(s0.ops[o].resp)] && s.fan == None
    ensures s.subs == s0.subs && s.entries == s0.entries
    ensures s.streams == [Offer(s0.streams[0], o, s0.ops[o].resp)]
  {
    es, s := Continue(es0, s0, Lock(o));
    es, s := Continue(es, s, Push(pc));
    assert s.fan.value.todo == {};
    es, s := Continue(es, s, Unlock);
  }

  /** Versions and contents need not be monotone in delivery order: fan-outs can overtake
      each other, and the last push a stream gets can be a jar that is out of date. */
  lemma LastPushCanBeStale(pc: PcId, before: Cookie, after: Cookie) returns (es: seq<Event>)
    requires pc != "" && before.name == after.name && before != after
    ensures Run(INIT, es).Some? && DisciplinedRun(INIT, es)
    ensures
      var s := Run(INIT, es).value;
      && (forall o :: 0 <= o < |s.ops| ==> s.ops[o].Done?) && |s.streams| == 1
      && s.streams[0].queue == [Response(map[before.name := after], 2, 2), Response(map[before.name := before], 1, 1)]
      && s.entries != s.streams[0].queue[1].cookies
  {
    var s: State;
    var r1, r2 := Response(map[before.name := before], 1, 1), Response(map[before.name := after], 2, 2);
    es, s := OpenStream(pc);
    es, s := StoreAndSnap(es, s, before);
    es, s := StoreAndSnap(es, s, after);
    assert s.entries == map[before.name := after];
    assert s.ops == [Ready(r1), Ready(r2)];
    es, s := FanOutOnce(es, s, pc, 1);
    assert s.streams[0].queue == [r2] && s.ops == [Ready(r1), Done(r2)];
    es, s := FanOutOnce(es, s, pc, 0);
    assert s.ops == [Done(r1), Done(r2)];
    assert s.entries[before.name] == after && r1.cookies[before.name] == before;
  }
}
