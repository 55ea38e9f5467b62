/** In which order the jar is stored and read, and subMu taken: an invariant of the
    histories of a run. */
module BroadcastOrder {
  import opened BroadcastProtocol
  import opened BroadcastInvariant

  ghost predicate Precedes(calls: seq<OpId>, a: OpId, b: OpId) {
    exists p, q :: 0 <= p < q < |calls| && calls[p] == a && calls[q] == b
  }

  ghost predicate Distinct(calls: seq<OpId>) {
    forall p, q :: 0 <= p < q < |calls| ==> calls[p] != calls[q]
  }

  lemma PrecedesIsAsymmetric(calls: seq<OpId>, a: OpId, b: OpId)
    requires Distinct(calls) && Precedes(calls, a, b)
    ensures a != b && !Precedes(calls, b, a)
  {
  }

  // ---- The invariant of the histories ----

  /** How many batches were stored. */
  function StoredIn(marks: seq<Mark>): nat {
    if marks == [] then 0 else StoredIn(marks[..|marks| - 1]) + if marks[|marks| - 1].Stored? then 1 else 0
  }

  lemma StoredInAppend(marks: seq<Mark>, m: Mark)
    ensures StoredIn(marks + [m]) == StoredIn(marks) + if m.Stored? then 1 else 0
  {
    assert (marks + [m])[..|marks|] == marks;
  }

  /** A call read the jar at position `p` of the history, after as many stores as the
      prefix of its response says. */
  ghost predicate ReadAt(s: State, o: OpId, p: nat) {
    && p < |s.marks| && s.marks[p] == ReadBy(o) && o < |s.ops| && HasResponse(s.ops[o])
    && s.ops[o].resp.prefix == StoredIn(s.marks[..p])
  }

  /** The same for the snapshot that a stream starts with. */
  ghost predicate FirstReadAt(s: State, i: StreamId, p: nat) {
    && p < |s.marks| && s.marks[p] == FirstRead(i) && i < |s.streams| && !s.streams[i].phase.Registered?
    && s.streams[i].first.prefix == StoredIn(s.marks[..p])
  }

  ghost predicate MarksInv(s: State) {
    && StoredIn(s.marks) == |s.applied|
    && (forall p :: 0 <= p < |s.marks| && s.marks[p].ReadBy? ==> ReadAt(s, s.marks[p].op, p))
    && (forall o :: 0 <= o < |s.ops| && HasResponse(s.ops[o]) ==> ReadBy(o) in s.marks)
  }

  ghost predicate FirstReadsInv(s: State) {
    && (forall p :: 0 <= p < |s.marks| && s.marks[p].FirstRead? ==> FirstReadAt(s, s.marks[p].stream, p))
    && (forall i :: 0 <= i < |s.streams| && !s.streams[i].phase.Registered? ==> FirstRead(i) in s.marks)
  }

  ghost predicate TookSubMu(s: State, o: OpId) {
    o < |s.ops| && (s.ops[o].Fanning? || s.ops[o].Done?)
  }

  ghost predicate LockedInv(s: State) {
    && Distinct(s.locked)
    && (forall o: OpId :: o in s.locked <==> TookSubMu(s, o))
    && (s.fan.Some? ==> s.locked != [] && s.locked[|s.locked| - 1] == s.fan.value.op)
  }

  /** What is in a channel came in the order in which the fan-outs took subMu. */
  ghost predicate SentInOrder(s: State, st: Stream) {
    && (forall j :: 0 <= j < |st.sent| ==> st.sent[j] in s.locked)
    && (forall j, k :: 0 <= j < k < |st.sent| ==> Precedes(s.locked, st.sent[j], st.sent[k]))
  }

  ghost predicate OrderInv(s: State) {
    && MarksInv(s) && FirstReadsInv(s) && LockedInv(s)
    && (forall i :: 0 <= i < |s.streams| ==> SentInOrder(s, s.streams[i]))
  }

  lemma ReadAtStays(s: State, s': State, o: OpId, p: nat)
    requires ReadAt(s, o, p) && Extends(s, s') && s.marks <= s'.marks
    ensures ReadAt(s', o, p)
  {
    assert s'.marks[..p] == s.marks[..p];
  }

  lemma StepExtendsMarks(s: State, e: Event)
    requires InRange(s) && Enabled(s, e)
    ensures s.marks <= Step(s, e).marks && s.locked <= Step(s, e).locked
  {
  }

  lemma StepCountsStores(s: State, e: Event)
    requires InRange(s) && Enabled(s, e) && StoredIn(s.marks) == |s.applied|
    ensures StoredIn(Step(s, e).marks) == |Step(s, e).applied|
  {
    if e.Apply? {
      StoredInAppend(s.marks, Stored);
    } else if e.Snap? {
      StoredInAppend(s.marks, ReadBy(e.o));
    } else if e.TakeSnapshot? {
      StoredInAppend(s.marks, FirstRead(e.i));
    }
  }

  /** The one read a step can add. */
  lemma SnapIsRead(s: State, o: OpId)
    requires Inv(s) && Enabled(s, Snap(o)) && StoredIn(s.marks) == |s.applied|
    ensures ReadAt(Step(s, Snap(o)), o, |s.marks|)
  {
    assert (s.marks + [ReadBy(o)])[..|s.marks|] == s.marks;
  }

  lemma NewMark(s: State, e: Event, p: nat)
    requires InRange(s) && Enabled(s, e) && |s.marks| <= p < |Step(s, e).marks|
    ensures p == |s.marks| && (e.Apply? || e.Snap? || e.TakeSnapshot?)
    ensures Step(s, e).marks[p] == if e.Apply? then Stored else if e.Snap? then ReadBy(e.o) else FirstRead(e.i)
  {
  }

  lemma NewResponse(s: State, e: Event, o: OpId)
    requires InRange(s) && Enabled(s, e) && o < |Step(s, e).ops| && HasResponse(Step(s, e).ops[o])
    ensures (o < |s.ops| && HasResponse(s.ops[o])) || (e == Snap(o) && ReadBy(o) in Step(s, e).marks)
  {
  }

  lemma StepKeepsMarks(s: State, e: Event)
    requires Inv(s) && MarksInv(s) && Enabled(s, e)
    ensures MarksInv(Step(s, e))
  {
    var s' := Step(s, e);
    StepExtends(s, e);
    StepExtendsMarks(s, e);
    StepCountsStores(s, e);
    forall p | 0 <= p < |s'.marks| && s'.marks[p].ReadBy?
      ensures ReadAt(s', s'.marks[p].op, p)
    {
      if p < |s.marks| {
        ReadAtStays(s, s', s.marks[p].op, p);
      } else {
        NewMark(s, e, p);
        SnapIsRead(s, e.o);
      }
    }
    forall o | 0 <= o < |s'.ops| && HasResponse(s'.ops[o])
      ensures ReadBy(o) in s'.marks
    {
      NewResponse(s, e, o);
    }
  }

  /** Once taken, a stream's first snapshot stays. */
  lemma FirstStaysTaken(s: State, e: Event, i: StreamId)
    requires InRange(s) && Enabled(s, e) && i < |s.streams| && !s.streams[i].phase.Registered?
    ensures
      var s' := Step(s, e);
      i < |s'.streams| && !s'.streams[i].phase.Registered? && s'.streams[i].first == s.streams[i].first
  {
  }

  lemma NewFirst(s: State, e: Event, i: StreamId)
    requires InRange(s) && Enabled(s, e) && i < |Step(s, e).streams| && !Step(s, e).streams[i].phase.Registered?
    ensures i < |s.streams|
    ensures s.streams[i].phase.Registered? ==> e == TakeSnapshot(i) && FirstRead(i) in Step(s, e).marks
  {
  }

  lemma SnapshotIsFirstRead(s: State, i: StreamId)
    requires InRange(s) && Enabled(s, TakeSnapshot(i)) && StoredIn(s.marks) == |s.applied|
    ensures FirstReadAt(Step(s, TakeSnapshot(i)), i, |s.marks|)
  {
    assert (s.marks + [FirstRead(i)])[..|s.marks|] == s.marks;
  }

  lemma StepKeepsFirstReads(s: State, e: Event)
    requires InRange(s) && MarksInv(s) && FirstReadsInv(s) && Enabled(s, e)
    ensures FirstReadsInv(Step(s, e))
  {
    var s' := Step(s, e);
    StepExtendsMarks(s, e);
    forall p | 0 <= p < |s'.marks| && s'.marks[p].FirstRead?
      ensures FirstReadAt(s', s'.marks[p].stream, p)
    {
      if p < |s.marks| {
        FirstStaysTaken(s, e, s.marks[p].stream);
        assert s'.marks[..p] == s.marks[..p];
      } else {
        NewMark(s, e, p);
        SnapshotIsFirstRead(s, e.i);
      }
    }
    forall i | 0 <= i < |s'.streams| && !s'.streams[i].phase.Registered?
      ensures FirstRead(i) in s'.marks
    {
      NewFirst(s, e, i);
    }
  }

  lemma LockKeepsLocked(s: State, o: OpId)
    requires Inv(s) && LockedInv(s) && Enabled(s, Lock(o))
    ensures LockedInv(Step(s, Lock(o)))
  {
    assert o !in s.locked;
  }

  lemma OtherStepKeepsLocked(s: State, e: Event)
    requires Inv(s) && LockedInv(s) && Enabled(s, e) && !e.Lock?
    ensures LockedInv(Step(s, e))
  {
    var s' := Step(s, e);
    OtherStepLocksNothing(s, e);
    forall o: OpId
      ensures o in s'.locked <==> TookSubMu(s', o)
    {
      OtherStepTakesNothing(s, e, o);
    }
  }

  lemma OtherStepLocksNothing(s: State, e: Event)
    requires InRange(s) && Enabled(s, e) && !e.Lock?
    ensures
      var s' := Step(s, e);
      s'.locked == s.locked && (s'.fan.Some? ==> s.fan.Some? && s'.fan.value.op == s.fan.value.op)
  {
  }

  lemma OtherStepTakesNothing(s: State, e: Event, o: OpId)
    requires InRange(s) && Enabled(s, e) && !e.Lock?
    ensures TookSubMu(Step(s, e), o) <==> TookSubMu(s, o)
  {
  }

  lemma PrecedesStays(calls: seq<OpId>, more: seq<OpId>, a: OpId, b: OpId)
    requires Precedes(calls, a, b) && calls <= more
    ensures Precedes(more, a, b)
  {
    var p, q :| 0 <= p < q < |calls| && calls[p] == a && calls[q] == b;
    assert more[p] == a && more[q] == b;
  }

  lemma SentStaysInOrder(s: State, s': State, st: Stream, st': Stream)
    requires SentInOrder(s, st) && s.locked <= s'.locked && st'.sent == st.sent
    ensures SentInOrder(s', st')
  {
    forall j, k | 0 <= j < k < |st.sent|
      ensures Precedes(s'.locked, st.sent[j], st.sent[k])
    {
      PrecedesStays(s.locked, s'.locked, st.sent[j], st.sent[k]);
    }
  }

  /** The running fan-out was the last to take subMu, so what it sends comes last. */
  lemma OfferKeepsOrder(s: State, st: Stream, o: OpId, resp: Response)
    requires SentInOrder(s, st) && o !in st.sent
    requires s.locked != [] && s.locked[|s.locked| - 1] == o
    ensures SentInOrder(s, Offer(st, o, resp))
  {
    var st' := Offer(st, o, resp);
    forall j, k | 0 <= j < k < |st'.sent|
      ensures Precedes(s.locked, st'.sent[j], st'.sent[k])
    {
      if k == |st.sent| {
        assert st.sent[j] in s.locked;
        var p :| 0 <= p < |s.locked| && s.locked[p] == st.sent[j];
        assert p < |s.locked| - 1;
      }
    }
  }

  /** What a step makes of a stream as far as `sent` is concerned. */
  lemma StepSends(s: State, e: Event, i: StreamId)
    requires InRange(s) && Enabled(s, e) && i < |Step(s, e).streams|
    ensures
      var s' := Step(s, e);
      if i == |s.streams| then s'.streams[i].sent == []
      else if e.Push? && s.subs[e.pc] == i then
        s'.streams[i] == Offer(s.streams[i], s.fan.value.op, s.ops[s.fan.value.op].resp)
      else i < |s.streams| && s'.streams[i].sent == s.streams[i].sent
  {
  }

  lemma PushIsNew(s: State, pc: PcId)
    requires Inv(s) && Enabled(s, Push(pc))
    ensures s.fan.value.op !in s.streams[s.subs[pc]].sent
  {
    assert CoverInv(s, s.streams[s.subs[pc]]);
    assert !Passed(s, s.fan.value.op, s.streams[s.subs[pc]]);
  }

  lemma PushKeepsSentOrder(s: State, pc: PcId, i: StreamId, o: OpId, resp: Response)
    requires pc in s.subs && s.subs[pc] == i && i < |s.streams| && s.fan.Some? && s.fan.value.op == o
    requires Inv(s) && OrderInv(s) && Enabled(s, Push(pc))
    ensures SentInOrder(s, Offer(s.streams[i], o, resp))
  {
    PushIsNew(s, pc);
    OfferKeepsOrder(s, s.streams[i], o, resp);
  }

  lemma StepKeepsSentOrder(s: State, e: Event, i: StreamId)
    requires Inv(s) && OrderInv(s) && Enabled(s, e) && i < |Step(s, e).streams|
    ensures SentInOrder(Step(s, e), Step(s, e).streams[i])
  {
    var s' := Step(s, e);
    var st' := s'.streams[i];
    StepExtendsMarks(s, e);
    StepSends(s, e, i);
    if i < |s.streams| {
      if e.Push? && s.subs[e.pc] == i {
        PushKeepsSentOrder(s, e.pc, i, s.fan.value.op, s.ops[s.fan.value.op].resp);
        SentStaysInOrder(s, s', st', st');
      } else {
        SentStaysInOrder(s, s', s.streams[i], st');
      }
    }
  }

  lemma StepKeepsOrder(s: State, e: Event)
    requires Inv(s) && OrderInv(s) && Enabled(s, e)
    ensures OrderInv(Step(s, e))
  {
    StepKeepsMarks(s, e);
    StepKeepsFirstReads(s, e);
    if e.Lock? {
      LockKeepsLocked(s, e.o);
    } else {
      OtherStepKeepsLocked(s, e);
    }
    forall i | 0 <= i < |Step(s, e).streams|
      ensures SentInOrder(Step(s, e), Step(s, e).streams[i])
    {
      StepKeepsSentOrder(s, e, i);
    }
  }

  lemma {:induction false} RunKeepsOrder(s: State, es: seq<Event>)
    requires Inv(s) && OrderInv(s) && Run(s, es).Some? && DisciplinedRun(s, es)
    ensures Inv(Run(s, es).value) && OrderInv(Run(s, es).value)
    decreases |es|
  {
    if es != [] {
      StepKeepsInv(s, es[0]);
      StepKeepsOrder(s, es[0]);
      RunKeepsOrder(Step(s, es[0]), es[1..]);
    }
  }

  lemma RunOrder(es: seq<Event>)
    requires Run(INIT, es).Some? && DisciplinedRun(INIT, es)
    ensures Inv(Run(INIT, es).value) && OrderInv(Run(INIT, es).value)
  {
    InitInv();
    assert INIT.locked == [] && INIT.marks == [] && INIT.streams == [] && INIT.ops == [];
    RunKeepsOrder(INIT, es);
  }
}
