/** In which order a client gets versions and contents, and when the last push is up to
    date: conditions on the order in which calls bump the version, take their snapshots and
    take subMu. */
module BroadcastDelivery {
  import opened BroadcastProtocol
  import opened BroadcastInvariant
  import opened BroadcastTheorems
  import opened BroadcastOrder

  // ---- The order of versions ----

  /** The pushes to a stream, forwarded or still queued. */
  function Pushes(st: Stream): seq<Response> {
    st.forwarded + st.queue
  }

  ghost predicate InVersionOrder(rs: seq<Response>) {
    forall j, k :: 0 <= j < k < |rs| ==> rs[j].version < rs[k].version
  }

  /** Of the calls in `calls`, any that took subMu before another also bumped before it. */
  ghost predicate LockedAsBumped(s: State, calls: seq<OpId>) {
    forall a, b :: a in calls && b in calls && Precedes(s.locked, a, b) ==> Precedes(s.bumps, a, b)
  }

  lemma BumpOrderIsVersionOrder(s: State, a: OpId, b: OpId)
    requires Inv(s) && a < |s.ops| && b < |s.ops| && HasResponse(s.ops[a]) && HasResponse(s.ops[b])
    ensures Precedes(s.bumps, a, b) <==> s.ops[a].resp.version < s.ops[b].resp.version
  {
    var v, w := s.ops[a].resp.version, s.ops[b].resp.version;
    assert GotVersion(s, a, v) && GotVersion(s, b, w);
    assert IsBumper(s, a, v) && IsBumper(s, b, w);
    if p, q :| 0 <= p < q < |s.bumps| && s.bumps[p] == a && s.bumps[q] == b {
      assert IsBumper(s, a, p + 1) && IsBumper(s, b, q + 1);
      assert GotVersion(s, a, p + 1) && GotVersion(s, b, q + 1);
    }
    if v < w {
      assert s.bumps[v - 1] == a && s.bumps[w - 1] == b;
    }
  }

  /** The push at position `j`, and the call it came from. */
  lemma PushIs(s: State, i: StreamId, j: nat)
    requires Inv(s) && i < |s.streams| && j < |Pushes(s.streams[i])|
    ensures |Pushes(s.streams[i])| == |s.streams[i].sent|
    ensures
      var o := s.streams[i].sent[j];
      o < |s.ops| && HasResponse(s.ops[o]) && Pushes(s.streams[i])[j] == s.ops[o].resp
  {
    assert FifoInv(s, s.streams[i]);
  }

  lemma SentPosition(s: State, st: Stream, n: nat, a: OpId, b: OpId) returns (j: nat, k: nat)
    requires LockedInv(s) && SentInOrder(s, st) && n <= |st.sent|
    requires a in st.sent[..n] && b in st.sent[..n] && Precedes(s.locked, a, b)
    ensures j < k < n && st.sent[j] == a && st.sent[k] == b
  {
    j :| 0 <= j < n && st.sent[j] == a;
    k :| 0 <= k < n && st.sent[k] == b;
    PrecedesIsAsymmetric(s.locked, a, b);
    assert k < j ==> Precedes(s.locked, b, a);
  }

  // ---- Snapshots that a store has made out of date ----

  /** Each response holds at least the batches of those before it. */
  ghost predicate InContentOrder(rs: seq<Response>) {
    forall j, k :: 0 <= j < k < |rs| ==> rs[j].prefix <= rs[k].prefix
  }

  /** A batch was stored after the read `x` of the jar and before the read `y`. */
  ghost predicate StoredBetween(marks: seq<Mark>, x: Mark, y: Mark) {
    exists p, r :: 0 <= p < r < |marks| && marks[p] == x && marks[r] == y && StoredWithin(marks, p, r)
  }

  ghost predicate StoredWithin(marks: seq<Mark>, p: nat, r: nat) {
    exists q :: p <= q < r && q < |marks| && marks[q] == Stored
  }

  /** Of the calls in `calls`, none took subMu before another whose snapshot a store had
      already made out of date when its own was taken. */
  ghost predicate LockedAsRead(s: State, calls: seq<OpId>) {
    forall a, b :: a in calls && b in calls && Precedes(s.locked, a, b) ==>
      !StoredBetween(s.marks, ReadBy(b), ReadBy(a))
  }

  lemma {:induction false} StoresGrow(marks: seq<Mark>, p: nat, r: nat)
    requires p <= r <= |marks|
    ensures StoredIn(marks[..p]) <= StoredIn(marks[..r])
    ensures StoredIn(marks[..p]) < StoredIn(marks[..r]) <==> StoredWithin(marks, p, r)
    decreases r
  {
    if p < r {
      StoresGrow(marks, p, r - 1);
      assert marks[..r] == marks[..r - 1] + [marks[r - 1]];
      StoredInAppend(marks[..r - 1], marks[r - 1]);
    }
  }

  /** Every read `x` comes after `n` stores. */
  ghost predicate ReadsAfter(marks: seq<Mark>, x: Mark, n: nat) {
    x in marks && forall p :: 0 <= p < |marks| && marks[p] == x ==> StoredIn(marks[..p]) == n
  }

  lemma StoredBetweenIff(marks: seq<Mark>, x: Mark, y: Mark, m: nat, n: nat)
    requires ReadsAfter(marks, x, m) && ReadsAfter(marks, y, n)
    ensures StoredBetween(marks, x, y) <==> m < n
  {
    if StoredBetween(marks, x, y) {
      var p, r :| 0 <= p < r < |marks| && marks[p] == x && marks[r] == y && StoredWithin(marks, p, r);
      StoresGrow(marks, p, r);
    } else {
      var p :| 0 <= p < |marks| && marks[p] == x;
      var r :| 0 <= r < |marks| && marks[r] == y;
      StoresGrow(marks, if p <= r then p else r, if p <= r then r else p);
    }
  }

  lemma CallReadsAfter(s: State, o: OpId)
    requires MarksInv(s) && o < |s.ops| && HasResponse(s.ops[o])
    ensures ReadsAfter(s.marks, ReadBy(o), s.ops[o].resp.prefix)
  {
    forall p | 0 <= p < |s.marks| && s.marks[p] == ReadBy(o)
      ensures StoredIn(s.marks[..p]) == s.ops[o].resp.prefix
    {
      assert ReadAt(s, o, p);
    }
  }

  lemma StreamReadsAfter(s: State, i: StreamId)
    requires FirstReadsInv(s) && i < |s.streams| && !s.streams[i].phase.Registered?
    ensures ReadsAfter(s.marks, FirstRead(i), s.streams[i].first.prefix)
  {
    forall p | 0 <= p < |s.marks| && s.marks[p] == FirstRead(i)
      ensures StoredIn(s.marks[..p]) == s.streams[i].first.prefix
    {
      assert FirstReadAt(s, i, p);
    }
  }

  // ---- Pushes in order ----

  lemma PushOrder(s: State, i: StreamId, j: nat, k: nat)
    requires Inv(s) && OrderInv(s) && i < |s.streams| && j < k < |Pushes(s.streams[i])|
    ensures |Pushes(s.streams[i])| == |s.streams[i].sent|
    ensures
      var a, b := s.streams[i].sent[j], s.streams[i].sent[k];
      var r, q := Pushes(s.streams[i])[j], Pushes(s.streams[i])[k];
      && Precedes(s.locked, a, b)
      && (Precedes(s.bumps, a, b) <==> r.version < q.version)
      && (StoredBetween(s.marks, ReadBy(b), ReadBy(a)) <==> q.prefix < r.prefix)
  {
    var st := s.streams[i];
    PushIs(s, i, j);
    PushIs(s, i, k);
    assert SentInOrder(s, st);
    BumpOrderIsVersionOrder(s, st.sent[j], st.sent[k]);
    CallReadsAfter(s, st.sent[j]);
    CallReadsAfter(s, st.sent[k]);
    StoredBetweenIff(s.marks, ReadBy(st.sent[k]), ReadBy(st.sent[j]),
                     Pushes(st)[k].prefix, Pushes(st)[j].prefix);
  }

  /** The first `n` pushes to a stream come with rising versions if and only if their
      fan-outs took subMu in the order in which they had bumped the version. */
  lemma VersionOrderIff(s: State, i: StreamId, n: nat)
    requires Inv(s) && OrderInv(s) && i < |s.streams| && n <= |Pushes(s.streams[i])| == |s.streams[i].sent|
    ensures InVersionOrder(Pushes(s.streams[i])[..n]) <==> LockedAsBumped(s, s.streams[i].sent[..n])
  {
    var st := s.streams[i];
    if LockedAsBumped(s, st.sent[..n]) {
      forall j, k | 0 <= j < k < n
        ensures Pushes(st)[j].version < Pushes(st)[k].version
      {
        PushOrder(s, i, j, k);
        assert st.sent[j] in st.sent[..n] && st.sent[k] in st.sent[..n];
      }
    }
    if InVersionOrder(Pushes(st)[..n]) {
      forall a, b | a in st.sent[..n] && b in st.sent[..n] && Precedes(s.locked, a, b)
        ensures Precedes(s.bumps, a, b)
      {
        var j, k := SentPosition(s, st, n, a, b);
        PushOrder(s, i, j, k);
        assert Pushes(st)[..n][j].version < Pushes(st)[..n][k].version;
      }
    }
  }

  /** They come with growing contents if and only if none of their fan-outs took subMu
      ahead of one with an older snapshot. */
  lemma ContentOrderIff(s: State, i: StreamId, n: nat)
    requires Inv(s) && OrderInv(s) && i < |s.streams| && n <= |Pushes(s.streams[i])| == |s.streams[i].sent|
    ensures InContentOrder(Pushes(s.streams[i])[..n]) <==> LockedAsRead(s, s.streams[i].sent[..n])
  {
    var st := s.streams[i];
    if LockedAsRead(s, st.sent[..n]) {
      forall j, k | 0 <= j < k < n
        ensures Pushes(st)[j].prefix <= Pushes(st)[k].prefix
      {
        PushOrder(s, i, j, k);
        assert st.sent[j] in st.sent[..n] && st.sent[k] in st.sent[..n];
      }
    }
    if InContentOrder(Pushes(st)[..n]) {
      forall a, b | a in st.sent[..n] && b in st.sent[..n] && Precedes(s.locked, a, b)
        ensures !StoredBetween(s.marks, ReadBy(b), ReadBy(a))
      {
        var j, k := SentPosition(s, st, n, a, b);
        PushOrder(s, i, j, k);
        assert Pushes(st)[..n][j].prefix <= Pushes(st)[..n][k].prefix;
      }
    }
  }

  lemma AllPushes(s: State, i: StreamId)
    requires Inv(s) && i < |s.streams|
    ensures
      var st := s.streams[i];
      && |Pushes(st)| == |st.sent| && |st.forwarded| <= |st.sent| && Pushes(st)[..|st.forwarded|] == st.forwarded
      && Pushes(st)[..|st.sent|] == Pushes(st) && st.sent[..|st.sent|] == st.sent
  {
    assert FifoInv(s, s.streams[i]);
  }

  /** Over every run whose live streams have distinct pc_ids: the pushes to a stream come
      with rising versions if and only if the fan-outs that reached it took subMu in the
      order in which they had bumped the version. */
  lemma PushesInVersionOrderIff(es: seq<Event>, i: StreamId)
    requires Run(INIT, es).Some? && DisciplinedRun(INIT, es) && i < |Run(INIT, es).value.streams|
    ensures
      var s := Run(INIT, es).value;
      InVersionOrder(Pushes(s.streams[i])) <==> LockedAsBumped(s, s.streams[i].sent)
  {
    RunOrder(es);
    var s := Run(INIT, es).value;
    AllPushes(s, i);
    VersionOrderIff(s, i, |s.streams[i].sent|);
  }

  /** And with growing contents if and only if none of them took subMu ahead of one with
      an older snapshot. */
  lemma PushesInContentOrderIff(es: seq<Event>, i: StreamId)
    requires Run(INIT, es).Some? && DisciplinedRun(INIT, es) && i < |Run(INIT, es).value.streams|
    ensures
      var s := Run(INIT, es).value;
      InContentOrder(Pushes(s.streams[i])) <==> LockedAsRead(s, s.streams[i].sent)
  {
    RunOrder(es);
    var s := Run(INIT, es).value;
    AllPushes(s, i);
    ContentOrderIff(s, i, |s.streams[i].sent|);
  }

  // ---- All that the client gets, the first snapshot included ----

  /** Versions never fall. */
  ghost predicate NeverFalls(rs: seq<Response>) {
    forall j, k :: 0 <= j < k < |rs| ==> rs[j].version <= rs[k].version
  }

  /** The calls whose pushes the client has got. */
  function Delivered(st: Stream): seq<OpId>
    requires |st.forwarded| <= |st.sent|
  {
    st.sent[..|st.forwarded|]
  }

  /** Call `o` had bumped, and then another one, when the stream took its first snapshot,
      whose version is the number of bumps so far. */
  ghost predicate BumpedBefore(s: State, st: Stream, o: OpId) {
    exists p :: 0 <= p < |s.bumps| && p + 1 < st.first.version && s.bumps[p] == o
  }

  lemma BumpedBeforeIff(s: State, st: Stream, o: OpId)
    requires Inv(s) && o < |s.ops| && HasResponse(s.ops[o])
    ensures BumpedBefore(s, st, o) <==> s.ops[o].resp.version < st.first.version
  {
    var v := s.ops[o].resp.version;
    assert GotVersion(s, o, v);
    assert IsBumper(s, o, v);
    assert s.bumps[v - 1] == o;
    if p :| 0 <= p < |s.bumps| && p + 1 < st.first.version && s.bumps[p] == o {
      assert IsBumper(s, o, p + 1);
      assert GotVersion(s, o, p + 1);
    }
  }

  lemma SameVersionSameCall(s: State, a: OpId, b: OpId)
    requires VersionInv(s) && a < |s.ops| && b < |s.ops| && HasResponse(s.ops[a]) && HasResponse(s.ops[b])
    requires s.ops[a].resp.version == s.ops[b].resp.version
    ensures a == b
  {
    assert GotVersion(s, a, s.ops[a].resp.version) && GotVersion(s, b, s.ops[b].resp.version);
  }

  lemma CallsDiffer(s: State, st: Stream, j: nat, k: nat)
    requires LockedInv(s) && SentInOrder(s, st) && j < k < |st.sent|
    ensures st.sent[j] != st.sent[k]
  {
    PrecedesIsAsymmetric(s.locked, st.sent[j], st.sent[k]);
  }

  /** Two pushes to one stream never carry the same version. */
  lemma VersionsDiffer(s: State, i: StreamId, j: nat, k: nat)
    requires Inv(s) && OrderInv(s) && i < |s.streams| && j < k < |Pushes(s.streams[i])|
    ensures Pushes(s.streams[i])[j].version != Pushes(s.streams[i])[k].version
  {
    var st := s.streams[i];
    PushIs(s, i, j);
    PushIs(s, i, k);
    CallsDiffer(s, st, j, k);
    if Pushes(st)[j].version == Pushes(st)[k].version {
      SameVersionSameCall(s, st.sent[j], st.sent[k]);
    }
  }

  lemma NeverFallsFrom(r: Response, rs: seq<Response>)
    ensures NeverFalls([r] + rs) <==> NeverFalls(rs) && forall j :: 0 <= j < |rs| ==> r.version <= rs[j].version
  {
    var all := [r] + rs;
    assert forall j :: 0 <= j < |rs| ==> all[j + 1] == rs[j];
    if NeverFalls(all) {
      forall j, k | 0 <= j < k < |rs|
        ensures rs[j].version <= rs[k].version
      {
        assert all[j + 1].version <= all[k + 1].version;
      }
      forall j | 0 <= j < |rs|
        ensures r.version <= rs[j].version
      {
        assert all[0].version <= all[j + 1].version;
      }
    }
  }

  /** For pushes, not falling is rising. */
  lemma NeverFallsIff(s: State, i: StreamId)
    requires Inv(s) && OrderInv(s) && i < |s.streams|
    ensures NeverFalls(s.streams[i].forwarded) <==> InVersionOrder(s.streams[i].forwarded)
  {
    var st := s.streams[i];
    forall j, k | 0 <= j < k < |st.forwarded|
      ensures st.forwarded[j].version != st.forwarded[k].version
    {
      assert Pushes(st)[j] == st.forwarded[j] && Pushes(st)[k] == st.forwarded[k];
      VersionsDiffer(s, i, j, k);
    }
  }

  /** The first snapshot against the pushes that the client has got. */
  lemma FirstVersionAgainstPushes(s: State, i: StreamId)
    requires Inv(s) && i < |s.streams| && |s.streams[i].forwarded| <= |s.streams[i].sent|
    ensures
      var st := s.streams[i];
      (forall j :: 0 <= j < |st.forwarded| ==> st.first.version <= st.forwarded[j].version) <==>
        forall o :: o in Delivered(st) ==> !BumpedBefore(s, st, o)
  {
    var st := s.streams[i];
    forall j | 0 <= j < |st.forwarded|
      ensures st.first.version <= st.forwarded[j].version <==> !BumpedBefore(s, st, Delivered(st)[j])
    {
      assert Pushes(st)[j] == st.forwarded[j];
      PushIs(s, i, j);
      BumpedBeforeIff(s, st, st.sent[j]);
    }
    assert forall j :: 0 <= j < |st.forwarded| ==> Delivered(st)[j] in Delivered(st);
  }

  lemma FirstContentAgainstPushes(s: State, i: StreamId)
    requires Inv(s) && MarksInv(s) && FirstReadsInv(s) && i < |s.streams| && !s.streams[i].phase.Registered?
    requires |s.streams[i].forwarded| <= |s.streams[i].sent|
    ensures
      var st := s.streams[i];
      (forall j :: 0 <= j < |st.forwarded| ==> st.first.prefix <= st.forwarded[j].prefix) <==>
        forall o :: o in Delivered(st) ==> !StoredBetween(s.marks, ReadBy(o), FirstRead(i))
  {
    var st := s.streams[i];
    StreamReadsAfter(s, i);
    forall j | 0 <= j < |st.forwarded|
      ensures st.first.prefix <= st.forwarded[j].prefix <==>
        !StoredBetween(s.marks, ReadBy(Delivered(st)[j]), FirstRead(i))
    {
      assert Pushes(st)[j] == st.forwarded[j];
      PushIs(s, i, j);
      CallReadsAfter(s, st.sent[j]);
      StoredBetweenIff(s.marks, ReadBy(st.sent[j]), FirstRead(i), st.forwarded[j].prefix, st.first.prefix);
    }
    assert forall j :: 0 <= j < |st.forwarded| ==> Delivered(st)[j] in Delivered(st);
  }

  lemma ReceivedVersionOrder(s: State, i: StreamId)
    requires Inv(s) && OrderInv(s) && i < |s.streams| && !s.streams[i].phase.Registered?
    requires |s.streams[i].forwarded| <= |s.streams[i].sent|
    ensures
      var st := s.streams[i];
      NeverFalls(Received(st)) <==>
        LockedAsBumped(s, Delivered(st)) && forall o :: o in Delivered(st) ==> !BumpedBefore(s, st, o)
  {
    var st := s.streams[i];
    AllPushes(s, i);
    NeverFallsFrom(st.first, st.forwarded);
    NeverFallsIff(s, i);
    VersionOrderIff(s, i, |st.forwarded|);
    FirstVersionAgainstPushes(s, i);
  }

  /** Over every such run: the versions a client gets never fall if and only if the
      fan-outs that reached it took subMu as they had bumped, and none of them had bumped
      before the last bump that its first snapshot saw. */
  lemma ReceivedInVersionOrderIff(es: seq<Event>, i: StreamId)
    requires Run(INIT, es).Some? && DisciplinedRun(INIT, es) && i < |Run(INIT, es).value.streams|
    requires !Run(INIT, es).value.streams[i].phase.Registered?
    ensures
      var s := Run(INIT, es).value;
      var st := s.streams[i];
      && |st.forwarded| <= |st.sent|
      && (NeverFalls(Received(st)) <==>
            LockedAsBumped(s, Delivered(st)) && forall o :: o in Delivered(st) ==> !BumpedBefore(s, st, o))
  {
    RunOrder(es);
    var s := Run(INIT, es).value;
    AllPushes(s, i);
    ReceivedVersionOrder(s, i);
  }

  lemma ContentsGrowIff(st: Stream)
    ensures InContentOrder(Received(st)) <==>
      InContentOrder(st.forwarded) && forall j :: 0 <= j < |st.forwarded| ==> st.first.prefix <= st.forwarded[j].prefix
  {
    assert forall j :: 0 <= j < |st.forwarded| ==> Received(st)[j + 1] == st.forwarded[j];
    if InContentOrder(Received(st)) {
      forall j, k | 0 <= j < k < |st.forwarded|
        ensures st.forwarded[j].prefix <= st.forwarded[k].prefix
      {
        assert Received(st)[j + 1].prefix <= Received(st)[k + 1].prefix;
      }
      forall j | 0 <= j < |st.forwarded|
        ensures st.first.prefix <= st.forwarded[j].prefix
      {
        assert Received(st)[0].prefix <= Received(st)[j + 1].prefix;
      }
    }
  }

  /** And the contents a client gets only grow if and only if none of the fan-outs that
      reached it took subMu ahead of one with an older snapshot, and none of their
      snapshots was out of date when the stream took its first. */
  lemma ReceivedInContentOrderIff(es: seq<Event>, i: StreamId)
    requires Run(INIT, es).Some? && DisciplinedRun(INIT, es) && i < |Run(INIT, es).value.streams|
    requires !Run(INIT, es).value.streams[i].phase.Registered?
    ensures
      var s := Run(INIT, es).value;
      var st := s.streams[i];
      && |st.forwarded| <= |st.sent|
      && (InContentOrder(Received(st)) <==>
            && LockedAsRead(s, Delivered(st))
            && forall o :: o in Delivered(st) ==> !StoredBetween(s.marks, ReadBy(o), FirstRead(i)))
  {
    RunOrder(es);
    var s := Run(INIT, es).value;
    AllPushes(s, i);
    ContentsGrowIff(s.streams[i]);
    ContentOrderIff(s, i, |s.streams[i].forwarded|);
    FirstContentAgainstPushes(s, i);
  }

  // ---- The last push ----

  /** A call has the highest version if and only if it bumped last. */
  lemma LastBumpIsHighest(s: State, o: OpId)
    requires Inv(s) && o < |s.ops| && HasResponse(s.ops[o])
    ensures 0 < |s.bumps| == s.version
    ensures s.ops[o].resp.version == s.version <==> o == s.bumps[|s.bumps| - 1]
  {
    assert GotVersion(s, o, s.ops[o].resp.version);
    assert IsBumper(s, o, s.ops[o].resp.version);
    if o == s.bumps[|s.bumps| - 1] {
      assert IsBumper(s, o, |s.bumps|);
      assert GotVersion(s, o, |s.bumps|);
    }
  }

  lemma ForwardedIs(s: State, st: Stream, j: nat)
    requires FifoInv(s, st) && j < |st.forwarded|
    ensures j < |st.sent| && st.sent[j] < |s.ops| && HasResponse(s.ops[st.sent[j]])
    ensures st.forwarded[j] == s.ops[st.sent[j]].resp
  {
    assert (st.forwarded + st.queue)[j] == st.forwarded[j];
  }

  /** When everything is over, a push that a client got, such as the last one, has the
      highest version if and only if it came from the call that bumped last; and then it is
      the final jar. */
  lemma PushIsNewestIff(s: State, i: StreamId, j: nat)
    requires Inv(s) && Drained(s, i) && j < |s.streams[i].forwarded|
    ensures |s.streams[i].sent| == |s.streams[i].forwarded| && |s.bumps| > 0
    ensures s.streams[i].forwarded[j].version == |s.ops| <==> s.streams[i].sent[j] == s.bumps[|s.bumps| - 1]
    ensures s.streams[i].forwarded[j].version == |s.ops| ==> s.streams[i].forwarded[j].cookies == s.entries
  {
    var st := s.streams[i];
    assert FifoInv(s, st);
    ForwardedIs(s, st, j);
    SettledVersion(s);
    LastBumpIsHighest(s, st.sent[j]);
    if st.forwarded[j].version == |s.ops| {
      assert IsStreamMessage(st, st.forwarded[j]);
      HighestVersionIsFinal(s, st.forwarded[j]);
    }
  }

  /** A push of the highest version comes from the call that bumped last. */
  lemma HighestPushIsLast(s: State, i: StreamId, j: nat)
    requires Inv(s) && Drained(s, i) && j < |s.streams[i].forwarded|
    requires s.streams[i].forwarded[j].version == |s.ops|
    ensures |s.bumps| > 0 && s.bumps[|s.bumps| - 1] !in s.streams[i].dropped
  {
    PushIsNewestIff(s, i, j);
    assert CoverInv(s, s.streams[i]);
    assert s.streams[i].sent[j] in s.streams[i].sent;
  }

  /** The client has got a message of version `v`. */
  ghost predicate HasGot(st: Stream, v: nat) {
    st.first.version == v || exists j :: 0 <= j < |st.forwarded| && st.forwarded[j].version == v
  }

  lemma HasGotIff(st: Stream, v: nat)
    ensures HasGot(st, v) <==> exists k :: 0 <= k < |Received(st)| && Received(st)[k].version == v
  {
    assert Received(st)[0] == st.first;
    assert forall j :: 0 <= j < |st.forwarded| ==> Received(st)[j + 1] == st.forwarded[j];
  }

  lemma UndroppedArrives(s: State, i: StreamId, o: OpId)
    requires Inv(s) && Drained(s, i) && o < |s.ops| && o !in s.streams[i].dropped
    requires Version(s.ops[o]) == |s.ops|
    ensures HasGot(s.streams[i], |s.ops|)
  {
    FinishedIsCovered(s, i, o);
    var k := CoveredArrives(s, s.streams[i], o);
    ReceivedVersionIsBounded(s, i, Received(s.streams[i])[k]);
    HasGotIff(s.streams[i], |s.ops|);
  }

  /** When everything is over, the client has got a message of the highest version if and
      only if the push of the call that bumped last was not dropped, or its first snapshot
      has that version already. */
  lemma HighestVersionArrivesIff(s: State, i: StreamId)
    requires Inv(s) && Drained(s, i) && |s.ops| > 0
    ensures |s.bumps| > 0
    ensures
      var st := s.streams[i];
      HasGot(st, |s.ops|) <==> s.bumps[|s.bumps| - 1] !in st.dropped || st.first.version == |s.ops|
  {
    LastBumper(s);
    var st, o := s.streams[i], s.bumps[|s.bumps| - 1];
    if o !in st.dropped {
      UndroppedArrives(s, i, o);
    }
    if j :| 0 <= j < |st.forwarded| && st.forwarded[j].version == |s.ops| {
      HighestPushIsLast(s, i, j);
    }
  }

  lemma LastBumper(s: State)
    requires Inv(s) && |s.ops| > 0 && forall o :: 0 <= o < |s.ops| ==> s.ops[o].Done?
    ensures |s.bumps| > 0
    ensures s.bumps[|s.bumps| - 1] < |s.ops| && Version(s.ops[s.bumps[|s.bumps| - 1]]) == |s.ops|
  {
    SettledVersion(s);
    assert IsBumper(s, s.bumps[|s.bumps| - 1], |s.bumps|);
    assert GotVersion(s, s.bumps[|s.bumps| - 1], |s.bumps|);
  }
}
