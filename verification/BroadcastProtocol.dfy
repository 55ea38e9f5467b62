/** The broadcast protocol of cluster/controller.go. One event is one critical section
    of j.mu or subMu, one atomic operation on the version, or one operation on a
    subscriber's channel. The loop over the subscribers keeps subMu while it sends. */
module BroadcastProtocol {
  import opened Options
  import opened CookieJar

  type OpId = nat
  type StreamId = nat
  type PcId = string

  const CAPACITY := 32

  /** A GetGlobalCookiesResponse. `prefix` is a history variable: how many batches had
      been applied to the jar when its cookies were read. */
  datatype Response = Response(cookies: Jar, version: nat, prefix: nat)

  /** Where one BroadcastCookie call stands, from the end of its j.mu section on. */
  datatype Phase =
    | Applied                       // between lines 73 and 74
    | Bumped(ver: nat)              // between lines 74 and 157
    | Ready(resp: Response)         // before line 160
    | Fanning(resp: Response)       // in the loop, holding subMu
    | Done(resp: Response)

  datatype StreamPhase =
    | Registered  // after line 209
    | Snapped     // after line 218, the snapshot not yet sent
    | Forwarding  // in the loop
    | Closing     // the loop or the first Send ended, the deferred delete is due
    | Closed

  /** One WatchCookies call. The last three fields are history variables: the calls
      whose response went into the channel, those whose response was dropped with the
      number of responses then pending, and those that were over at registration. */
  datatype Stream = Stream(
    pc: PcId,
    phase: StreamPhase,
    first: Response,
    queue: seq<Response>,
    forwarded: seq<Response>,
    sent: seq<OpId>,
    dropped: map<OpId, nat>,
    missed: set<OpId>)

  /** The loop of lines 161-167: who runs it and which subscribers are still to come. */
  datatype FanOut = FanOut(op: OpId, todo: set<PcId>)

  /** What happened to the jar's entries: a batch was stored, or a call or a stream took
      its snapshot. */
  datatype Mark = Stored | ReadBy(op: OpId) | FirstRead(stream: StreamId)

  /** The last four fields are history variables: the batches in the order of the j.mu
      sections, the calls in the order in which they bumped the version, the calls in the
      order in which they took subMu, and the marks. Call number o is the one that applied
      batch number o. */
  datatype State = State(
    entries: Jar,
    version: nat,
    subs: map<PcId, StreamId>,
    fan: Option<FanOut>,
    ops: seq<Phase>,
    streams: seq<Stream>,
    snapshots: seq<Response>,
    applied: seq<seq<Cookie>>,
    bumps: seq<OpId>,
    locked: seq<OpId>,
    marks: seq<Mark>)

  const INIT := State(map[], 0, map[], None, [], [], [], [], [], [], [])

  datatype Event =
    | Apply(batch: seq<Cookie>)     // lines 69-73
    | Bump(o: OpId)                 // line 74
    | Snap(o: OpId)                 // lines 157-158
    | Lock(o: OpId)                 // line 160
    | Push(pc: PcId)                // lines 162-166
    | Unlock                        // line 168
    | Read                          // lines 188-189
    | Register(pc: PcId)            // lines 204-209
    | TakeSnapshot(i: StreamId)     // line 218
    | SendFirst(i: StreamId, ok: bool)  // line 219
    | Forward(i: StreamId, ok: bool)    // lines 229-232
    | Disconnect(i: StreamId)       // lines 227-228
    | Deregister(i: StreamId)       // lines 212-214

  function Snapshot(s: State): Response {
    Response(s.entries, s.version, |s.applied|)
  }

  predicate HasResponse(p: Phase) {
    p.Ready? || p.Fanning? || p.Done?
  }

  /** The version a call got from Store. */
  function Version(p: Phase): nat
    requires !p.Applied?
  {
    if p.Bumped? then p.ver else p.resp.version
  }

  predicate IsLive(st: Stream) {
    !st.phase.Closed?
  }

  /** What the code allows. An empty batch and an empty pc_id are rejected with no
      effect; a second stream with the same pc_id is not. */
  predicate Enabled(s: State, e: Event) {
    match e
    case Apply(batch) => batch != []
    case Bump(o) => o < |s.ops| && s.ops[o].Applied?
    case Snap(o) => o < |s.ops| && s.ops[o].Bumped?
    case Lock(o) => o < |s.ops| && s.ops[o].Ready? && s.fan.None?
    case Push(pc) => s.fan.Some? && pc in s.fan.value.todo
    case Unlock => s.fan.Some? && s.fan.value.todo == {}
    case Read => true
    case Register(pc) => pc != "" && s.fan.None?
    case TakeSnapshot(i) => i < |s.streams| && s.streams[i].phase.Registered?
    case SendFirst(i, _) => i < |s.streams| && s.streams[i].phase.Snapped?
    case Forward(i, _) => i < |s.streams| && s.streams[i].phase.Forwarding? && s.streams[i].queue != []
    case Disconnect(i) => i < |s.streams| && s.streams[i].phase.Forwarding?
    case Deregister(i) => i < |s.streams| && s.streams[i].phase.Closing? && s.fan.None?
  }

  /** The discipline the code relies on: no two live streams share a pc_id. */
  ghost predicate Disciplined(s: State, e: Event) {
    e.Register? ==> forall i :: 0 <= i < |s.streams| && IsLive(s.streams[i]) ==> s.streams[i].pc != e.pc
  }

  ghost predicate InRange(s: State) {
    && (s.fan.Some? ==>
          && s.fan.value.op < |s.ops| && s.ops[s.fan.value.op].Fanning?
          && s.fan.value.todo <= s.subs.Keys)
    && (forall pc :: pc in s.subs ==> s.subs[pc] < |s.streams|)
  }

  /** The non-blocking send of lines 163-166. */
  function Offered<T>(queue: seq<T>, resp: T): seq<T> {
    if |queue| < CAPACITY then queue + [resp] else queue
  }

  function Offer(st: Stream, o: OpId, resp: Response): Stream {
    if |st.queue| < CAPACITY then st.(queue := Offered(st.queue, resp), sent := st.sent + [o])
    else st.(queue := Offered(st.queue, resp), dropped := st.dropped[o := |st.queue|])
  }

  function NewStream(pc: PcId, over: set<OpId>): Stream {
    Stream(pc, Registered, Response(map[], 0, 0), [], [], [], map[], over)
  }

  function DoneOps(ops: seq<Phase>): set<OpId> {
    set o | 0 <= o < |ops| && ops[o].Done?
  }

  function SetStream(s: State, i: StreamId, st: Stream): State
    requires i < |s.streams|
  {
    s.(streams := s.streams[i := st])
  }

  function SetOp(s: State, o: OpId, p: Phase): State
    requires o < |s.ops|
  {
    s.(ops := s.ops[o := p])
  }

  function Step(s: State, e: Event): State
    requires InRange(s) && Enabled(s, e)
  {
    match e
    case Apply(batch) =>
      s.(entries := StoreAll(s.entries, batch), applied := s.applied + [batch],
         ops := s.ops + [Applied], marks := s.marks + [Stored])
    case Bump(o) =>
      SetOp(s, o, Bumped(s.version + 1)).(version := s.version + 1, bumps := s.bumps + [o])
    case Snap(o) =>
      SetOp(s, o, Ready(Snapshot(s).(version := s.ops[o].ver))).(marks := s.marks + [ReadBy(o)])
    case Lock(o) =>
      SetOp(s, o, Fanning(s.ops[o].resp)).(
        fan := Some(FanOut(o, s.subs.Keys)), locked := s.locked + [o])
    case Push(pc) =>
      var f := s.fan.value;
      var i := s.subs[pc];
      SetStream(s, i, Offer(s.streams[i], f.op, s.ops[f.op].resp)).(fan := Some(f.(todo := f.todo - {pc})))
    case Unlock =>
      var o := s.fan.value.op;
      SetOp(s, o, Done(s.ops[o].resp)).(fan := None)
    case Read => s.(snapshots := s.snapshots + [Snapshot(s)])
    case Register(pc) =>
      s.(streams := s.streams + [NewStream(pc, DoneOps(s.ops))], subs := s.subs[pc := |s.streams|])
    case TakeSnapshot(i) =>
      SetStream(s, i, s.streams[i].(phase := Snapped, first := Snapshot(s))).(marks := s.marks + [FirstRead(i)])
    case SendFirst(i, ok) =>
      SetStream(s, i, s.streams[i].(phase := if ok then Forwarding else Closing))
    case Forward(i, ok) =>
      var st := s.streams[i];
      SetStream(s, i, st.(queue := st.queue[1..], forwarded := st.forwarded + [st.queue[0]],
                          phase := if ok then Forwarding else Closing))
    case Disconnect(i) => SetStream(s, i, s.streams[i].(phase := Closing))
    case Deregister(i) =>
      SetStream(s, i, s.streams[i].(phase := Closed)).(subs := s.subs - {s.streams[i].pc})
  }

  // ---- The invariant ----

  /** A response whose version is a lower bound: its cookies are exactly the first
      `prefix` batches, and at least `version` of them. */
  ghost predicate Faithful(applied: seq<seq<Cookie>>, r: Response) {
    r.version <= r.prefix <= |applied| && r.cookies == Replay(applied[..r.prefix])
  }

  /** The Store calls between their unlock and their Add. */
  function InFlight(ops: seq<Phase>): nat {
    if ops == [] then 0 else InFlight(ops[..|ops| - 1]) + if ops[|ops| - 1].Applied? then 1 else 0
  }

  ghost predicate JarInv(s: State) {
    && s.entries == Replay(s.applied)
    && |s.ops| == |s.applied|
    && s.version + InFlight(s.ops) == |s.applied|
  }

  ghost predicate GotVersion(s: State, o: OpId, v: nat) {
    o < |s.ops| && !s.ops[o].Applied? && Version(s.ops[o]) == v
  }

  ghost predicate IsBumper(s: State, o: OpId, v: nat) {
    1 <= v <= |s.bumps| && s.bumps[v - 1] == o
  }

  /** Versions are handed out once each, from 1 to the current one. */
  ghost predicate VersionInv(s: State) {
    && |s.bumps| == s.version
    && (forall o, v :: GotVersion(s, o, v) ==> IsBumper(s, o, v))
    && (forall o, v :: IsBumper(s, o, v) ==> GotVersion(s, o, v))
  }

  /** A call's response contains the call's own batch. */
  ghost predicate OpsInv(s: State) {
    forall o :: 0 <= o < |s.ops| && HasResponse(s.ops[o]) ==>
      Faithful(s.applied, s.ops[o].resp) && o < s.ops[o].resp.prefix
  }

  ghost predicate ReadsInv(s: State) {
    forall i :: 0 <= i < |s.snapshots| ==> Faithful(s.applied, s.snapshots[i])
  }

  /** The map of subscribers holds exactly the live streams, and while a fan-out runs
      nobody else does. */
  ghost predicate SubsInv(s: State) {
    && InRange(s)
    && (forall pc :: pc in s.subs ==> s.streams[s.subs[pc]].pc == pc && IsLive(s.streams[s.subs[pc]]))
    && (forall i :: 0 <= i < |s.streams| && IsLive(s.streams[i]) ==>
          s.streams[i].pc in s.subs && s.subs[s.streams[i].pc] == i)
    && (forall o :: 0 <= o < |s.ops| && s.ops[o].Fanning? ==> s.fan.Some? && s.fan.value.op == o)
  }

  /** Whether the fan-out of call `o` has been past a live stream. */
  ghost predicate Passed(s: State, o: OpId, st: Stream) {
    && o < |s.ops|
    && (s.ops[o].Done? || (s.fan.Some? && s.fan.value.op == o && st.pc !in s.fan.value.todo))
  }

  /** What went into a channel comes out in order: the responses forwarded and those
      still queued are those of the calls recorded in `sent`. */
  ghost predicate FifoInv(s: State, st: Stream) {
    && |st.queue| <= CAPACITY
    && |st.sent| == |st.forwarded| + |st.queue|
    && (forall j :: 0 <= j < |st.sent| ==>
          st.sent[j] < |s.ops| && HasResponse(s.ops[st.sent[j]])
          && (st.forwarded + st.queue)[j] == s.ops[st.sent[j]].resp)
    && (forall o :: o in st.dropped ==> st.dropped[o] == CAPACITY)
  }

  /** A fan-out that has passed a live stream is accounted for there, exactly once. */
  ghost predicate CoverInv(s: State, st: Stream) {
    && (forall o :: Passed(s, o, st) ==> o in st.missed || o in st.sent || o in st.dropped)
    && (forall o :: o in st.sent || o in st.dropped ==> Passed(s, o, st))
    && (forall j, k :: 0 <= j < k < |st.sent| ==> st.sent[j] != st.sent[k])
    && (forall o :: o in st.sent ==> o !in st.dropped && o !in st.missed)
    && (forall o :: o in st.dropped ==> o !in st.missed)
  }

  /** The calls that were over at registration are in the first snapshot. */
  ghost predicate FirstInv(s: State, st: Stream) {
    && (forall o :: o in st.missed ==> o < |s.ops| && s.ops[o].Done?)
    && Faithful(s.applied, st.first)
    && (!st.phase.Registered? ==>
          forall o :: o in st.missed ==> Version(s.ops[o]) <= st.first.version && o < st.first.prefix)
  }

  ghost predicate StreamsInv(s: State) {
    forall i :: 0 <= i < |s.streams| ==>
      && FifoInv(s, s.streams[i]) && FirstInv(s, s.streams[i])
      && (IsLive(s.streams[i]) ==> CoverInv(s, s.streams[i]))
  }

  ghost predicate Inv(s: State) {
    JarInv(s) && VersionInv(s) && OpsInv(s) && ReadsInv(s) && SubsInv(s) && StreamsInv(s)
  }
}
