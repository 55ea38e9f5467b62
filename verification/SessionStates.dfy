/** The session state API of token/heartbeat.go: stores, extractions and claims by
    compare-and-swap, interleaved at every load and every store of the sync.Map. */
module SessionStates {
  import opened Options
  import opened CookieMerge
  import opened ResponseTokens

  type SessionId = int
  type Ref = nat  // a *SessionState

  /** A SessionState. It is never changed once a pointer to it is in the map. */
  datatype SessionState = SessionState(id: SessionId, token: string, cookies: Cookies, available: bool)

  datatype Phase =
    | Loaded(ref: Ref)                            // ClaimSession, before the CompareAndSwap
    | Won
    | Lost
    | Extracting(base: SessionState, resp: Response)  // ExtractFromResponse, before SetState
    | Extracted

  datatype Call = Call(id: SessionId, phase: Phase)

  /** A history of the stores: whether the stored state was available and whether it
      took the place of one that was; and of the claims that won. */
  datatype Entry =
    | Install(id: SessionId, available: bool, replacedAvailable: bool)
    | Claim(id: SessionId)

  datatype State = State(
    objects: seq<SessionState>,
    current: map<SessionId, Ref>,
    calls: seq<Call>,
    log: seq<Entry>)

  const INIT := State([], map[], [], [])

  datatype Event =
    | SetNew(id: SessionId, state: SessionState)       // SetState with a new pointer
    | SetAgain(id: SessionId, ref: Ref)                // SetState with a pointer used before
    | LoadForClaim(id: SessionId)                      // lines 139-146
    | Swap(c: nat)                                     // lines 148-152
    | LoadForExtract(id: SessionId, resp: Response)    // lines 167-183
    | StoreExtract(c: nat)                             // lines 186-205

  predicate Enabled(s: State, e: Event) {
    match e
    case SetNew(_, _) => true
    case SetAgain(_, ref) => ref < |s.objects|
    case LoadForClaim(_) => true
    case Swap(c) => c < |s.calls| && s.calls[c].phase.Loaded?
    case LoadForExtract(_, _) => true
    case StoreExtract(c) => c < |s.calls| && s.calls[c].phase.Extracting?
  }

  ghost predicate InRange(s: State) {
    && (forall id :: id in s.current ==> s.current[id] < |s.objects|)
    && (forall c :: 0 <= c < |s.calls| && s.calls[c].phase.Loaded? ==>
          s.calls[c].phase.ref < |s.objects| && s.objects[s.calls[c].phase.ref].available)
  }

  /** GetState, as a value. */
  function Current(s: State, id: SessionId): Option<SessionState> {
    if id in s.current && s.current[id] < |s.objects| then Some(s.objects[s.current[id]]) else None
  }

  predicate IsAvailable(s: State, id: SessionId) {
    Current(s, id).Some? && Current(s, id).value.available
  }

  function StartingPoint(existing: Option<SessionState>, id: SessionId): SessionState {
    match existing
    case Some(state) => state
    case None => SessionState(id, "", [], false)
  }

  /** Lines 186-203. */
  function Updated(base: SessionState, resp: Response): SessionState {
    base.(cookies := Merge(base.cookies, resp.cookies),
          available := true,
          token := if TokenOf(resp).Some? then TokenOf(resp).value else base.token)
  }

  function Put(s: State, id: SessionId, ref: Ref, available: bool): State {
    s.(current := s.current[id := ref], log := s.log + [Install(id, available, IsAvailable(s, id))])
  }

  function Move(s: State, c: nat, p: Phase): State
    requires c < |s.calls|
  {
    s.(calls := s.calls[c := s.calls[c].(phase := p)])
  }

  function Step(s: State, e: Event): State
    requires InRange(s) && Enabled(s, e)
  {
    match e
    case SetNew(id, state) =>
      Put(s, id, |s.objects|, state.available).(objects := s.objects + [state])
    case SetAgain(id, ref) => Put(s, id, ref, s.objects[ref].available)
    case LoadForClaim(id) =>
      s.(calls := s.calls + [Call(id, if IsAvailable(s, id) then Loaded(s.current[id]) else Lost)])
    case Swap(c) =>
      var id, loaded := s.calls[c].id, s.calls[c].phase.ref;
      if id in s.current && s.current[id] == loaded then
        Move(s, c, Won).(
          objects := s.objects + [s.objects[loaded].(available := false)],
          current := s.current[id := |s.objects|],
          log := s.log + [Claim(id)])
      else Move(s, c, Lost)
    case LoadForExtract(id, resp) =>
      if resp.cookies == [] then s
      else s.(calls := s.calls + [Call(id, Extracting(StartingPoint(Current(s, id), id), resp))])
    case StoreExtract(c) =>
      var id := s.calls[c].id;
      var state := Updated(s.calls[c].phase.base, s.calls[c].phase.resp);
      Put(Move(s, c, Extracted), id, |s.objects|, true).(objects := s.objects + [state])
  }

  // ---- Counting the history ----

  datatype Quantity = Installs | Replaced | Claims

  function Weight(q: Quantity, id: SessionId, e: Entry): nat {
    match q
    case Installs => if e.Install? && e.id == id && e.available then 1 else 0
    case Replaced => if e.Install? && e.id == id && e.replacedAvailable then 1 else 0
    case Claims => if e.Claim? && e.id == id then 1 else 0
  }

  function Count(q: Quantity, id: SessionId, log: seq<Entry>): nat {
    if log == [] then 0 else Count(q, id, log[..|log| - 1]) + Weight(q, id, log[|log| - 1])
  }

  lemma CountAppend(q: Quantity, id: SessionId, log: seq<Entry>, e: Entry)
    ensures Count(q, id, log + [e]) == Count(q, id, log) + Weight(q, id, e)
  {
    assert (log + [e])[..|log|] == log;
  }

  /** Conservation: every available state that was installed has been claimed, or been
      replaced while available, or is available now; and never two of these. */
  ghost predicate Conserved(s: State, id: SessionId) {
    Count(Installs, id, s.log)
      == Count(Claims, id, s.log) + Count(Replaced, id, s.log) + if IsAvailable(s, id) then 1 else 0
  }

  ghost predicate Inv(s: State) {
    InRange(s) && forall id :: Conserved(s, id)
  }

  lemma StepKeepsRange(s: State, e: Event)
    requires InRange(s) && Enabled(s, e)
    ensures InRange(Step(s, e))
  {
  }

  /** What a step adds to the history, if anything. */
  function Logged(s: State, e: Event): Option<Entry>
    requires InRange(s) && Enabled(s, e)
  {
    match e
    case SetNew(id, state) => Some(Install(id, state.available, IsAvailable(s, id)))
    case SetAgain(id, ref) => Some(Install(id, s.objects[ref].available, IsAvailable(s, id)))
    case Swap(c) =>
      var id := s.calls[c].id;
      if id in s.current && s.current[id] == s.calls[c].phase.ref then Some(Claim(id)) else None
    case StoreExtract(c) => Some(Install(s.calls[c].id, true, IsAvailable(s, s.calls[c].id)))
    case _ => None
  }

  function WeightOf(q: Quantity, id: SessionId, e: Option<Entry>): nat {
    if e.Some? then Weight(q, id, e.value) else 0
  }

  lemma StepCounts(s: State, e: Event, q: Quantity, id: SessionId)
    requires InRange(s) && Enabled(s, e)
    ensures Count(q, id, Step(s, e).log) == Count(q, id, s.log) + WeightOf(q, id, Logged(s, e))
  {
    var l := Logged(s, e);
    assert Step(s, e).log == if l.Some? then s.log + [l.value] else s.log;
    if l.Some? {
      CountAppend(q, id, s.log, l.value);
    }
  }

  /** How a step changes the availability of a session. */
  lemma StepAvailability(s: State, e: Event, id: SessionId)
    requires InRange(s) && Enabled(s, e)
    ensures
      match Logged(s, e)
      case Some(Install(i, a, r)) => if i == id then IsAvailable(Step(s, e), id) == a && IsAvailable(s, id) == r
                                     else IsAvailable(Step(s, e), id) == IsAvailable(s, id)
      case Some(Claim(i)) => if i == id then !IsAvailable(Step(s, e), id) && IsAvailable(s, id)
                             else IsAvailable(Step(s, e), id) == IsAvailable(s, id)
      case None => IsAvailable(Step(s, e), id) == IsAvailable(s, id)
  {
  }

  lemma StepConserves(s: State, e: Event, id: SessionId)
    requires InRange(s) && Conserved(s, id) && Enabled(s, e)
    ensures Conserved(Step(s, e), id)
  {
    StepCounts(s, e, Installs, id);
    StepCounts(s, e, Replaced, id);
    StepCounts(s, e, Claims, id);
    StepAvailability(s, e, id);
  }

  lemma StepKeepsInv(s: State, e: Event)
    requires Inv(s) && Enabled(s, e)
    ensures Inv(Step(s, e))
  {
    StepKeepsRange(s, e);
    forall id
      ensures Conserved(Step(s, e), id)
    {
      StepConserves(s, e, id);
    }
  }

  ghost function Run(s: State, es: seq<Event>): Option<State>
    decreases |es|
  {
    if es == [] then Some(s)
    else if InRange(s) && Enabled(s, es[0]) then Run(Step(s, es[0]), es[1..])
    else None
  }

  lemma {:induction false} RunKeepsInv(s: State, es: seq<Event>)
    requires Inv(s) && Run(s, es).Some?
    ensures Inv(Run(s, es).value)
    decreases |es|
  {
    if es != [] {
      StepKeepsInv(s, es[0]);
      RunKeepsInv(Step(s, es[0]), es[1..]);
    }
  }

  /** In every interleaving, the claims of a session that succeeded, plus one if it is
      available now, are no more than the available states installed for it. */
  lemma ClaimsNeverExceedInstalls(es: seq<Event>, id: SessionId)
    requires Run(INIT, es).Some?
    ensures
      var s := Run(INIT, es).value;
      Count(Claims, id, s.log) + (if IsAvailable(s, id) then 1 else 0) <= Count(Installs, id, s.log)
  {
    RunKeepsInv(INIT, es);
    assert Conserved(Run(INIT, es).value, id);
  }

  /** Whether the event stores a state for the session. */
  predicate StoresFor(s: State, e: Event, id: SessionId) {
    || ((e.SetNew? || e.SetAgain?) && e.id == id)
    || (e.StoreExtract? && e.c < |s.calls| && s.calls[e.c].id == id)
  }

  ghost predicate NoStoreFor(s: State, es: seq<Event>, id: SessionId)
    requires Run(s, es).Some?
    decreases |es|
  {
    es != [] ==> !StoresFor(s, es[0], id) && NoStoreFor(Step(s, es[0]), es[1..], id)
  }

  /** Concurrent claimers have at most one winner per install. */
  lemma {:induction false} AtMostOneWinner(s: State, es: seq<Event>, id: SessionId)
    requires InRange(s) && Run(s, es).Some? && NoStoreFor(s, es, id)
    ensures
      var s' := Run(s, es).value;
      var winners := Count(Claims, id, s'.log) - Count(Claims, id, s.log);
      && 0 <= winners <= 1
      && (winners == 1 ==> IsAvailable(s, id) && !IsAvailable(s', id))
      && (winners == 0 ==> IsAvailable(s, id) == IsAvailable(s', id))
    decreases |es|
  {
    if es != [] {
      var s1 := Step(s, es[0]);
      StepKeepsRange(s, es[0]);
      AtMostOneWinner(s1, es[1..], id);
      StepCounts(s, es[0], Claims, id);
      StepAvailability(s, es[0], id);
    }
  }

  /** A claim wins exactly when the pointer it loaded is still the one in the map, and
      then the session was available until that moment and is not afterwards; nothing
      else about its state changes. */
  lemma SwapWinsIff(s: State, c: nat)
    requires InRange(s) && Enabled(s, Swap(c))
    ensures
      var id, ref := s.calls[c].id, s.calls[c].phase.ref;
      var s' := Step(s, Swap(c));
      && (s'.calls[c].phase.Won? <==> id in s.current && s.current[id] == ref)
      && (s'.calls[c].phase.Won? ==>
            && IsAvailable(s, id)
            && Current(s', id) == Some(Current(s, id).value.(available := false)))
      && (!s'.calls[c].phase.Won? ==> s'.current == s.current)
  {
  }

  // ---- Cookies over runs ----

  ghost predicate AllUnique(s: State) {
    && (forall r :: 0 <= r < |s.objects| ==> UniqueNames(s.objects[r].cookies))
    && (forall c :: 0 <= c < |s.calls| && s.calls[c].phase.Extracting? ==>
          UniqueNames(s.calls[c].phase.base.cookies))
  }

  /** No session ever has two cookies of the same name, overlapping extractions
      included, as long as SetState is not given such a state. */
  lemma StepKeepsUnique(s: State, e: Event)
    requires InRange(s) && Enabled(s, e) && AllUnique(s)
    requires e.SetNew? ==> UniqueNames(e.state.cookies)
    ensures AllUnique(Step(s, e))
  {
    if e.StoreExtract? {
      MergeKeepsUnique(s.calls[e.c].phase.base.cookies, s.calls[e.c].phase.resp.cookies);
    }
  }

  ghost predicate SetsUniqueStates(es: seq<Event>) {
    forall i :: 0 <= i < |es| && es[i].SetNew? ==> UniqueNames(es[i].state.cookies)
  }

  lemma {:induction false} RunKeepsUnique(s: State, es: seq<Event>)
    requires Inv(s) && AllUnique(s) && Run(s, es).Some? && SetsUniqueStates(es)
    ensures AllUnique(Run(s, es).value)
    decreases |es|
  {
    if es != [] {
      StepKeepsInv(s, es[0]);
      StepKeepsUnique(s, es[0]);
      assert SetsUniqueStates(es[1..]);
      RunKeepsUnique(Step(s, es[0]), es[1..]);
    }
  }

  // ---- What happens between a load and its store ----

  /** Whether the event changes what the map has for the session. */
  predicate Logs(s: State, e: Event, id: SessionId)
    requires InRange(s) && Enabled(s, e)
  {
    Logged(s, e).Some? && Logged(s, e).value.id == id
  }

  ghost predicate Undisturbed(s: State, es: seq<Event>, id: SessionId)
    requires Run(s, es).Some?
    decreases |es|
  {
    es != [] ==> !Logs(s, es[0], id) && Undisturbed(Step(s, es[0]), es[1..], id)
  }

  ghost predicate Points(s: State, id: SessionId, ref: Ref) {
    id in s.current && s.current[id] == ref
  }

  /** Every store and every claim that wins takes a pointer away, unless it is stored again. */
  lemma StepMovesPointer(s: State, e: Event, id: SessionId, ref: Ref)
    requires InRange(s) && Enabled(s, e) && ref < |s.objects| && e != SetAgain(id, ref)
    ensures Points(Step(s, e), id, ref) <==> Points(s, id, ref) && !Logs(s, e, id)
  {
  }

  lemma {:induction false} ClaimWaits(s: State, c: nat, es: seq<Event>)
    requires InRange(s) && c < |s.calls| && s.calls[c].phase.Loaded? && Run(s, es).Some?
    requires Swap(c) !in es && SetAgain(s.calls[c].id, s.calls[c].phase.ref) !in es
    ensures
      var s' := Run(s, es).value;
      && InRange(s') && c < |s'.calls| && s'.calls[c] == s.calls[c]
      && (Points(s', s.calls[c].id, s.calls[c].phase.ref) <==>
            Points(s, s.calls[c].id, s.calls[c].phase.ref) && Undisturbed(s, es, s.calls[c].id))
    decreases |es|
  {
    if es != [] {
      assert es[0] in es && forall e :: e in es[1..] ==> e in es;
      StepKeepsRange(s, es[0]);
      StepMovesPointer(s, es[0], s.calls[c].id, s.calls[c].phase.ref);
      ClaimWaits(Step(s, es[0]), c, es[1..]);
    }
  }

  /** A claim wins if and only if nothing was stored for its session, and nobody else's
      claim won, between its load and its compare-and-swap, provided that SetState was not
      given the very pointer it loaded again. */
  lemma ClaimWinsIff(s: State, id: SessionId, es: seq<Event>)
    requires InRange(s) && IsAvailable(s, id)
    requires Run(Step(s, LoadForClaim(id)), es).Some?
    requires Swap(|s.calls|) !in es && SetAgain(id, s.current[id]) !in es
    ensures
      var s0, c := Step(s, LoadForClaim(id)), |s.calls|;
      var s1 := Run(s0, es).value;
      && InRange(s1) && Enabled(s1, Swap(c)) && c < |Step(s1, Swap(c)).calls|
      && (Step(s1, Swap(c)).calls[c].phase.Won? <==> Undisturbed(s0, es, id))
      && (Undisturbed(s0, es, id) ==> IsAvailable(s1, id) && !IsAvailable(Step(s1, Swap(c)), id))
  {
    var s0, c := Step(s, LoadForClaim(id)), |s.calls|;
    StepKeepsRange(s, LoadForClaim(id));
    ClaimWaits(s0, c, es);
    SwapWinsIff(Run(s0, es).value, c);
  }

  lemma StepKeepsCurrent(s: State, e: Event, id: SessionId)
    requires InRange(s) && Enabled(s, e) && !Logs(s, e, id)
    ensures Current(Step(s, e), id) == Current(s, id)
  {
  }

  /** What SetState stores, new or again, GetState returns until something else is stored
      or claimed for the session. */
  lemma {:induction false} StateStays(s: State, id: SessionId, es: seq<Event>)
    requires InRange(s) && Run(s, es).Some? && Undisturbed(s, es, id)
    ensures Current(Run(s, es).value, id) == Current(s, id)
    decreases |es|
  {
    if es != [] {
      StepKeepsRange(s, es[0]);
      StepKeepsCurrent(s, es[0], id);
      StateStays(Step(s, es[0]), id, es[1..]);
    }
  }

  lemma SetThenGet(s: State, id: SessionId, state: SessionState, es: seq<Event>)
    requires InRange(s) && Run(Step(s, SetNew(id, state)), es).Some?
    requires Undisturbed(Step(s, SetNew(id, state)), es, id)
    ensures Current(Run(Step(s, SetNew(id, state)), es).value, id) == Some(state)
  {
    StepKeepsRange(s, SetNew(id, state));
    StateStays(Step(s, SetNew(id, state)), id, es);
  }

  lemma SetAgainThenGet(s: State, id: SessionId, ref: Ref, es: seq<Event>)
    requires InRange(s) && ref < |s.objects| && Run(Step(s, SetAgain(id, ref)), es).Some?
    requires Undisturbed(Step(s, SetAgain(id, ref)), es, id)
    ensures Current(Run(Step(s, SetAgain(id, ref)), es).value, id) == Some(s.objects[ref])
  {
    StepKeepsRange(s, SetAgain(id, ref));
    StateStays(Step(s, SetAgain(id, ref)), id, es);
  }

  /** A claim can start at any time; on a session that is not available it loses at once. */
  lemma ClaimOfUnavailableLoses(s: State, id: SessionId)
    requires InRange(s) && !IsAvailable(s, id)
    ensures Enabled(s, LoadForClaim(id)) && Step(s, LoadForClaim(id)).current == s.current
    ensures Step(s, LoadForClaim(id)).calls == s.calls + [Call(id, Lost)]
  {
  }

  lemma StepKeepsCall(s: State, e: Event, c: nat)
    requires InRange(s) && Enabled(s, e) && e != StoreExtract(c)
    requires c < |s.calls| && s.calls[c].phase.Extracting?
    ensures c < |Step(s, e).calls| && Step(s, e).calls[c] == s.calls[c]
  {
  }

  lemma {:induction false} ExtractionWaits(s: State, c: nat, es: seq<Event>)
    requires InRange(s) && c < |s.calls| && s.calls[c].phase.Extracting? && Run(s, es).Some?
    requires StoreExtract(c) !in es
    ensures
      var s' := Run(s, es).value;
      && InRange(s') && c < |s'.calls| && s'.calls[c] == s.calls[c]
      && (Undisturbed(s, es, s.calls[c].id) ==> Current(s', s.calls[c].id) == Current(s, s.calls[c].id))
    decreases |es|
  {
    if es != [] {
      assert es[0] in es && forall e :: e in es[1..] ==> e in es;
      StepKeepsRange(s, es[0]);
      StepKeepsCall(s, es[0], c);
      ExtractionWaits(Step(s, es[0]), c, es[1..]);
      if !Logs(s, es[0], s.calls[c].id) {
        StepKeepsCurrent(s, es[0], s.calls[c].id);
      }
    }
  }

  /** The session as ExtractFromResponse sees it: its state, or a fresh one. */
  function Seen(s: State, id: SessionId): SessionState {
    StartingPoint(Current(s, id), id)
  }

  /** An extraction, whatever happens before it stores: it makes the session's state from
      the one it loaded. It is made available. */
  lemma ExtractStores(s: State, id: SessionId, resp: Response, es: seq<Event>)
    requires InRange(s) && resp.cookies != []
    requires Run(Step(s, LoadForExtract(id, resp)), es).Some?
    requires StoreExtract(|s.calls|) !in es
    ensures
      var s1 := Run(Step(s, LoadForExtract(id, resp)), es).value;
      && InRange(s1) && Enabled(s1, StoreExtract(|s.calls|))
      && Current(Step(s1, StoreExtract(|s.calls|)), id) == Some(Updated(Seen(s, id), resp))
  {
    StepKeepsRange(s, LoadForExtract(id, resp));
    ExtractionWaits(Step(s, LoadForExtract(id, resp)), |s.calls|, es);
  }

  /** What it stores, field by field. */
  lemma ExtractedState(s: State, id: SessionId, resp: Response, es: seq<Event>, name: string, token: string)
    requires InRange(s) && resp.cookies != []
    requires Run(Step(s, LoadForExtract(id, resp)), es).Some?
    requires StoreExtract(|s.calls|) !in es
    ensures
      var s1 := Run(Step(s, LoadForExtract(id, resp)), es).value;
      && InRange(s1) && Enabled(s1, StoreExtract(|s.calls|))
      && Current(Step(s1, StoreExtract(|s.calls|)), id).Some?
      && var loaded, stored := Current(s, id), Current(Step(s1, StoreExtract(|s.calls|)), id).value;
         && stored.available && stored.id == (if loaded.Some? then loaded.value.id else id)
         && Find(stored.cookies, name)
            == (if FindLast(resp.cookies, name).Some? then FindLast(resp.cookies, name)
                else if loaded.Some? then Find(loaded.value.cookies, name) else None)
         && (resp.authorization == "Bearer " + token ==> stored.token == token)
         && (TokenOf(resp).None? ==> stored.token == if loaded.Some? then loaded.value.token else "")
  {
    ExtractStores(s, id, resp, es);
    LatestUpdateWins(Seen(s, id).cookies, resp.cookies, name);
    BearerToken(resp.cookies, token);
  }

  /** A response without cookies changes nothing, not even the availability or the token. */
  lemma EmptyResponseChangesNothing(s: State, id: SessionId, authorization: string)
    requires InRange(s)
    ensures Step(s, LoadForExtract(id, Response([], authorization))) == s
  {
  }

  /** When an extraction loses nothing, over every run between its load and its store. Its
      result agrees, name by name, with merging into the state of the moment it stores if
      and only if what it loaded and what is there then agree on every name the response
      does not update; and on the token if and only if the response brings one or those
      two states have the same. */
  lemma ExtractLosesNothingIff(s: State, id: SessionId, resp: Response, es: seq<Event>)
    requires InRange(s) && resp.cookies != []
    requires Run(Step(s, LoadForExtract(id, resp)), es).Some?
    requires StoreExtract(|s.calls|) !in es
    ensures
      var s1 := Run(Step(s, LoadForExtract(id, resp)), es).value;
      InRange(s1) && Enabled(s1, StoreExtract(|s.calls|))
    ensures
      var s1 := Run(Step(s, LoadForExtract(id, resp)), es).value;
      var stored := Seen(Step(s1, StoreExtract(|s.calls|)), id);
      var merged := Updated(Seen(s1, id), resp);
      && stored.available
      && (SameCookies(stored.cookies, merged.cookies) <==>
            SameElsewhere(Seen(s, id).cookies, Seen(s1, id).cookies, resp.cookies))
      && (stored.token == merged.token <==>
            TokenOf(resp).Some? || Seen(s, id).token == Seen(s1, id).token)
  {
    ExtractStores(s, id, resp, es);
    var s1 := Run(Step(s, LoadForExtract(id, resp)), es).value;
    MergesAgreeIff(Seen(s, id).cookies, Seen(s1, id).cookies, resp.cookies);
  }

  /** In particular, if nothing is stored for the session in between. */
  lemma UndisturbedExtractMerges(s: State, id: SessionId, resp: Response, es: seq<Event>)
    requires InRange(s) && resp.cookies != []
    requires Run(Step(s, LoadForExtract(id, resp)), es).Some?
    requires StoreExtract(|s.calls|) !in es
    requires Undisturbed(Step(s, LoadForExtract(id, resp)), es, id)
    ensures
      var s1 := Run(Step(s, LoadForExtract(id, resp)), es).value;
      && InRange(s1) && Enabled(s1, StoreExtract(|s.calls|))
      && Current(Step(s1, StoreExtract(|s.calls|)), id) == Some(Updated(Seen(s1, id), resp))
  {
    StepKeepsRange(s, LoadForExtract(id, resp));
    ExtractionWaits(Step(s, LoadForExtract(id, resp)), |s.calls|, es);
    ExtractStores(s, id, resp, es);
  }

  /** Two extractions that overlap lose the cookies of the one that stores first. */
  lemma OverlapLosesCookies(id: SessionId, a: HttpCookie, b: HttpCookie)
    requires a.name != b.name
    ensures
      var es := [LoadForExtract(id, Response([a], "")), LoadForExtract(id, Response([b], "")),
                 StoreExtract(0), StoreExtract(1)];
      && Run(INIT, es).Some?
      && Seen(Run(INIT, es).value, id).cookies == [b]
  {
    var e1 := LoadForExtract(id, Response([a], ""));
    var e2 := LoadForExtract(id, Response([b], ""));
    var s1 := Step(INIT, e1);
    StepKeepsRange(INIT, e1);
    var s2 := Step(s1, e2);
    StepKeepsRange(s1, e2);
    StepKeepsRange(s2, StoreExtract(0));
    FreshOverlap(s1, id, b);
    RunOne(s2, StoreExtract(0), [StoreExtract(1)]);
    RunOne(s1, e2, [StoreExtract(0), StoreExtract(1)]);
    RunOne(INIT, e1, [e2, StoreExtract(0), StoreExtract(1)]);
    assert [e1] + [e2, StoreExtract(0), StoreExtract(1)] == [e1, e2, StoreExtract(0), StoreExtract(1)];
  }

  /** With one extraction under way in a session without a state, another one that
      overlaps it leaves its own cookie alone. */
  lemma FreshOverlap(s: State, id: SessionId, b: HttpCookie)
    requires InRange(s) && |s.calls| == 1 && s.calls[0].phase.Extracting? && Current(s, id).None?
    ensures
      var s2 := Step(s, LoadForExtract(id, Response([b], "")));
      && InRange(s2) && Enabled(s2, StoreExtract(0)) && InRange(Step(s2, StoreExtract(0)))
      && Run(Step(s2, StoreExtract(0)), [StoreExtract(1)]).Some?
      && Seen(Run(Step(s2, StoreExtract(0)), [StoreExtract(1)]).value, id).cookies == [b]
  {
    var e := LoadForExtract(id, Response([b], ""));
    var s2 := Step(s, e);
    StepKeepsRange(s, e);
    StepKeepsRange(s2, StoreExtract(0));
    RunOne(s2, StoreExtract(0), []);
    ExtractStores(s, id, Response([b], ""), [StoreExtract(0)]);
    RunOne(Step(s2, StoreExtract(0)), StoreExtract(1), []);
    MergeIntoNothing(b);
  }

  lemma MergeIntoNothing(c: HttpCookie)
    ensures Merge([], [c]) == [c]
  {
    assert [c][..0] == [];
  }

  lemma RunOne(s: State, e: Event, es: seq<Event>)
    requires InRange(s) && Enabled(s, e)
    ensures Run(s, [e] + es) == Run(Step(s, e), es)
  {
    assert ([e] + es)[1..] == es;
  }

  // ---- The object ----

  /** A *SessionState: compared by identity, never written. */
  class StateRef {
    const state: SessionState

    constructor (state: SessionState)
      ensures this.state == state
    {
      this.state := state;
    }
  }

  class HeartbeatManager {
    var sessions: map<SessionId, StateRef>

    constructor ()
      ensures sessions == map[]
    {
      sessions := map[];
    }

    method SetState(id: SessionId, state: StateRef)
      modifies this
      ensures sessions == old(sessions)[id := state]
    {
      sessions := sessions[id := state];
    }

    method GetState(id: SessionId) returns (state: StateRef?)
      ensures state == if id in sessions then sessions[id] else null
    {
      state := if id in sessions then sessions[id] else null;
    }

    method CompareAndSwap(id: SessionId, loaded: StateRef, updated: StateRef) returns (swapped: bool)
      modifies this
      ensures swapped <==> id in old(sessions) && old(sessions)[id] == loaded
      ensures sessions == if swapped then old(sessions)[id := updated] else old(sessions)
    {
      swapped := id in sessions && sessions[id] == loaded;
      if swapped {
        sessions := sessions[id := updated];
      }
    }

    /** ClaimSession with nobody in between. */
    method ClaimSession(id: SessionId) returns (won: bool)
      modifies this
      ensures won <==> id in old(sessions) && old(sessions)[id].state.available
      ensures !won ==> sessions == old(sessions)
      ensures won ==> id in sessions && sessions == old(sessions)[id := sessions[id]]
      ensures won ==> sessions[id].state == old(sessions)[id].state.(available := false)
    {
      if id !in sessions {
        return false;
      }
      var loaded := sessions[id];
      if !loaded.state.available {
        return false;
      }
      var updated := new StateRef(loaded.state.(available := false));
      won := CompareAndSwap(id, loaded, updated);
    }

    /** ExtractFromResponse with nobody in between. */
    method ExtractFromResponse(id: SessionId, resp: Response)
      modifies this
      ensures resp.cookies == [] ==> sessions == old(sessions)
      ensures resp.cookies != [] ==>
        && id in sessions && sessions == old(sessions)[id := sessions[id]]
        && sessions[id].state == Updated(
             StartingPoint(if id in old(sessions) then Some(old(sessions)[id].state) else None, id), resp)
      ensures resp.cookies != [] && |resp.authorization| >= 7 && resp.authorization[..7] == "Bearer " ==>
        id in sessions && sessions[id].state.token == resp.authorization[7..]
    {
      if resp.cookies == [] {
        return;
      }
      var existing := GetState(id);
      var base := if existing != null then existing.state else SessionState(id, "", [], false);
      var merged := MergeCookies(base.cookies, resp.cookies);
      base := base.(cookies := merged, available := true);
      var token := FindToken(resp);
      if token.Some? {
        base := base.(token := token.value);
      }
      var ref := new StateRef(base);
      SetState(id, ref);
    }
  }
}
