/** The master controller of cluster/controller.go as an object: its subMu sections and
    one BroadcastCookie call with nobody in between. BroadcastProtocol interleaves them. */
module BroadcastObjects {
  import opened CookieJar
  import opened BroadcastProtocol

  /** A pb.GetGlobalCookiesResponse: the cookies in the order the map yielded them. */
  datatype Message = Message(cookies: seq<Cookie>, version: nat)

  /** An active WatchCookies stream with its buffered channel. */
  class Subscriber {
    const pcID: PcId
    var ch: seq<Message>

    constructor (pcID: PcId)
      ensures this.pcID == pcID && ch == []
    {
      this.pcID := pcID;
      ch := [];
    }

    /** The select with a default of lines 163-166. */
    method Offer(m: Message)
      modifies this
      ensures ch == Offered(old(ch), m)
    {
      if |ch| < CAPACITY {
        ch := ch + [m];
      }
    }
  }

  class MasterController {
    const jar: GlobalCookieJar
    var subs: map<PcId, Subscriber>

    ghost predicate Valid()
      reads this, jar
    {
      jar.Valid() && forall pc :: pc in subs ==> subs[pc].pcID == pc
    }

    constructor ()
      ensures Valid() && subs == map[] && jar.entries == map[] && jar.version == 0
    {
      jar := new GlobalCookieJar();
      subs := map[];
    }

    /** Lines 200-209: an empty pc_id is refused. */
    method Register(pc: PcId) returns (sub: Subscriber?)
      requires Valid()
      modifies this`subs
      ensures Valid()
      ensures sub == null <==> pc == ""
      ensures sub == null ==> subs == old(subs)
      ensures sub != null ==> fresh(sub) && sub.ch == [] && subs == old(subs)[pc := sub]
    {
      if pc == "" {
        return null;
      }
      sub := new Subscriber(pc);
      subs := subs[pc := sub];
    }

    /** The deferred delete of lines 211-215. */
    method Deregister(pc: PcId)
      requires Valid()
      modifies this`subs
      ensures Valid() && subs == old(subs) - {pc}
    {
      subs := subs - {pc};
    }

    /** Lines 160-168, in whatever order the map yields the subscribers. */
    method FanOut(m: Message)
      requires Valid()
      modifies set pc | pc in subs :: subs[pc]
      ensures Valid()
      ensures forall pc :: pc in subs ==> subs[pc].ch == Offered(old(subs[pc].ch), m)
    {
      var todo := subs.Keys;
      while todo != {}
        invariant todo <= subs.Keys
        invariant forall pc :: pc in subs ==>
          subs[pc].ch == if pc in todo then old(subs[pc].ch) else Offered(old(subs[pc].ch), m)
      {
        var pc :| pc in todo;
        subs[pc].Offer(m);
        todo := todo - {pc};
      }
    }

    /** BroadcastCookie run by itself: it refuses an empty batch and changes nothing;
        otherwise every subscriber with room gets a message with the new version whose
        cookies are the whole jar, the new batch included. */
    method BroadcastCookie(cookies: seq<Cookie>) returns (accepted: bool)
      requires Valid()
      modifies jar, set pc | pc in subs :: subs[pc]
      ensures Valid() && accepted == (cookies != [])
      ensures !accepted ==> jar.entries == old(jar.entries) && jar.version == old(jar.version)
      ensures !accepted ==> forall pc :: pc in subs ==> subs[pc].ch == old(subs[pc].ch)
      ensures accepted ==> jar.entries == StoreAll(old(jar.entries), cookies)
      ensures accepted ==> jar.version == old(jar.version) + 1
      ensures accepted ==> exists m: Message ::
        && m.version == jar.version && StoreAll(map[], m.cookies) == jar.entries
        && forall pc :: pc in subs ==> subs[pc].ch == Offered(old(subs[pc].ch), m)
    {
      if cookies == [] {
        return false;
      }
      jar.StoreEntries(cookies);
      var ver := jar.Bump();
      var out, _ := jar.Snapshot();
      FanOut(Message(out, ver));
      accepted := true;
    }
  }
}
