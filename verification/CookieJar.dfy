/** The global cookie jar of cluster/controller.go: what storing batches means. */
module CookieJar {
  datatype Cookie = Cookie(name: string, value: string, attributes: string)

  /** The entries, keyed by cookie name. */
  type Jar = map<string, Cookie>

  /** Storing a batch, cookie by cookie. */
  function StoreAll(jar: Jar, batch: seq<Cookie>): Jar
    decreases |batch|
  {
    if batch == [] then jar else StoreAll(jar[batch[0].name := batch[0]], batch[1..])
  }

  /** The jar after a history of batches. */
  function Replay(history: seq<seq<Cookie>>): Jar {
    if history == [] then map[]
    else StoreAll(Replay(history[..|history| - 1]), history[|history| - 1])
  }

  ghost predicate KeyedByName(jar: Jar) {
    forall n :: n in jar ==> jar[n].name == n
  }

  lemma {:induction false} StoreAllSplits(jar: Jar, a: seq<Cookie>, b: seq<Cookie>)
    ensures StoreAll(jar, a + b) == StoreAll(StoreAll(jar, a), b)
    decreases |a|
  {
    if a == [] {
      assert a + b == b;
    } else {
      assert (a + b)[1..] == a[1..] + b;
      StoreAllSplits(jar[a[0].name := a[0]], a[1..], b);
    }
  }

  lemma {:induction false} UnstoredNameStays(jar: Jar, batch: seq<Cookie>, name: string)
    requires forall i :: 0 <= i < |batch| ==> batch[i].name != name
    ensures name in StoreAll(jar, batch) <==> name in jar
    ensures name in jar ==> StoreAll(jar, batch)[name] == jar[name]
    decreases |batch|
  {
    if batch != [] {
      UnstoredNameStays(jar[batch[0].name := batch[0]], batch[1..], name);
    }
  }

  /** A later cookie of the same name always replaces the earlier one. */
  lemma LastWriteWins(jar: Jar, batch: seq<Cookie>, i: nat)
    requires i < |batch|
    requires forall j :: i < j < |batch| ==> batch[j].name != batch[i].name
    ensures batch[i].name in StoreAll(jar, batch)
    ensures StoreAll(jar, batch)[batch[i].name] == batch[i]
  {
    assert batch == batch[..i + 1] + batch[i + 1..];
    StoreAllSplits(jar, batch[..i + 1], batch[i + 1..]);
    assert batch[..i + 1] == batch[..i] + [batch[i]];
    StoreAllSplits(jar, batch[..i], [batch[i]]);
    UnstoredNameStays(StoreAll(jar, batch[..i + 1]), batch[i + 1..], batch[i].name);
  }

  lemma ReplayAppend(history: seq<seq<Cookie>>, batch: seq<Cookie>)
    ensures Replay(history + [batch]) == StoreAll(Replay(history), batch)
  {
    assert (history + [batch])[..|history|] == history;
  }

  /** GlobalCookieJar. */
  class GlobalCookieJar {
    var entries: Jar
    var version: nat

    ghost predicate Valid()
      reads this
    {
      KeyedByName(entries)
    }

    constructor ()
      ensures Valid() && entries == map[] && version == 0
    {
      entries, version := map[], 0;
    }

    /** The section of Store under j.mu. */
    method StoreEntries(cookies: seq<Cookie>)
      requires Valid()
      modifies this`entries
      ensures Valid() && entries == StoreAll(old(entries), cookies)
    {
      for i := 0 to |cookies|
        invariant Valid() && entries == StoreAll(old(entries), cookies[..i])
      {
        StoreAllSplits(old(entries), cookies[..i], [cookies[i]]);
        assert cookies[..i + 1] == cookies[..i] + [cookies[i]];
        entries := entries[cookies[i].name := cookies[i]];
      }
      assert cookies[..|cookies|] == cookies;
    }

    /** `j.version.Add(1)`, which comes after j.mu is released. */
    method Bump() returns (ver: nat)
      modifies this`version
      ensures ver == version == old(version) + 1
    {
      version := version + 1;
      ver := version;
    }

    /** Snapshot copies the entries in whatever order the map yields them. Whatever the
        order, storing the copy into an empty jar gives the same entries back. */
    method Snapshot() returns (out: seq<Cookie>, ver: nat)
      requires Valid()
      ensures |out| == |entries| && ver == version
      ensures forall i, j :: 0 <= i < j < |out| ==> out[i].name != out[j].name
      ensures StoreAll(map[], out) == entries
    {
      out := [];
      var todo := entries.Keys;
      while todo != {}
        invariant todo <= entries.Keys && |out| + |todo| == |entries|
        invariant forall i :: 0 <= i < |out| ==> out[i].name in entries.Keys - todo
        invariant forall i, j :: 0 <= i < j < |out| ==> out[i].name != out[j].name
        invariant StoreAll(map[], out) == entries - todo
      {
        var name :| name in todo;
        StoreAllSplits(map[], out, [entries[name]]);
        assert entries - (todo - {name}) == (entries - todo)[name := entries[name]];
        out := out + [entries[name]];
        todo := todo - {name};
      }
      ver := version;
    }
  }
}
