/** mergeCookies of token/heartbeat.go. */
module CookieMerge {
  import opened Options

  datatype HttpCookie = HttpCookie(name: string, value: string)

  type Cookies = seq<HttpCookie>

  /** The position of the first cookie of that name, or the length. */
  function IndexOf(cs: Cookies, name: string): (i: nat)
    ensures i <= |cs|
    ensures i < |cs| ==> cs[i].name == name
    ensures forall j :: 0 <= j < i ==> cs[j].name != name
  {
    if cs == [] || cs[0].name == name then 0 else 1 + IndexOf(cs[1..], name)
  }

  /** First-match lookup. */
  function Find(cs: Cookies, name: string): Option<HttpCookie> {
    var i := IndexOf(cs, name);
    if i < |cs| then Some(cs[i]) else None
  }

  /** The last cookie of that name. */
  function FindLast(cs: Cookies, name: string): Option<HttpCookie>
    decreases |cs|
  {
    if cs == [] then None
    else if cs[|cs| - 1].name == name then Some(cs[|cs| - 1])
    else FindLast(cs[..|cs| - 1], name)
  }

  function Names(cs: Cookies): (r: seq<string>)
    ensures |r| == |cs|
    ensures forall i :: 0 <= i < |cs| ==> r[i] == cs[i].name
  {
    if cs == [] then [] else [cs[0].name] + Names(cs[1..])
  }

  predicate UniqueNames(cs: Cookies) {
    forall i, j :: 0 <= i < j < |cs| ==> cs[i].name != cs[j].name
  }

  /** One update: it takes the place of the first cookie of its name, or the end. */
  function MergeOne(cs: Cookies, u: HttpCookie): Cookies {
    var i := IndexOf(cs, u.name);
    if i < |cs| then cs[i := u] else cs + [u]
  }

  function Merge(cs: Cookies, updates: Cookies): Cookies
    decreases |updates|
  {
    if updates == [] then cs
    else MergeOne(Merge(cs, updates[..|updates| - 1]), updates[|updates| - 1])
  }

  method MergeCookies(existing: Cookies, updates: Cookies) returns (out: Cookies)
    ensures out == Merge(existing, updates)
  {
    out := existing;
    for n := 0 to |updates|
      invariant out == Merge(existing, updates[..n])
    {
      assert updates[..n + 1][..n] == updates[..n];
      var u := updates[n];
      var found := false;
      ghost var before := out;
      for i := 0 to |out|
        invariant out == before && !found
        invariant forall j :: 0 <= j < i ==> out[j].name != u.name
      {
        if out[i].name == u.name {
          IndexIs(out, u.name, i);
          out := out[i := u];
          found := true;
          break;
        }
      }
      if !found {
        out := out + [u];
      }
    }
    assert updates[..|updates|] == updates;
  }

  lemma {:induction false} IndexIs(cs: Cookies, name: string, i: nat)
    requires i <= |cs| && (i < |cs| ==> cs[i].name == name)
    requires forall j :: 0 <= j < i ==> cs[j].name != name
    ensures IndexOf(cs, name) == i
  {
    if i > 0 {
      IndexIs(cs[1..], name, i - 1);
    }
  }

  // ---- Merging is a last-write-wins fold ----

  /** Two batches in turn are one batch. */
  lemma {:induction false} MergeSplits(cs: Cookies, u: Cookies, v: Cookies)
    ensures Merge(Merge(cs, u), v) == Merge(cs, u + v)
    decreases |v|
  {
    if v == [] {
      assert u + v == u;
    } else {
      var n := |v| - 1;
      assert (u + v)[..|u + v| - 1] == u + v[..n];
      MergeSplits(cs, u, v[..n]);
    }
  }

  lemma FindAfterOne(cs: Cookies, u: HttpCookie, name: string)
    ensures Find(MergeOne(cs, u), name) == if u.name == name then Some(u) else Find(cs, name)
  {
    var r := MergeOne(cs, u);
    var i := IndexOf(cs, name);
    if u.name == name || i < |cs| {
      IndexIs(r, name, i);
    } else {
      IndexIs(r, name, |r|);
    }
  }

  /** Looking up a name gives the latest update of it, or else the old cookie. */
  lemma {:induction false} LatestUpdateWins(cs: Cookies, updates: Cookies, name: string)
    ensures Find(Merge(cs, updates), name)
         == if FindLast(updates, name).Some? then FindLast(updates, name) else Find(cs, name)
    decreases |updates|
  {
    if updates != [] {
      var n := |updates| - 1;
      LatestUpdateWins(cs, updates[..n], name);
      FindAfterOne(Merge(cs, updates[..n]), updates[n], name);
    }
  }

  /** Every name is looked up alike. */
  ghost predicate SameCookies(cs: Cookies, ds: Cookies) {
    forall name :: Find(cs, name) == Find(ds, name)
  }

  /** Every name that the batch does not update is looked up alike. */
  ghost predicate SameElsewhere(cs: Cookies, ds: Cookies, updates: Cookies) {
    forall name :: FindLast(updates, name).None? ==> Find(cs, name) == Find(ds, name)
  }

  /** The same batch makes two lists agree if and only if they agreed on the other names. */
  lemma MergesAgreeIff(cs: Cookies, ds: Cookies, updates: Cookies)
    ensures SameCookies(Merge(cs, updates), Merge(ds, updates)) <==> SameElsewhere(cs, ds, updates)
  {
    forall name
      ensures Find(Merge(cs, updates), name) == Find(Merge(ds, updates), name)
         <==> (FindLast(updates, name).None? ==> Find(cs, name) == Find(ds, name))
    {
      LatestUpdateWins(cs, updates, name);
      LatestUpdateWins(ds, updates, name);
    }
  }

  /** The names that a batch adds, each once, in the order of their first appearance. */
  function Added(names: seq<string>, updates: Cookies): seq<string>
    decreases |updates|
  {
    if updates == [] then []
    else
      var more := Added(names, updates[..|updates| - 1]);
      var name := updates[|updates| - 1].name;
      if name in names || name in more then more else more + [name]
  }

  /** Every name keeps its place, and new names come after the old ones. */
  lemma {:induction false} NamesKeepOrder(cs: Cookies, updates: Cookies)
    ensures Names(Merge(cs, updates)) == Names(cs) + Added(Names(cs), updates)
    decreases |updates|
  {
    if updates != [] {
      var n := |updates| - 1;
      var r := Merge(cs, updates[..n]);
      var u := updates[n];
      NamesKeepOrder(cs, updates[..n]);
      var i := IndexOf(r, u.name);
      assert i < |r| <==> u.name in Names(r) by {
        if i < |r| { assert Names(r)[i] == u.name; }
      }
      if i < |r| {
        assert Names(r[i := u]) == Names(r);
      } else {
        assert Names(r + [u]) == Names(r) + [u.name];
      }
    }
  }

  lemma {:induction false} MergeKeepsUnique(cs: Cookies, updates: Cookies)
    requires UniqueNames(cs)
    ensures UniqueNames(Merge(cs, updates))
    decreases |updates|
  {
    if updates != [] {
      MergeKeepsUnique(cs, updates[..|updates| - 1]);
    }
  }

  /** What stands at a position that was there before: the latest update, at the first
      cookie of a name, and otherwise the old cookie. */
  lemma {:induction false} MergeAt(cs: Cookies, updates: Cookies, j: nat)
    requires j < |cs|
    ensures j < |Merge(cs, updates)|
    ensures
      var last := FindLast(updates, cs[j].name);
      Merge(cs, updates)[j] == if IndexOf(cs, cs[j].name) == j && last.Some? then last.value else cs[j]
    ensures Merge(cs, updates)[j].name == cs[j].name
    decreases |updates|
  {
    if updates != [] {
      var n := |updates| - 1;
      MergeAt(cs, updates[..n], j);
      forall i | 0 <= i < |cs|
        ensures i < |Merge(cs, updates[..n])| && Merge(cs, updates[..n])[i].name == cs[i].name
      {
        MergeAt(cs, updates[..n], i);
      }
      if updates[n].name == cs[j].name {
        IndexIs(Merge(cs, updates[..n]), cs[j].name, IndexOf(cs, cs[j].name));
      }
    }
  }

  lemma {:induction false} AddedAreNew(names: seq<string>, updates: Cookies)
    requires forall i :: 0 <= i < |updates| ==> updates[i].name in names
    ensures Added(names, updates) == []
    decreases |updates|
  {
    if updates != [] {
      AddedAreNew(names, updates[..|updates| - 1]);
    }
  }

  lemma UpdatedNamesArePresent(cs: Cookies, updates: Cookies, i: nat)
    requires i < |updates|
    ensures updates[i].name in Names(Merge(cs, updates))
    decreases |updates|
  {
    LatestUpdateWins(cs, updates, updates[i].name);
    HasLast(updates, i);
    var r := Merge(cs, updates);
    assert Names(r)[IndexOf(r, updates[i].name)] == updates[i].name;
  }

  lemma {:induction false} HasLast(cs: Cookies, i: nat)
    requires i < |cs|
    ensures FindLast(cs, cs[i].name).Some?
    decreases |cs|
  {
    var n := |cs| - 1;
    if i < n {
      HasLast(cs[..n], i);
    }
  }

  /** Merging the same batch again changes nothing. */
  lemma MergeIsIdempotent(cs: Cookies, updates: Cookies)
    ensures Merge(Merge(cs, updates), updates) == Merge(cs, updates)
  {
    var r := Merge(cs, updates);
    var rr := Merge(r, updates);
    forall i | 0 <= i < |updates|
      ensures updates[i].name in Names(r)
    {
      UpdatedNamesArePresent(cs, updates, i);
    }
    AddedAreNew(Names(r), updates);
    NamesKeepOrder(r, updates);
    assert |rr| == |Names(rr)| == |r|;
    forall j | 0 <= j < |r|
      ensures rr[j] == r[j]
    {
      MergeAt(r, updates, j);
      LatestUpdateWins(cs, updates, r[j].name);
    }
  }
}
