/** The OrderedHeader of client/ordered_header.go: a slice with its backing array, which
    Set and Del write into while they read it. */
module OrderedHeaders {
  import opened HeaderSpec

  class OrderedHeader {
    const canon: string -> string  // http.CanonicalHeaderKey
    var data: array<Entry>  // the backing array; its length is the capacity
    var len: nat

    ghost predicate Valid()
      reads this
    {
      len <= data.Length
    }

    ghost function Entries(): seq<Entry>
      requires Valid()
      reads this, data
    {
      data[..len]
    }

    constructor (canon: string -> string)
      ensures Valid() && fresh(data) && Entries() == [] && this.canon == canon
    {
      this.canon := canon;
      data := new Entry[0];
      len := 0;
    }

    /** append(entries[:n], e) where the backing array has room. */
    method Write(n: nat, e: Entry)
      requires n < data.Length
      modifies data
      ensures data[..n + 1] == old(data[..n]) + [e]
      ensures forall j :: n < j < data.Length ==> data[j] == old(data[j])
    {
      data[n] := e;
    }

    /** append(entries[:n], e): in place if there is room, else in a larger array. */
    method Append(n: nat, e: Entry)
      requires Valid() && n <= len
      modifies this, data
      ensures Valid() && (data == old(data) || fresh(data))
      ensures Entries() == old(data[..n]) + [e]
    {
      if n < data.Length {
        Write(n, e);
      } else {
        var bigger := new Entry[2 * n + 1](_ => e);
        forall i | 0 <= i < n {
          bigger[i] := data[i];
        }
        data := bigger;
      }
      len := n + 1;
    }

    method Add(key: string, value: string)
      requires Valid()
      modifies this, data
      ensures Valid() && (data == old(data) || fresh(data))
      ensures Entries() == old(Entries()) + [Entry(key, value)]
    {
      Append(len, Entry(key, value));
    }

    method Del(key: string)
      requires Valid()
      modifies this, data
      ensures Valid() && data == old(data)
      ensures Entries() == Without(canon, old(Entries()), key)
    {
      ghost var before := Entries();
      var n, out := len, 0;
      for i := 0 to n
        invariant out <= i && data == old(data) && n == old(len) && len == n
        invariant forall j :: i <= j < n ==> data[j] == before[j]  // nothing unread is overwritten
        invariant data[..out] == Without(canon, before[..i], key)
      {
        var e := data[i];
        assert e == before[i];
        WithoutOne(canon, before, i, key);
        if !SameKey(canon, e.key, key) {
          Write(out, e);
          out := out + 1;
        }
      }
      len := out;
      assert before[..n] == before;
    }

    method Set(key: string, value: string)
      requires Valid()
      modifies this, data
      ensures Valid() && (data == old(data) || fresh(data))
      ensures Entries() == Replaced(canon, old(Entries()), key, value)
    {
      ghost var before := Entries();
      var replaced, n, out := false, len, 0;
      for i := 0 to n
        invariant 0 <= out <= i && data == old(data) && n == old(len) && len == n
        invariant forall j :: i <= j < n ==> data[j] == before[j]  // nothing unread is overwritten
        invariant replaced <==> FirstMatch(canon, before[..i], key) < i
        invariant data[..out] == AfterSome(canon, before, i, key, value)
      {
        out, replaced := SetOne(before, i, out, replaced, key, value);
      }
      assert before[..n] == before;
      if !replaced {
        Append(out, Entry(key, value));
      } else {
        len := out;
      }
    }

    /** One iteration of the loop of Set, which reads entry `i` and writes entry `out`. */
    method SetOne(ghost es: seq<Entry>, i: nat, out: nat, replaced: bool, key: string, value: string)
        returns (out': nat, replaced': bool)
      requires out <= i < |es| == len <= data.Length && data[i] == es[i]
      requires replaced <==> FirstMatch(canon, es[..i], key) < i
      requires data[..out] == AfterSome(canon, es, i, key, value)
      modifies data
      ensures out' <= i + 1 && forall j :: i < j < data.Length ==> data[j] == old(data[j])
      ensures replaced' <==> FirstMatch(canon, es[..i + 1], key) < i + 1
      ensures data[..out'] == AfterSome(canon, es, i + 1, key, value)
    {
      var e := data[i];
      out', replaced' := out, replaced;
      AfterOneMore(canon, es, i, key, value);
      if SameKey(canon, e.key, key) {
        if !replaced {
          Write(out, Entry(key, value));
          out', replaced' := out + 1, true;
        }
      } else {
        Write(out, e);
        out' := out + 1;
      }
    }

    method Get(key: string) returns (value: string)
      requires Valid()
      ensures value == Lookup(canon, Entries(), key)
    {
      for i := 0 to len
        invariant forall j :: 0 <= j < i ==> !SameKey(canon, Entries()[j].key, key)
      {
        if SameKey(canon, data[i].key, key) {
          FirstMatchIs(canon, Entries(), key, i);
          return data[i].value;
        }
      }
      value := "";
    }

    /** The copy has a backing array of its own. */
    method Clone() returns (c: OrderedHeader)
      requires Valid()
      ensures fresh(c) && fresh(c.data) && c.Valid() && c.Entries() == Entries() && c.canon == canon
    {
      c := new OrderedHeader(canon);
      var copied := new Entry[len](i requires 0 <= i < len <= data.Length reads this, data => data[i]);
      c.data, c.len := copied, len;
    }

    method ToHTTPHeader() returns (out: map<string, seq<string>>)
      requires Valid()
      ensures forall k :: k in out <==> exists i :: 0 <= i < |Entries()| && Entries()[i].key == k
      ensures forall k :: k in out ==> out[k] == ValuesOf(Entries(), k)
    {
      out := map[];
      ghost var es := Entries();
      for i := 0 to len
        invariant forall k :: k in out ==> out[k] != []
        invariant forall k :: ValuesOf(es[..i], k) == if k in out then out[k] else []
      {
        var e := data[i];
        forall k: string
          ensures ValuesOf(es[..i + 1], k) == ValuesOf(es[..i], k) + if e.key == k then [e.value] else []
        {
          ValuesOfOne(es, i, k);
        }
        out := out[e.key := (if e.key in out then out[e.key] else []) + [e.value]];
      }
      assert es[..len] == es;
      forall k: string
        ensures ValuesOf(es, k) != [] <==> exists i :: 0 <= i < |es| && es[i].key == k
      {
        ValuesOfSome(es, k);
      }
    }
  }

  // ---- One iteration of the loops, on the list ----

  lemma WithoutAppend(canon: string -> string, es: seq<Entry>, e: Entry, key: string)
    ensures Without(canon, es + [e], key)
         == Without(canon, es, key) + if SameKey(canon, e.key, key) then [] else [e]
  {
    WithoutSplits(canon, es, [e], key);
    assert [e][1..] == [];
  }

  lemma WithoutOne(canon: string -> string, es: seq<Entry>, i: nat, key: string)
    requires i < |es|
    ensures Without(canon, es[..i + 1], key)
         == Without(canon, es[..i], key) + if SameKey(canon, es[i].key, key) then [] else [es[i]]
  {
    assert es[..i + 1] == es[..i] + [es[i]];
    WithoutAppend(canon, es[..i], es[i], key);
  }

  lemma FirstMatchOne(canon: string -> string, es: seq<Entry>, i: nat, key: string)
    requires i < |es|
    ensures
      var f, f' := FirstMatch(canon, es[..i], key), FirstMatch(canon, es[..i + 1], key);
      if f < i then f' == f else f' == if SameKey(canon, es[i].key, key) then i else i + 1
  {
    var f := FirstMatch(canon, es[..i], key);
    if f < i {
      FirstMatchIs(canon, es[..i + 1], key, f);
    } else if SameKey(canon, es[i].key, key) {
      FirstMatchIs(canon, es[..i + 1], key, i);
    }
  }

  /** What Set has written after `i` iterations. */
  ghost function AfterSome(canon: string -> string, es: seq<Entry>, i: nat, key: string, value: string): seq<Entry>
    requires i <= |es|
  {
    if FirstMatch(canon, es[..i], key) < i then Replaced(canon, es[..i], key, value) else es[..i]
  }

  lemma AfterOneMore(canon: string -> string, es: seq<Entry>, i: nat, key: string, value: string)
    requires i < |es|
    ensures
      var replaced := FirstMatch(canon, es[..i], key) < i;
      var matches := SameKey(canon, es[i].key, key);
      && (FirstMatch(canon, es[..i + 1], key) < i + 1 <==> replaced || matches)
      && AfterSome(canon, es, i + 1, key, value) == AfterSome(canon, es, i, key, value)
           + if !matches then [es[i]] else if replaced then [] else [Entry(key, value)]
  {
    FirstMatchOne(canon, es, i, key);
    if FirstMatch(canon, es[..i], key) < i {
      ReplacedOne(canon, es, i, key, value);
    } else if SameKey(canon, es[i].key, key) {
      assert es[..i + 1][..i] == es[..i] && es[..i + 1][i + 1..] == [];
    }
  }

  lemma TailOne<T>(s: seq<T>, e: T, lo: nat)
    requires lo <= |s|
    ensures (s + [e])[..lo] == s[..lo] && (s + [e])[lo..] == s[lo..] + [e]
  {
  }

  /** Once the new entry is in place, one more entry is one more for the filter behind it. */
  lemma ReplacedAppend(canon: string -> string, es: seq<Entry>, f: nat, e: Entry, key: string, value: string)
    requires f < |es|
    ensures ReplacedAt(canon, es + [e], f, key, value)
         == ReplacedAt(canon, es, f, key, value) + if SameKey(canon, e.key, key) then [] else [e]
  {
    TailOne(es, e, f);
    TailOne(es, e, f + 1);
    WithoutAppend(canon, es[f + 1..], e, key);
    Regroup(es[..f] + [Entry(key, value)], Without(canon, es[f + 1..], key),
            if SameKey(canon, e.key, key) then [] else [e]);
  }

  lemma ReplacedOne(canon: string -> string, es: seq<Entry>, i: nat, key: string, value: string)
    requires i < |es| && FirstMatch(canon, es[..i], key) < i
    ensures Replaced(canon, es[..i + 1], key, value)
         == Replaced(canon, es[..i], key, value) + if SameKey(canon, es[i].key, key) then [] else [es[i]]
  {
    FirstMatchOne(canon, es, i, key);
    assert es[..i + 1] == es[..i] + [es[i]];
    ReplacedAppend(canon, es[..i], FirstMatch(canon, es[..i], key), es[i], key, value);
  }
}
