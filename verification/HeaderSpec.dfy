/** What the operations of client/ordered_header.go mean on the list of entries. */
module HeaderSpec {
  datatype Entry = Entry(key: string, value: string)

  /** When `canon`, http.CanonicalHeaderKey, takes two keys for the same. Nothing below
      depends on what it does; HeaderKeys says what that is. */
  predicate SameKey(canon: string -> string, a: string, b: string) {
    canon(a) == canon(b)
  }

  /** The entries with another key, in their order. */
  function Without(canon: string -> string, es: seq<Entry>, key: string): seq<Entry> {
    if es == [] then []
    else (if SameKey(canon, es[0].key, key) then [] else [es[0]]) + Without(canon, es[1..], key)
  }

  /** The entries with that key, in their order. */
  function Matching(canon: string -> string, es: seq<Entry>, key: string): seq<Entry> {
    if es == [] then []
    else (if SameKey(canon, es[0].key, key) then [es[0]] else []) + Matching(canon, es[1..], key)
  }

  /** The position of the first entry with that key, or the length. */
  function FirstMatch(canon: string -> string, es: seq<Entry>, key: string): (i: nat)
    ensures i <= |es|
    ensures i < |es| ==> SameKey(canon, es[i].key, key)
    ensures forall j :: 0 <= j < i ==> !SameKey(canon, es[j].key, key)
  {
    if es == [] || SameKey(canon, es[0].key, key) then 0 else 1 + FirstMatch(canon, es[1..], key)
  }

  /** The new entry takes the place of the first match, or the end, and later matches go. */
  function Replaced(canon: string -> string, es: seq<Entry>, key: string, value: string): seq<Entry> {
    var i := FirstMatch(canon, es, key);
    if i == |es| then es + [Entry(key, value)]
    else ReplacedAt(canon, es, i, key, value)
  }

  function ReplacedAt(canon: string -> string, es: seq<Entry>, i: nat, key: string, value: string): seq<Entry>
    requires i < |es|
  {
    es[..i] + [Entry(key, value)] + Without(canon, es[i + 1..], key)
  }

  function Lookup(canon: string -> string, es: seq<Entry>, key: string): string {
    var i := FirstMatch(canon, es, key);
    if i < |es| then es[i].value else ""
  }

  lemma Regroup<T>(a: seq<T>, b: seq<T>, c: seq<T>)
    ensures (a + b) + c == a + (b + c)
  {
  }

  lemma {:induction false} WithoutSplits(canon: string -> string, a: seq<Entry>, b: seq<Entry>, key: string)
    ensures Without(canon, a + b, key) == Without(canon, a, key) + Without(canon, b, key)
  {
    if a == [] {
      assert a + b == b;
    } else {
      assert (a + b)[0] == a[0] && (a + b)[1..] == a[1..] + b;
      WithoutSplits(canon, a[1..], b, key);
      var head := if SameKey(canon, a[0].key, key) then [] else [a[0]];
      Regroup(head, Without(canon, a[1..], key), Without(canon, b, key));
    }
  }

  lemma {:induction false} MatchingSplits(canon: string -> string, a: seq<Entry>, b: seq<Entry>, key: string)
    ensures Matching(canon, a + b, key) == Matching(canon, a, key) + Matching(canon, b, key)
  {
    if a == [] {
      assert a + b == b;
    } else {
      assert (a + b)[0] == a[0] && (a + b)[1..] == a[1..] + b;
      MatchingSplits(canon, a[1..], b, key);
      var head := if SameKey(canon, a[0].key, key) then [a[0]] else [];
      Regroup(head, Matching(canon, a[1..], key), Matching(canon, b, key));
    }
  }

  lemma {:induction false} NoneMatches(canon: string -> string, es: seq<Entry>, key: string)
    requires forall i :: 0 <= i < |es| ==> !SameKey(canon, es[i].key, key)
    ensures Without(canon, es, key) == es && Matching(canon, es, key) == []
  {
    if es != [] {
      NoneMatches(canon, es[1..], key);
    }
  }

  lemma {:induction false} WithoutHasNone(canon: string -> string, es: seq<Entry>, key: string)
    ensures forall i :: 0 <= i < |Without(canon, es, key)| ==> !SameKey(canon, Without(canon, es, key)[i].key, key)
  {
    if es != [] {
      WithoutHasNone(canon, es[1..], key);
    }
  }

  /** Removing one key does not touch the entries of another. */
  lemma {:induction false} WithoutKeepsOthers(canon: string -> string, es: seq<Entry>, key: string, other: string)
    requires !SameKey(canon, key, other)
    ensures Matching(canon, Without(canon, es, key), other) == Matching(canon, es, other)
  {
    if es != [] {
      var head := if SameKey(canon, es[0].key, key) then [] else [es[0]];
      WithoutKeepsOthers(canon, es[1..], key, other);
      MatchingSplits(canon, head, Without(canon, es[1..], key), other);
    }
  }

  lemma LookupIsFirstMatching(canon: string -> string, es: seq<Entry>, key: string)
    ensures Lookup(canon, es, key) == if Matching(canon, es, key) == [] then "" else Matching(canon, es, key)[0].value
  {
    var i := FirstMatch(canon, es, key);
    assert es == es[..i] + es[i..];
    MatchingSplits(canon, es[..i], es[i..], key);
    NoneMatches(canon, es[..i], key);
  }

  /** Set leaves one entry for the key, and it is the new one. */
  lemma SetLeavesOne(canon: string -> string, es: seq<Entry>, key: string, value: string)
    ensures Matching(canon, Replaced(canon, es, key, value), key) == [Entry(key, value)]
    ensures Lookup(canon, Replaced(canon, es, key, value), key) == value
  {
    var i := FirstMatch(canon, es, key);
    var e := Entry(key, value);
    NoneMatches(canon, es[..i], key);
    MatchingSplits(canon, es[..i], [e], key);
    assert Matching(canon, [e], key) == [e] by { assert [e][1..] == []; }
    if i == |es| {
      assert es[..i] == es;
    } else {
      var rest := Without(canon, es[i + 1..], key);
      WithoutHasNone(canon, es[i + 1..], key);
      NoneMatches(canon, rest, key);
      MatchingSplits(canon, es[..i] + [e], rest, key);
    }
    LookupIsFirstMatching(canon, Replaced(canon, es, key, value), key);
  }

  /** Set keeps every other entry, in order, and Del after Set is Del. */
  lemma SetKeepsOthers(canon: string -> string, es: seq<Entry>, key: string, value: string)
    ensures Without(canon, Replaced(canon, es, key, value), key) == Without(canon, es, key)
  {
    var i := FirstMatch(canon, es, key);
    var before, e := es[..i], Entry(key, value);
    NoneMatches(canon, before, key);
    assert Without(canon, [e], key) == [] by { assert [e][1..] == []; }
    if i == |es| {
      WithoutSplits(canon, es, [e], key);
      assert before == es;
    } else {
      var after := es[i + 1..];
      WithoutIsIdempotent(canon, after, key);
      ThreeParts(canon, before, e, Without(canon, after, key), key);
      ThreeParts(canon, before, es[i], after, key);
      assert es == before + [es[i]] + after;
    }
  }

  /** Where Set puts its entry: at the end if the key is absent, and otherwise at the
      position of the first entry with the key, behind the entries that were before it. */
  lemma SetAppendsIfAbsent(canon: string -> string, es: seq<Entry>, key: string, value: string)
    requires forall j :: 0 <= j < |es| ==> !SameKey(canon, es[j].key, key)
    ensures Replaced(canon, es, key, value) == es + [Entry(key, value)]
  {
    assert FirstMatch(canon, es, key) == |es|;
  }

  lemma SetTakesFirstPlace(canon: string -> string, es: seq<Entry>, i: nat, key: string, value: string)
    requires i < |es| && SameKey(canon, es[i].key, key)
    requires forall j :: 0 <= j < i ==> !SameKey(canon, es[j].key, key)
    ensures i < |Replaced(canon, es, key, value)|
    ensures Replaced(canon, es, key, value)[..i + 1] == es[..i] + [Entry(key, value)]
    ensures Replaced(canon, es, key, value)[i + 1..] == Without(canon, es[i + 1..], key)
  {
    FirstMatchIs(canon, es, key, i);
  }

  lemma WithoutIsIdempotent(canon: string -> string, es: seq<Entry>, key: string)
    ensures Without(canon, Without(canon, es, key), key) == Without(canon, es, key)
  {
    WithoutHasNone(canon, es, key);
    NoneMatches(canon, Without(canon, es, key), key);
  }

  lemma ThreeParts(canon: string -> string, a: seq<Entry>, e: Entry, b: seq<Entry>, key: string)
    requires SameKey(canon, e.key, key)
    ensures Without(canon, a + [e] + b, key) == Without(canon, a, key) + Without(canon, b, key)
  {
    WithoutSplits(canon, a + [e], b, key);
    WithoutSplits(canon, a, [e], key);
    WithoutOnly(canon, e, key);
  }

  lemma WithoutOnly(canon: string -> string, e: Entry, key: string)
    requires SameKey(canon, e.key, key)
    ensures Without(canon, [e], key) == []
  {
    assert [e][1..] == [];
  }

  /** What Get returns for any other key is the same before and after Set and Del. */
  lemma OtherKeysAreUntouched(canon: string -> string, es: seq<Entry>, key: string, value: string, other: string)
    requires !SameKey(canon, key, other)
    ensures Lookup(canon, Replaced(canon, es, key, value), other) == Lookup(canon, es, other)
    ensures Lookup(canon, Without(canon, es, key), other) == Lookup(canon, es, other)
  {
    WithoutKeepsOthers(canon, es, key, other);
    WithoutKeepsOthers(canon, Replaced(canon, es, key, value), key, other);
    SetKeepsOthers(canon, es, key, value);
    LookupIsFirstMatching(canon, es, other);
    LookupIsFirstMatching(canon, Without(canon, es, key), other);
    LookupIsFirstMatching(canon, Replaced(canon, es, key, value), other);
  }

  /** The last of two Sets of the same key wins, casing included. */
  lemma LastSetWins(canon: string -> string, es: seq<Entry>, key: string, v: string, key': string, v': string)
    requires SameKey(canon, key, key')
    ensures Replaced(canon, Replaced(canon, es, key, v), key', v') == Replaced(canon, es, key', v')
  {
    var i := FirstMatch(canon, es, key);
    var once := Replaced(canon, es, key, v);
    SameMatches(canon, es, key, key');
    FirstMatchIs(canon, once, key', i);
    if i < |es| {
      ReplacedAgain(canon, es, i, key, v, key', v');
    } else {
      assert once[i + 1..] == [] && once[..i] == es;
    }
  }

  lemma ReplacedAgain(canon: string -> string, es: seq<Entry>, i: nat,
                      key: string, v: string, key': string, v': string)
    requires SameKey(canon, key, key') && i < |es|
    ensures i < |ReplacedAt(canon, es, i, key, v)|
    ensures ReplacedAt(canon, ReplacedAt(canon, es, i, key, v), i, key', v') == ReplacedAt(canon, es, i, key', v')
  {
    var once, rest := ReplacedAt(canon, es, i, key, v), Without(canon, es[i + 1..], key);
    SameMatches(canon, es[i + 1..], key, key');
    assert once[i + 1..] == rest && once[..i] == es[..i];
    WithoutIsIdempotent(canon, es[i + 1..], key');
  }

  lemma {:induction false} SameMatches(canon: string -> string, es: seq<Entry>, key: string, key': string)
    requires SameKey(canon, key, key')
    ensures FirstMatch(canon, es, key) == FirstMatch(canon, es, key')
    ensures Without(canon, es, key) == Without(canon, es, key')
  {
    if es != [] {
      SameMatches(canon, es[1..], key, key');
    }
  }

  lemma {:induction false} FirstMatchIs(canon: string -> string, es: seq<Entry>, key: string, i: nat)
    requires i < |es| && SameKey(canon, es[i].key, key)
    requires forall j :: 0 <= j < i ==> !SameKey(canon, es[j].key, key)
    ensures FirstMatch(canon, es, key) == i
  {
    if i > 0 {
      FirstMatchIs(canon, es[1..], key, i - 1);
    }
  }

  /** ToHTTPHeader: the values under one raw key, in order. */
  function ValuesOf(es: seq<Entry>, key: string): seq<string> {
    if es == [] then []
    else (if es[0].key == key then [es[0].value] else []) + ValuesOf(es[1..], key)
  }

  lemma {:induction false} ValuesOfSplits(a: seq<Entry>, b: seq<Entry>, key: string)
    ensures ValuesOf(a + b, key) == ValuesOf(a, key) + ValuesOf(b, key)
  {
    if a == [] {
      assert a + b == b;
    } else {
      assert (a + b)[1..] == a[1..] + b;
      ValuesOfSplits(a[1..], b, key);
    }
  }

  lemma ValuesOfOne(es: seq<Entry>, i: nat, key: string)
    requires i < |es|
    ensures ValuesOf(es[..i + 1], key)
         == ValuesOf(es[..i], key) + if es[i].key == key then [es[i].value] else []
  {
    assert es[..i + 1] == es[..i] + [es[i]];
    ValuesOfSplits(es[..i], [es[i]], key);
    assert [es[i]][1..] == [];
  }

  /** The values under a key are those of its entries, in the order of the entries: that of
      entry `i` comes after as many as there are before it. */
  lemma ValuesOfAt(es: seq<Entry>, i: nat)
    requires i < |es|
    ensures |ValuesOf(es[..i], es[i].key)| < |ValuesOf(es, es[i].key)|
    ensures ValuesOf(es, es[i].key)[|ValuesOf(es[..i], es[i].key)|] == es[i].value
  {
    var key := es[i].key;
    ValuesOfOne(es, i, key);
    assert es == es[..i + 1] + es[i + 1..];
    ValuesOfSplits(es[..i + 1], es[i + 1..], key);
  }

  lemma {:induction false} ValuesOfSome(es: seq<Entry>, key: string)
    ensures ValuesOf(es, key) != [] <==> exists i :: 0 <= i < |es| && es[i].key == key
  {
    if es != [] {
      ValuesOfSome(es[1..], key);
      if i :| 0 <= i < |es| && es[i].key == key {
        assert i > 0 ==> es[1..][i - 1].key == key;
      }
    }
  }
}
