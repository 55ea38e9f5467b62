/** Which keys the comparison of schemas can be trusted with: exactly those of which no two
    lists are written alike. */
module SchemaKeys {
  import opened Options
  import opened JsonSchema
  import opened SchemaOrder
  import opened SchemaTheorems

  /** Every key, at every depth, is in `keys`. */
  ghost predicate KeysIn(v: Json, keys: iset<string>)
    decreases v
  {
    v.Object? ==> forall k :: k in v.fields ==> k in keys && KeysIn(v.fields[k], keys)
  }

  /** An object with its keys at the top in `top` and those further down in `nested`. */
  ghost predicate Admits(v: Json, top: iset<string>, nested: iset<string>) {
    v.Object? && forall k :: k in v.fields ==> k in top && KeysIn(v.fields[k], nested)
  }

  /** Among such documents, schemas are equal exactly for equal skeletons. */
  ghost predicate ComparisonIsExact(top: iset<string>, nested: iset<string>) {
    forall v, w, s, t ::
      Admits(v, top, nested) && Admits(w, top, nested) && IsSchemaOf(v, s) && IsSchemaOf(w, t) ==>
        (s == t <==> SameSkeleton(v, w))
  }

  ghost predicate AllIn(p: seq<string>, keys: iset<string>) {
    forall i :: 0 <= i < |p| ==> p[i] in keys
  }

  /** A key path that such a document can have. */
  ghost predicate IsListOver(p: seq<string>, top: iset<string>, nested: iset<string>) {
    p != [] && p[0] in top && AllIn(p[1..], nested)
  }

  ghost predicate NoneAlike(top: iset<string>, nested: iset<string>) {
    forall p, q :: IsListOver(p, top, nested) && IsListOver(q, top, nested) && p != q ==>
      PathString("", p) != PathString("", q)
  }

  // ---- If no two lists are written alike ----

  lemma {:induction false} NodeKeysIn(v: Json, p: seq<string>, keys: iset<string>)
    requires KeysIn(v, keys) && NodeAt(v, p).Some?
    ensures AllIn(p, keys)
    decreases |p|
  {
    if p != [] {
      NodeKeysIn(v.fields[p[0]], p[1..], keys);
      assert forall i :: 1 <= i < |p| ==> p[i] == p[1..][i - 1];
    }
  }

  lemma NodeIsListOver(v: Json, p: seq<string>, top: iset<string>, nested: iset<string>)
    requires Admits(v, top, nested) && IsNode(v, p)
    ensures IsListOver(p, top, nested)
  {
    NodeKeysIn(v.fields[p[0]], p[1..], nested);
  }

  lemma AdmittedPathsApart(v: Json, w: Json, top: iset<string>, nested: iset<string>)
    requires NoneAlike(top, nested) && Admits(v, top, nested) && Admits(w, top, nested)
    ensures PathsApart(v, w)
  {
    forall p, q | IsNode(v, p) && IsNode(w, q) && PathString("", p) == PathString("", q)
      ensures p == q
    {
      NodeIsListOver(v, p, top, nested);
      NodeIsListOver(w, q, top, nested);
    }
  }

  lemma NoneAlikeIsExact(top: iset<string>, nested: iset<string>)
    requires NoneAlike(top, nested)
    ensures ComparisonIsExact(top, nested)
  {
    forall v, w, s, t |
      Admits(v, top, nested) && Admits(w, top, nested) && IsSchemaOf(v, s) && IsSchemaOf(w, t)
      ensures s == t <==> SameSkeleton(v, w)
    {
      AdmittedPathsApart(v, v, top, nested);
      AdmittedPathsApart(w, w, top, nested);
      AdmittedPathsApart(v, w, top, nested);
      ApartSchemasEqualIff(v, w, s, t);
    }
  }

  // ---- A document with a null at one key list and only the objects above another ----

  const HOLLOW := Object(map[])

  /** `v` under a list of keys. */
  function Under(p: seq<string>, v: Json): Json {
    if p == [] then v else Object(map[p[0] := Under(p[1..], v)])
  }

  /** Neither list goes on where the other ends. */
  predicate Parts(p: seq<string>, q: seq<string>) {
    !(p <= q) && !(q <= p)
  }

  function Fork(p: seq<string>, q: seq<string>): (v: Json)
    requires Parts(p, q)
    ensures v.Object?
  {
    if p[0] == q[0] then
      Object(map[p[0] := Fork(p[1..], q[1..])])
    else if |q| == 1 then
      Under(p, Null)
    else
      Object(map[p[0] := Under(p[1..], Null), q[0] := Under(q[1..|q| - 1], HOLLOW)])
  }

  lemma PrefixTail(r: seq<string>, p: seq<string>)
    requires r != [] && p != []
    ensures r <= p <==> r[0] == p[0] && r[1..] <= p[1..]
    ensures r == p <==> r[0] == p[0] && r[1..] == p[1..]
  {
    assert r == [r[0]] + r[1..] && p == [p[0]] + p[1..];
  }

  lemma {:induction false} UnderTypes(p: seq<string>, leaf: Json, r: seq<string>)
    requires leaf == Null || leaf == HOLLOW
    ensures TypeAt(Under(p, leaf), r)
         == if r == p then Some(TypeName(leaf)) else if r <= p then Some("object") else None
    decreases |p|
  {
    if p != [] && r != [] {
      PrefixTail(r, p);
      if r[0] == p[0] {
        UnderTypes(p[1..], leaf, r[1..]);
      }
    }
  }

  /** The type at `r` in Fork(p, q). */
  function ForkType(p: seq<string>, q: seq<string>, r: seq<string>): Option<string> {
    if r == p then Some("null") else if r < p || r < q then Some("object") else None
  }

  lemma {:induction false} ForkTypes(p: seq<string>, q: seq<string>, r: seq<string>)
    requires Parts(p, q)
    ensures TypeAt(Fork(p, q), r) == ForkType(p, q, r)
    decreases |p|
  {
    if r != [] {
      PrefixTail(r, p);
      PrefixTail(r, q);
      PrefixTail(p, q);
      PrefixTail(q, p);
      if p[0] == q[0] {
        if r[0] == p[0] {
          ForkTypes(p[1..], q[1..], r[1..]);
        }
      } else {
        ForkedTypes(p, q, r);
      }
    }
  }

  /** Where the two lists part. */
  lemma ForkedTypes(p: seq<string>, q: seq<string>, r: seq<string>)
    requires Parts(p, q) && r != [] && p[0] != q[0]
    ensures TypeAt(Fork(p, q), r) == ForkType(p, q, r)
  {
    PrefixTail(r, p);
    PrefixTail(r, q);
    if |q| == 1 {
      UnderTypes(p, Null, r);
    } else {
      UnderTypes(p[1..], Null, r[1..]);
      var q' := q[1..|q| - 1];
      assert q[1..] == q' + [q[|q| - 1]];
      UnderTypes(q', HOLLOW, r[1..]);
    }
  }

  // ---- Its schema ----

  lemma {:induction false} PathStringConcat(prefix: string, p: seq<string>, q: seq<string>)
    ensures PathString(prefix, p + q) == PathString(PathString(prefix, p), q)
    decreases |p|
  {
    if p == [] {
      assert p + q == q;
    } else {
      assert (p + q)[1..] == p[1..] + q;
      PathStringConcat(Child(prefix, p[0]), p[1..], q);
    }
  }

  lemma PrefixIsWrittenOtherwise(r: seq<string>, p: seq<string>)
    requires r < p && PathString("", p) != ""
    ensures PathString("", r) != PathString("", p)
  {
    var rest := p[|r|..];
    assert p == r + rest;
    PathStringConcat("", r, rest);
    if PathString("", r) != "" {
      PathStringLength(PathString("", r), rest);
    }
  }

  /** An object above one of the lists is written as `x`. */
  ghost predicate IsAbove(p: seq<string>, q: seq<string>, x: string) {
    exists r: seq<string> :: r != [] && (r < p || r < q) && PathString("", r) == x
  }

  lemma AboveIsSymmetric(p: seq<string>, q: seq<string>, x: string)
    ensures IsAbove(p, q, x) <==> IsAbove(q, p, x)
  {
  }

  lemma ForkNode(p: seq<string>, q: seq<string>, r: seq<string>)
    requires Parts(p, q) && r != []
    requires PathString("", p) == PathString("", q) != ""
    ensures IsNode(Fork(p, q), r) <==> r == p || r < p || r < q
    ensures IsNode(Fork(p, q), r) ==> (PathString("", r) == PathString("", p) <==> r == p)
  {
    ForkTypes(p, q, r);
    if r < p {
      PrefixIsWrittenOtherwise(r, p);
    }
    if r < q {
      PrefixIsWrittenOtherwise(r, q);
    }
  }

  lemma ForkSchema(p: seq<string>, q: seq<string>, s: Schema, x: string)
    requires Parts(p, q) && PathString("", p) == PathString("", q) != ""
    requires IsSchemaOf(Fork(p, q), s)
    ensures x in s <==> x == PathString("", p) || IsAbove(p, q, x)
    ensures x in s ==> s[x] == if x == PathString("", p) then "null" else "object"
  {
    var v := Fork(p, q);
    FlattensOutcome(v, "", v.fields.Keys, map[], s, x);
    if x in s {
      var r := SchemaEntryHasNode(v, s, x);
      ForkNode(p, q, r);
      ForkTypes(p, q, r);
    }
    if x == PathString("", p) {
      ForkNode(p, q, p);
      assert Writes(v, "", v.fields.Keys, p, x);
    }
    if r :| r != [] && (r < p || r < q) && PathString("", r) == x {
      ForkNode(p, q, r);
      assert Writes(v, "", v.fields.Keys, r, x);
    }
  }

  /** Two lists that are written alike: the null at one or at the other, in one schema. */
  lemma ForksAreConfused(p: seq<string>, q: seq<string>, s: Schema, t: Schema)
    requires Parts(p, q) && Parts(q, p) && PathString("", p) == PathString("", q) != ""
    requires IsSchemaOf(Fork(p, q), s) && IsSchemaOf(Fork(q, p), t)
    ensures s == t && !SameSkeleton(Fork(p, q), Fork(q, p))
  {
    forall x: string
      ensures (x in s <==> x in t) && (x in s ==> s[x] == t[x])
    {
      ForkSchema(p, q, s, x);
      ForkSchema(q, p, t, x);
      AboveIsSymmetric(p, q, x);
    }
    if SameSkeleton(Fork(p, q), Fork(q, p)) {
      SkeletonGivesTypes(Fork(p, q), Fork(q, p), p);
      ForkTypes(p, q, p);
      ForkTypes(q, p, p);
    }
  }

  // ---- Its keys ----

  lemma {:induction false} UnderKeys(p: seq<string>, leaf: Json, keys: iset<string>)
    requires (leaf == Null || leaf == HOLLOW) && AllIn(p, keys)
    ensures KeysIn(Under(p, leaf), keys)
    decreases |p|
  {
    if p != [] {
      UnderKeys(p[1..], leaf, keys);
    }
  }

  lemma {:induction false} ForkKeys(p: seq<string>, q: seq<string>, keys: iset<string>)
    requires Parts(p, q) && AllIn(p, keys) && AllIn(q, keys)
    ensures KeysIn(Fork(p, q), keys)
    decreases |p|
  {
    if p[0] == q[0] {
      PrefixTail(p, q);
      PrefixTail(q, p);
      ForkKeys(p[1..], q[1..], keys);
    } else {
      UnderKeys(p[1..], Null, keys);
      if |q| > 1 {
        UnderKeys(q[1..|q| - 1], HOLLOW, keys);
      }
    }
  }

  lemma ForkIsAdmitted(p: seq<string>, q: seq<string>, top: iset<string>, nested: iset<string>)
    requires Parts(p, q) && IsListOver(p, top, nested) && IsListOver(q, top, nested)
    ensures Admits(Fork(p, q), top, nested)
  {
    if p[0] == q[0] {
      PrefixTail(p, q);
      PrefixTail(q, p);
      ForkKeys(p[1..], q[1..], nested);
    } else {
      UnderKeys(p[1..], Null, nested);
      if |q| > 1 {
        assert q[1..|q| - 1] == q[1..][..|q| - 2];
        UnderKeys(q[1..|q| - 1], HOLLOW, nested);
      }
    }
  }

  // ---- If two lists are written alike ----

  /** Only empty keys are written as nothing. */
  lemma {:induction false} NothingIsEmptyKeys(p: seq<string>)
    requires PathString("", p) == ""
    ensures forall i :: 0 <= i < |p| ==> p[i] == ""
    decreases |p|
  {
    if p != [] {
      if p[0] != "" && |p| > 1 {
        PathStringLength(p[0], p[1..]);
      }
      NothingIsEmptyKeys(p[1..]);
      assert forall i :: 1 <= i < |p| ==> p[i] == p[1..][i - 1];
    }
  }

  /** One empty key, and two of them, around an empty object. */
  lemma EmptyKeysAreConfused() returns (s: Schema)
    ensures IsSchemaOf(Under([""], HOLLOW), s) && IsSchemaOf(Under(["", ""], HOLLOW), s)
    ensures !SameSkeleton(Under([""], HOLLOW), Under(["", ""], HOLLOW))
  {
    var v, w := Under([""], HOLLOW), Under(["", ""], HOLLOW);
    assert ["", ""][1..] == [""] && [""][1..] == [];
    assert v == Object(map["" := HOLLOW]) && w == Object(map["" := v]);
    s := map["" := "object"];
    assert s["" := "object"] == s;
    assert Flattens(HOLLOW, "", {}, s, s);
    OneKey(v, "", s, s);
    OneKey(v, "", map[], s);
    OneKey(w, "", map[], s);
    assert "" in v.fields && "" !in HOLLOW.fields;
  }

  /** An object with the empty key alone. */
  lemma OneKey(v: Json, prefix: string, s: Schema, s': Schema)
    requires v.Object? && v.fields.Keys == {""} && Visits(v, prefix, "", s, s')
    ensures Flattens(v, prefix, v.fields.Keys, s, s')
  {
    assert Flattens(v, prefix, {}, s, s);
    VisitLast(v, prefix, {}, "", s, s, s');
    assert {} + {""} == {""};
  }

  lemma EmptyKeysAreAdmitted(top: iset<string>, nested: iset<string>)
    requires "" in top && "" in nested
    ensures !ComparisonIsExact(top, nested)
  {
    var s := EmptyKeysAreConfused();
    UnderKeys([], HOLLOW, nested);
    UnderKeys([""], HOLLOW, nested);
    assert ["", ""][1..] == [""] && [""][1..] == [];
    assert Admits(Under([""], HOLLOW), top, nested) && Admits(Under(["", ""], HOLLOW), top, nested);
  }

  lemma AlikeListsPart(p: seq<string>, q: seq<string>)
    requires p != q && PathString("", p) == PathString("", q) != ""
    ensures Parts(p, q) && Parts(q, p)
  {
    if p <= q {
      PrefixIsWrittenOtherwise(p, q);
    }
    if q <= p {
      PrefixIsWrittenOtherwise(q, p);
    }
  }

  lemma AlikeIsNotExact(p: seq<string>, q: seq<string>, top: iset<string>, nested: iset<string>)
    requires IsListOver(p, top, nested) && IsListOver(q, top, nested)
    requires p != q && PathString("", p) == PathString("", q)
    ensures !ComparisonIsExact(top, nested)
  {
    if PathString("", p) == "" {
      NothingIsEmptyKeys(p);
      NothingIsEmptyKeys(q);
      var longer := if |p| > |q| then p else q;
      assert |longer| > 1 && longer[1..][0] == "";
      EmptyKeysAreAdmitted(top, nested);
    } else {
      AlikeListsPart(p, q);
      ForkIsAdmitted(p, q, top, nested);
      ForkIsAdmitted(q, p, top, nested);
      var v, w := Fork(p, q), Fork(q, p);
      var s := SomeOutcome(v, "", v.fields.Keys, map[]);
      var t := SomeOutcome(w, "", w.fields.Keys, map[]);
      assert IsSchemaOf(v, s) && IsSchemaOf(w, t);
      ForksAreConfused(p, q, s, t);
    }
  }

  /** For any keys allowed at the top and any allowed further down: schemas tell documents
      apart correctly if and only if no two lists of those keys are written alike. */
  lemma ExactIffNoneAlike(top: iset<string>, nested: iset<string>)
    ensures ComparisonIsExact(top, nested) <==> NoneAlike(top, nested)
  {
    if NoneAlike(top, nested) {
      NoneAlikeIsExact(top, nested);
    } else {
      var p, q :| IsListOver(p, top, nested) && IsListOver(q, top, nested)
        && PathString("", p) == PathString("", q) && p != q;
      AlikeIsNotExact(p, q, top, nested);
    }
  }

  // ---- Dots, and the empty key at the top ----

  ghost function DotFreeKeys(): iset<string> {
    iset k: string | DotFree(k)
  }

  lemma DotFreeListsDiffer(top: iset<string>)
    requires "" !in top && forall k :: k in top ==> DotFree(k)
    ensures NoneAlike(top, DotFreeKeys())
  {
    forall p, q | IsListOver(p, top, DotFreeKeys()) && IsListOver(q, top, DotFreeKeys())
        && PathString("", p) == PathString("", q)
      ensures p == q
    {
      assert forall i :: 1 <= i < |p| ==> p[i] == p[1..][i - 1];
      assert forall i :: 1 <= i < |q| ==> q[i] == q[1..][i - 1];
      PathStringIsInjective(p, q);
    }
  }

  /** With dot-free keys, comparison is exact if and only if the empty key is not allowed
      at the top, where it is taken for "no prefix". Further down it does no harm. */
  lemma ExactIffNoEmptyTopKey(top: iset<string>)
    ensures ComparisonIsExact(top * DotFreeKeys(), DotFreeKeys()) <==> "" !in top
  {
    if "" in top {
      EmptyKeysAreAdmitted(top * DotFreeKeys(), DotFreeKeys());
    } else {
      DotFreeListsDiffer(top * DotFreeKeys());
      NoneAlikeIsExact(top * DotFreeKeys(), DotFreeKeys());
    }
  }

  /** What the dots of a key stand for. */
  function Pieces(k: string): (p: seq<string>)
    ensures |p| > 0
  {
    if DotFree(k) then [k] else [k[..FirstDot(k)]] + Pieces(k[FirstDot(k) + 1..])
  }

  function FirstDot(k: string): (i: nat)
    requires !DotFree(k)
    ensures i < |k| && k[i] == '.' && DotFree(k[..i])
  {
    if k[0] == '.' then 0 else 1 + FirstDot(k[1..])
  }

  lemma {:induction false} PiecesAreDotFree(k: string)
    ensures forall i :: 0 <= i < |Pieces(k)| ==> DotFree(Pieces(k)[i])
    decreases |k|
  {
    if !DotFree(k) {
      PiecesAreDotFree(k[FirstDot(k) + 1..]);
    }
  }

  lemma ChildOfPieces(prefix: string, k: string)
    requires prefix != "" && !DotFree(k)
    ensures Child(Child(prefix, k[..FirstDot(k)]), k[FirstDot(k) + 1..]) == Child(prefix, k)
  {
    var i := FirstDot(k);
    assert k == k[..i] + "." + k[i + 1..];
    assert (prefix + "." + k[..i]) + "." + k[i + 1..] == prefix + "." + (k[..i] + "." + k[i + 1..]);
  }

  lemma OneWritten(prefix: string, k: string)
    ensures PathString(prefix, [k]) == Child(prefix, k)
  {
    assert [k][1..] == [];
  }

  lemma {:induction false} PiecesAreWrittenAlike(prefix: string, k: string)
    requires prefix != ""
    ensures PathString(prefix, Pieces(k)) == Child(prefix, k)
    decreases |k|
  {
    if DotFree(k) {
      OneWritten(prefix, k);
    } else {
      var head, rest := k[..FirstDot(k)], k[FirstDot(k) + 1..];
      ChildOfPieces(prefix, k);
      PiecesAreWrittenAlike(Child(prefix, head), rest);
      PathStringConcat(prefix, [head], Pieces(rest));
      OneWritten(prefix, head);
    }
  }

  ghost function KeysBeside(k: string): iset<string> {
    iset j: string | DotFree(j) || j == k
  }

  lemma DottedKeyIsAlike(k: string)
    requires !DotFree(k)
    ensures !NoneAlike(KeysBeside(k) - iset{""}, KeysBeside(k))
  {
    var p, q := ["a"] + [k], ["a"] + Pieces(k);
    UnderA(k);
    PiecesAreDotFree(k);
    assert p[1..] == [k] && q[1..] == Pieces(k);
    assert p[1] == k && DotFree(q[1]);
  }

  lemma UnderA(k: string)
    ensures PathString("", ["a"] + [k]) == PathString("", ["a"] + Pieces(k))
  {
    OneWritten("", "a");
    PathStringConcat("", ["a"], [k]);
    PathStringConcat("", ["a"], Pieces(k));
    OneWritten("a", k);
    PiecesAreWrittenAlike("a", k);
  }

  /** With a key `k` allowed beside the dot-free ones, and no empty key at the top,
      comparison is exact if and only if `k` has no dot. */
  lemma ExactIffDotFree(k: string)
    ensures ComparisonIsExact(KeysBeside(k) - iset{""}, KeysBeside(k)) <==> DotFree(k)
  {
    if DotFree(k) {
      assert KeysBeside(k) == DotFreeKeys();
      assert (KeysBeside(k) - iset{""}) * DotFreeKeys() == KeysBeside(k) - iset{""};
      ExactIffNoEmptyTopKey(KeysBeside(k) - iset{""});
    } else {
      DottedKeyIsAlike(k);
      ExactIffNoneAlike(KeysBeside(k) - iset{""}, KeysBeside(k));
    }
  }
}
