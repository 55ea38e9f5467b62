/** What a learned schema tells about a document whose keys have no dots. */
module SchemaTheorems {
  import opened Options
  import opened JsonSchema
  import opened SchemaOrder

  predicate DotFree(k: string) {
    '.' !in k
  }

  /** Every key, at every depth, is free of dots. */
  predicate KeysDotFree(v: Json)
    decreases v
  {
    v.Object? ==> forall k :: k in v.fields ==> DotFree(k) && KeysDotFree(v.fields[k])
  }

  /** The documents that dotted paths can describe: no dots in keys, and no empty key at
      the top, where it would be taken for "no prefix". */
  predicate IsClean(v: Json) {
    v.Object? && KeysDotFree(v) && "" !in v.fields
  }

  // ---- A path string splits back into one key path ----

  ghost predicate AllDotFree(p: seq<string>) {
    forall i :: 0 <= i < |p| ==> DotFree(p[i])
  }

  function Dotted(p: seq<string>): string {
    if p == [] then "" else "." + p[0] + Dotted(p[1..])
  }

  lemma {:induction false} PathStringIsDotted(prefix: string, p: seq<string>)
    requires prefix != ""
    ensures PathString(prefix, p) == prefix + Dotted(p)
    decreases |p|
  {
    if p != [] {
      PathStringIsDotted(Child(prefix, p[0]), p[1..]);
    }
  }

  /** The part before the first dot is determined. */
  lemma SameHead(a: string, b: string, x: string, y: string)
    requires DotFree(a) && DotFree(b) && a + x == b + y
    requires (x == "" || x[0] == '.') && (y == "" || y[0] == '.')
    ensures a == b && x == y
  {
    var u, w := a + x, b + y;
    assert forall i :: 0 <= i < |a| ==> u[i] == a[i] != '.';
    assert forall i :: 0 <= i < |b| ==> w[i] == b[i] != '.';
    assert x != "" ==> u[|a|] == '.';
    assert y != "" ==> w[|b|] == '.';
    assert |a| == |b|;
    assert a == u[..|a|] == w[..|a|] == b;
    assert x == u[|a|..] == w[|a|..] == y;
  }

  lemma {:induction false} DottedIsInjective(p: seq<string>, q: seq<string>)
    requires AllDotFree(p) && AllDotFree(q) && Dotted(p) == Dotted(q)
    ensures p == q
  {
    if p != [] && q != [] {
      assert (p[0] + Dotted(p[1..])) == Dotted(p)[1..] == Dotted(q)[1..] == q[0] + Dotted(q[1..]);
      SameHead(p[0], q[0], Dotted(p[1..]), Dotted(q[1..]));
      DottedIsInjective(p[1..], q[1..]);
    }
  }

  lemma PathStringIsInjective(p: seq<string>, q: seq<string>)
    requires p != [] && q != [] && AllDotFree(p) && AllDotFree(q) && p[0] != "" && q[0] != ""
    requires PathString("", p) == PathString("", q)
    ensures p == q
  {
    PathStringIsDotted(p[0], p[1..]);
    PathStringIsDotted(q[0], q[1..]);
    SameHead(p[0], q[0], Dotted(p[1..]), Dotted(q[1..]));
    DottedIsInjective(p[1..], q[1..]);
  }

  lemma {:induction false} NodeKeysDotFree(v: Json, p: seq<string>)
    requires KeysDotFree(v) && NodeAt(v, p).Some?
    ensures AllDotFree(p)
    decreases |p|
  {
    if p != [] {
      NodeKeysDotFree(v.fields[p[0]], p[1..]);
    }
  }

  /** In clean documents, a path string belongs to one key path only. */
  lemma CleanPathsAreUnique(v: Json, w: Json, p: seq<string>, q: seq<string>)
    requires IsClean(v) && IsClean(w) && IsNode(v, p) && IsNode(w, q)
    requires PathString("", p) == PathString("", q)
    ensures p == q
  {
    NodeKeysDotFree(v, p);
    NodeKeysDotFree(w, q);
    PathStringIsInjective(p, q);
  }

  /** No two key paths of the two documents are written alike. */
  ghost predicate PathsApart(v: Json, w: Json) {
    && v.Object? && w.Object?
    && forall p, q :: IsNode(v, p) && IsNode(w, q) && PathString("", p) == PathString("", q) ==> p == q
  }

  lemma CleanPathsApart(v: Json, w: Json)
    requires IsClean(v) && IsClean(w)
    ensures PathsApart(v, w)
  {
    forall p, q | IsNode(v, p) && IsNode(w, q) && PathString("", p) == PathString("", q)
      ensures p == q
    {
      CleanPathsAreUnique(v, w, p, q);
    }
  }

  lemma CleanIsOrderIndependent(v: Json)
    requires IsClean(v)
    ensures OrderIndependent(v)
  {
    forall p, q | IsNode(v, p) && IsNode(v, q) && PathString("", p) == PathString("", q) != ""
      ensures TypeAt(v, p) == TypeAt(v, q)
    {
      CleanPathsAreUnique(v, v, p, q);
    }
    OrderIndependentIff(v);
  }

  // ---- The schema is exactly the set of nodes with their types ----

  lemma NodeIsInSchema(v: Json, s: Schema, p: seq<string>)
    requires PathsApart(v, v) && IsSchemaOf(v, s) && IsNode(v, p)
    ensures PathString("", p) in s && TypeAt(v, p) == Some(s[PathString("", p)])
  {
    var x := PathString("", p);
    FlattensOutcome(v, "", v.fields.Keys, map[], s, x);
    assert Writes(v, "", v.fields.Keys, p, x);
    var q :| Writes(v, "", v.fields.Keys, q, x) && TypeAt(v, q) == Some(s[x]);
    assert IsNode(v, q);
  }

  lemma SchemaEntryHasNode(v: Json, s: Schema, x: string) returns (p: seq<string>)
    requires v.Object? && IsSchemaOf(v, s) && x in s
    ensures IsNode(v, p) && PathString("", p) == x && TypeAt(v, p) == Some(s[x])
  {
    FlattensOutcome(v, "", v.fields.Keys, map[], s, x);
    p :| Writes(v, "", v.fields.Keys, p, x) && TypeAt(v, p) == Some(s[x]);
  }

  lemma {:induction false} NodeAtSplits(v: Json, p: seq<string>, k: string)
    requires NodeAt(v, p + [k]).Some?
    ensures NodeAt(v, p).Some? && NodeAt(v, p).value.Object?
    decreases |p|
  {
    if p != [] {
      assert (p + [k])[1..] == p[1..] + [k];
      NodeAtSplits(v.fields[p[0]], p[1..], k);
    } else {
      assert ([] + [k])[0] == k;
    }
  }

  lemma {:induction false} PathStringAppend(prefix: string, p: seq<string>, k: string)
    ensures PathString(prefix, p + [k]) == Child(PathString(prefix, p), k)
    decreases |p|
  {
    if p != [] {
      assert (p + [k])[1..] == p[1..] + [k];
      PathStringAppend(Child(prefix, p[0]), p[1..], k);
    } else {
      assert [k][1..] == [];
      assert p + [k] == [k];
    }
  }

  /** Every nested path's parent is in the schema, as an object. */
  lemma ParentIsObject(v: Json, s: Schema, x: string) returns (parent: string, k: string)
    requires IsClean(v) && IsSchemaOf(v, s) && x in s && !DotFree(x)
    ensures x == parent + "." + k && DotFree(k)
    ensures parent in s && s[parent] == "object"
  {
    var p := SchemaEntryHasNode(v, s, x);
    NodeKeysDotFree(v, p);
    var n := |p| - 1;
    var head := p[0];
    assert x == PathString(head, p[1..]);
    assert n == 0 ==> x == head;
    k := p[n];
    assert p == p[..n] + [k];
    NodeAtSplits(v, p[..n], k);
    CleanPathsApart(v, v);
    PathStringAppend("", p[..n], k);
    NodeIsInSchema(v, s, p[..n]);
    parent := PathString("", p[..n]);
    PathStringIsDotted(p[0], p[..n][1..]);
    assert parent != "";
  }

  // ---- Comparing schemas compares structure ----

  /** The same of the six kinds of JSON values. */
  predicate SameKind(v: Json, w: Json) {
    || (v.Object? && w.Object?) || (v.Array? && w.Array?) || (v.String? && w.String?)
    || (v.Number? && w.Number?) || (v.Bool? && w.Bool?) || (v.Null? && w.Null?)
  }

  /** Same keys and same kinds all the way down; arrays are opaque. */
  predicate SameSkeleton(v: Json, w: Json)
    decreases v
  {
    && SameKind(v, w)
    && (v.Object? ==>
          && w.Object? && v.fields.Keys == w.fields.Keys
          && forall k :: k in v.fields ==> SameSkeleton(v.fields[k], w.fields[k]))
  }

  /** The six type names tell the six kinds apart. */
  lemma TypeNameIff(v: Json, w: Json)
    ensures TypeName(v) == TypeName(w) <==> SameKind(v, w)
  {
    assert "object"[0] == 'o' && "array"[0] == 'a' && "string"[0] == 's' && "bool"[0] == 'b';
    assert "number"[0] == "null"[0] == 'n' && |"number"| == 6 && |"null"| == 4;
  }

  /** What the schema of a document records for each kind of node, by name, where key paths
      are told apart. */
  lemma NodeIsNamed(v: Json, s: Schema, p: seq<string>)
    requires PathsApart(v, v) && IsSchemaOf(v, s) && IsNode(v, p)
    ensures PathString("", p) in s
    ensures NodeAt(v, p).value.Object? <==> s[PathString("", p)] == "object"
    ensures NodeAt(v, p).value.Array? <==> s[PathString("", p)] == "array"
    ensures NodeAt(v, p).value.String? <==> s[PathString("", p)] == "string"
    ensures NodeAt(v, p).value.Number? <==> s[PathString("", p)] == "number"
    ensures NodeAt(v, p).value.Bool? <==> s[PathString("", p)] == "bool"
    ensures NodeAt(v, p).value.Null? <==> s[PathString("", p)] == "null"
  {
    NodeIsInSchema(v, s, p);
    var w := NodeAt(v, p).value;
    assert s[PathString("", p)] == TypeName(w);
    TypeNameIff(w, Object(map[]));
    TypeNameIff(w, Array([]));
    TypeNameIff(w, String(""));
    TypeNameIff(w, Number(0.0));
    TypeNameIff(w, Bool(false));
    TypeNameIff(w, Null);
  }

  lemma {:induction false} SkeletonGivesTypes(v: Json, w: Json, p: seq<string>)
    requires SameSkeleton(v, w)
    ensures TypeAt(v, p) == TypeAt(w, p)
    decreases |p|
  {
    TypeNameIff(v, w);
    if p != [] && v.Object? && p[0] in v.fields {
      SkeletonGivesTypes(v.fields[p[0]], w.fields[p[0]], p[1..]);
    }
  }

  lemma {:induction false} TypesGiveSkeleton(v: Json, w: Json)
    requires forall p :: TypeAt(v, p) == TypeAt(w, p)
    ensures SameSkeleton(v, w)
    decreases v
  {
    assert TypeAt(v, []) == TypeAt(w, []);
    TypeNameIff(v, w);
    if v.Object? {
      forall k: string
        ensures k in v.fields <==> k in w.fields
        ensures k in v.fields ==> SameSkeleton(v.fields[k], w.fields[k])
      {
        assert TypeAt(v, [k]) == TypeAt(w, [k]);
        assert [k][1..] == [];
        assert k in v.fields <==> NodeAt(v, [k]).Some?;
        assert k in w.fields <==> NodeAt(w, [k]).Some?;
        if k in v.fields && k in w.fields {
          forall p: seq<string>
            ensures TypeAt(v.fields[k], p) == TypeAt(w.fields[k], p)
          {
            assert ([k] + p)[1..] == p;
            assert TypeAt(v, [k] + p) == TypeAt(w, [k] + p);
          }
          TypesGiveSkeleton(v.fields[k], w.fields[k]);
        }
      }
    }
  }

  /** Documents whose key paths are told apart have equal schemas, whatever the iteration
      orders, if and only if they have the same skeleton. */
  lemma ApartSchemasEqualIff(v: Json, w: Json, s: Schema, t: Schema)
    requires PathsApart(v, v) && PathsApart(w, w) && PathsApart(v, w)
    requires IsSchemaOf(v, s) && IsSchemaOf(w, t)
    ensures s == t <==> SameSkeleton(v, w)
  {
    if s == t {
      EqualSchemasGiveSkeleton(v, w, s);
    }
    if SameSkeleton(v, w) {
      forall x: string
        ensures (x in s <==> x in t) && (x in s ==> s[x] == t[x])
      {
        if x in s { EntryCarriesOver(v, w, s, t, x); }
        if x in t {
          forall p ensures TypeAt(v, p) == TypeAt(w, p) { SkeletonGivesTypes(v, w, p); }
          TypesGiveSkeleton(w, v);
          EntryCarriesOver(w, v, t, s, x);
        }
      }
    }
  }

  lemma EqualSchemasGiveSkeleton(v: Json, w: Json, s: Schema)
    requires PathsApart(v, v) && PathsApart(w, w) && PathsApart(v, w)
    requires IsSchemaOf(v, s) && IsSchemaOf(w, s)
    ensures SameSkeleton(v, w)
  {
    forall p
      ensures TypeAt(v, p) == TypeAt(w, p)
    {
      if IsNode(v, p) { TypeCarriesOver(v, w, s, p); }
      if IsNode(w, p) { TypeCarriesOver(w, v, s, p); }
    }
    TypesGiveSkeleton(v, w);
  }

  lemma TypeCarriesOver(v: Json, w: Json, s: Schema, p: seq<string>)
    requires PathsApart(v, v) && (PathsApart(v, w) || PathsApart(w, v))
    requires IsSchemaOf(v, s) && IsSchemaOf(w, s) && IsNode(v, p)
    ensures TypeAt(v, p) == TypeAt(w, p)
  {
    NodeIsInSchema(v, s, p);
    var q := SchemaEntryHasNode(w, s, PathString("", p));
    assert p == q;
  }

  lemma EntryCarriesOver(v: Json, w: Json, s: Schema, t: Schema, x: string)
    requires v.Object? && PathsApart(w, w) && IsSchemaOf(v, s) && IsSchemaOf(w, t) && SameSkeleton(v, w) && x in s
    ensures x in t && s[x] == t[x]
  {
    var p := SchemaEntryHasNode(v, s, x);
    SkeletonGivesTypes(v, w, p);
    NodeIsInSchema(w, t, p);
  }

  /** In particular, two clean documents. */
  lemma SchemasEqualIffSameSkeleton(v: Json, w: Json, s: Schema, t: Schema)
    requires IsClean(v) && IsClean(w) && IsSchemaOf(v, s) && IsSchemaOf(w, t)
    ensures s == t <==> SameSkeleton(v, w)
  {
    CleanPathsApart(v, v);
    CleanPathsApart(w, w);
    CleanPathsApart(v, w);
    ApartSchemasEqualIff(v, w, s, t);
  }
}
