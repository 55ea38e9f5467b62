/** When the learned schema depends on Go's map iteration order, and when it does not. */
module SchemaOrder {
  import opened Options
  import opened JsonSchema

  ghost predicate IsNode(v: Json, p: seq<string>) {
    p != [] && NodeAt(v, p).Some?
  }

  /** No two key paths that are written alike lead to values of different types. The
      empty string is exempt: it can only name a chain of empty keys, and the innermost
      of them is always written last. */
  ghost predicate Unambiguous(v: Json) {
    forall p, q :: IsNode(v, p) && IsNode(v, q) && PathString("", p) == PathString("", q) != "" ==>
      TypeAt(v, p) == TypeAt(v, q)
  }

  /** Every iteration order gives the same schema. */
  ghost predicate OrderIndependent(v: Json)
    requires v.Object?
  {
    forall s, t :: IsSchemaOf(v, s) && IsSchemaOf(v, t) ==> s == t
  }

  // ---- The chain of empty keys ----

  /** The type of the innermost value of the chain of empty keys that starts here. */
  function InnermostEmpty(v: Json): string
    requires v.Object? && "" in v.fields
    decreases v
  {
    var child := v.fields[""];
    if child.Object? && "" in child.fields then InnermostEmpty(child) else TypeName(child)
  }

  lemma {:induction false} EmptyPathString(v: Json, todo: set<string>, s: Schema, s': Schema)
    requires v.Object? && todo <= v.fields.Keys && Flattens(v, "", todo, s, s')
    ensures "" in todo ==> "" in s' && s'[""] == InnermostEmpty(v)
    ensures "" !in todo ==> ("" in s' <==> "" in s) && ("" in s ==> s'[""] == s[""])
    decreases v, |todo|
  {
    if todo != {} {
      var k, mid :| k in todo && Visits(v, "", k, s, mid) && Flattens(v, "", todo - {k}, mid, s');
      var child := v.fields[k];
      if k == "" {
        if child.Object? {
          EmptyPathString(child, child.fields.Keys, s["" := TypeName(child)], mid);
        }
      } else {
        VisitsOutcome(v, "", k, s, mid, "");
        forall p
          ensures !Writes(v, "", {k}, p, "")
        {
          if p != [] && p[0] == k {
            assert PathString("", p) == PathString(k, p[1..]);
            if p[1..] != [] {
              PathStringLength(k, p[1..]);
            }
          }
        }
      }
      EmptyPathString(v, todo - {k}, mid, s');
    }
  }

  // ---- Unambiguous documents ----

  /** Two outcomes agree on every string of an unambiguous document. */
  lemma OutcomesAgree(v: Json, s: Schema, t: Schema, x: string)
    requires v.Object? && Unambiguous(v) && IsSchemaOf(v, s) && IsSchemaOf(v, t)
    ensures (x in s <==> x in t) && (x in s ==> s[x] == t[x])
  {
    var keys := v.fields.Keys;
    if x == "" {
      EmptyPathString(v, keys, map[], s);
      EmptyPathString(v, keys, map[], t);
    } else {
      FlattensOutcome(v, "", keys, map[], s, x);
      FlattensOutcome(v, "", keys, map[], t, x);
      if exists p :: Writes(v, "", keys, p, x) {
        var p :| Writes(v, "", keys, p, x) && TypeAt(v, p) == Some(s[x]);
        var q :| Writes(v, "", keys, q, x) && TypeAt(v, q) == Some(t[x]);
        assert IsNode(v, p) && IsNode(v, q);
      }
    }
  }

  lemma UnambiguousIsOrderIndependent(v: Json)
    requires v.Object? && Unambiguous(v)
    ensures OrderIndependent(v)
  {
    forall s, t | IsSchemaOf(v, s) && IsSchemaOf(v, t)
      ensures s == t
    {
      forall x: string
        ensures (x in s <==> x in t) && (x in s ==> s[x] == t[x])
      {
        OutcomesAgree(v, s, t, x);
      }
    }
  }

  // ---- Ambiguous documents ----

  /** Any node can have the last word on its path string: range over its first key last,
      and so on down to the node. */
  lemma {:induction false} NodeCanWin(v: Json, prefix: string, p: seq<string>, s: Schema) returns (s': Schema)
    requires v.Object? && IsNode(v, p) && PathString(prefix, p) != ""
    ensures Flattens(v, prefix, v.fields.Keys, s, s')
    ensures PathString(prefix, p) in s' && TypeAt(v, p) == Some(s'[PathString(prefix, p)])
    decreases v
  {
    var k := p[0];
    var child, path := v.fields[k], Child(prefix, k);
    var mid := SomeOutcome(v, prefix, v.fields.Keys - {k}, s);
    var written := mid[path := TypeName(child)];
    if |p| > 1 {
      assert p[1..] != [] && NodeAt(child, p[1..]).Some?;
      s' := NodeCanWin(child, path, p[1..], written);
    } else if child.Object? {
      s' := SomeOutcome(child, path, child.fields.Keys, written);
      FlattensOutcome(child, path, child.fields.Keys, written, s', path);
      forall q
        ensures !Writes(child, path, child.fields.Keys, q, path)
      {
        if q != [] {
          PathStringLength(path, q);
        }
      }
    } else {
      s' := written;
    }
    assert TypeAt(v, p) == TypeAt(child, p[1..]) && PathString(prefix, p) == PathString(path, p[1..]);
    assert PathString(prefix, p) in s' && TypeAt(v, p) == Some(s'[PathString(prefix, p)]);
    assert Visits(v, prefix, k, mid, s');
    VisitLast(v, prefix, v.fields.Keys - {k}, k, s, mid, s');
    assert v.fields.Keys - {k} + {k} == v.fields.Keys;
  }

  lemma OrderIndependentIsUnambiguous(v: Json)
    requires v.Object? && OrderIndependent(v)
    ensures Unambiguous(v)
  {
    forall p, q | IsNode(v, p) && IsNode(v, q) && PathString("", p) == PathString("", q) != ""
      ensures TypeAt(v, p) == TypeAt(v, q)
    {
      var s := NodeCanWin(v, "", p, map[]);
      var t := NodeCanWin(v, "", q, map[]);
      assert IsSchemaOf(v, s) && IsSchemaOf(v, t);
    }
  }

  /** The schema of a document is independent of map iteration order if and only if no
      two of its key paths are written alike with different types. */
  lemma OrderIndependentIff(v: Json)
    requires v.Object?
    ensures OrderIndependent(v) <==> Unambiguous(v)
  {
    if Unambiguous(v) {
      UnambiguousIsOrderIndependent(v);
    }
    if OrderIndependent(v) {
      OrderIndependentIsUnambiguous(v);
    }
  }

  /** It is not always independent: here a dotted key and a nested key collide. */
  lemma DottedKeyIsAmbiguous()
    ensures
      var v := Object(map["a" := Object(map["b" := Null]), "a.b" := Bool(true)]);
      !OrderIndependent(v)
  {
    var inner := Object(map["b" := Null]);
    var v := Object(map["a" := inner, "a.b" := Bool(true)]);
    assert NodeAt(inner, ["b"]) == NodeAt(Null, []) == Some(Null);
    assert ["a", "b"][1..] == ["b"];
    assert NodeAt(v, ["a", "b"]) == Some(Null);
    assert NodeAt(v, ["a.b"]) == NodeAt(Bool(true), []) == Some(Bool(true));
    assert PathString("", ["a", "b"]) == PathString("a", ["b"]) == PathString("a.b", []) == "a.b";
    assert PathString("", ["a.b"]) == PathString("a.b", []) == "a.b";
    assert IsNode(v, ["a", "b"]) && IsNode(v, ["a.b"]);
    OrderIndependentIff(v);
  }
}
