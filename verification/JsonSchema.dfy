/** Learning a schema from a decoded JSON tree, as in flattenSchema of
    payload/validator.go, for every order in which Go may range over its maps. */
module JsonSchema {
  import opened Options

  /** A decoded value. Keys are unique per object. */
  datatype Json =
    | Object(fields: map<string, Json>)
    | Array(items: seq<Json>)
    | String(s: string)
    | Number(n: real)
    | Bool(b: bool)
    | Null

  /** Dotted paths to type names. */
  type Schema = map<string, string>

  function TypeName(v: Json): string {
    match v
    case Object(_) => "object"
    case Array(_) => "array"
    case String(_) => "string"
    case Number(_) => "number"
    case Bool(_) => "bool"
    case Null => "null"
  }

  /** Lines 194-197. */
  function Child(prefix: string, key: string): string {
    if prefix != "" then prefix + "." + key else key
  }

  /** flattenSchema may turn `s` into `s'`, with the keys in `todo` still to be ranged
      over: some key comes next, and then some run of the loop on the others. */
  ghost predicate Flattens(v: Json, prefix: string, todo: set<string>, s: Schema, s': Schema)
    requires v.Object? && todo <= v.fields.Keys
    decreases v, |todo|
  {
    if todo == {} then s' == s
    else exists k, mid ::
      k in todo && Visits(v, prefix, k, s, mid) && Flattens(v, prefix, todo - {k}, mid, s')
  }

  /** One iteration of the loop, for key `k`. */
  ghost predicate Visits(v: Json, prefix: string, k: string, s: Schema, s': Schema)
    requires v.Object? && k in v.fields
    decreases v, 0
  {
    var child, path := v.fields[k], Child(prefix, k);
    var written := s[path := TypeName(child)];
    if child.Object? then Flattens(child, path, child.fields.Keys, written, s') else s' == written
  }

  /** extractSchema on a decoded object: a schema that some iteration order yields. */
  ghost predicate IsSchemaOf(v: Json, s: Schema)
    requires v.Object?
  {
    Flattens(v, "", v.fields.Keys, map[], s)
  }

  /** The shared map that flattenSchema writes into. */
  class SchemaMap {
    var m: Schema

    constructor ()
      ensures m == map[]
    {
      m := map[];
    }

    /** flattenSchema. The next key is any key not ranged over yet. */
    method Flatten(v: Json, prefix: string)
      requires v.Object?
      modifies this
      ensures Flattens(v, prefix, v.fields.Keys, old(m), m)
      decreases v
    {
      var todo := v.fields.Keys;
      ghost var done: set<string> := {};
      assert Flattens(v, prefix, {}, m, m);
      while todo != {}
        invariant todo <= v.fields.Keys && done == v.fields.Keys - todo
        invariant Flattens(v, prefix, done, old(m), m)
      {
        var k :| k in todo;
        var child, path := v.fields[k], Child(prefix, k);
        ghost var before := m;
        m := m[path := TypeName(child)];
        if child.Object? {
          Flatten(child, path);
        }
        VisitLast(v, prefix, done, k, old(m), before, m);
        todo, done := todo - {k}, done + {k};
      }
      assert done == v.fields.Keys;
    }
  }

  /** An iteration can also come last. */
  lemma {:induction false} VisitLast(v: Json, prefix: string, done: set<string>, k: string,
                                     s: Schema, mid: Schema, s': Schema)
    requires v.Object? && done <= v.fields.Keys && k in v.fields && k !in done
    requires Flattens(v, prefix, done, s, mid) && Visits(v, prefix, k, mid, s')
    ensures Flattens(v, prefix, done + {k}, s, s')
    decreases |done|
  {
    if done == {} {
      assert {k} - {k} == {};
      assert Flattens(v, prefix, {k} - {k}, s', s');
      assert done + {k} == {k};
    } else {
      var j, next :| j in done && Visits(v, prefix, j, s, next) && Flattens(v, prefix, done - {j}, next, mid);
      VisitLast(v, prefix, done - {j}, k, next, mid, s');
      assert done - {j} + {k} == done + {k} - {j};
    }
  }

  /** The loop always has some outcome. */
  lemma {:induction false} SomeOutcome(v: Json, prefix: string, todo: set<string>, s: Schema) returns (s': Schema)
    requires v.Object? && todo <= v.fields.Keys
    ensures Flattens(v, prefix, todo, s, s')
    decreases v, |todo|
  {
    if todo == {} {
      s' := s;
    } else {
      var k :| k in todo;
      var child, path := v.fields[k], Child(prefix, k);
      var mid := s[path := TypeName(child)];
      if child.Object? {
        mid := SomeOutcome(child, path, child.fields.Keys, mid);
      }
      assert Visits(v, prefix, k, s, mid);
      s' := SomeOutcome(v, prefix, todo - {k}, mid);
    }
  }

  // ---- Key paths ----

  /** The value a list of keys leads to. */
  function NodeAt(v: Json, p: seq<string>): Option<Json>
    decreases |p|
  {
    if p == [] then Some(v)
    else if v.Object? && p[0] in v.fields then NodeAt(v.fields[p[0]], p[1..])
    else None
  }

  function TypeAt(v: Json, p: seq<string>): Option<string> {
    match NodeAt(v, p)
    case Some(w) => Some(TypeName(w))
    case None => None
  }

  /** The string that flattenSchema uses for a list of keys. */
  function PathString(prefix: string, p: seq<string>): string
    decreases |p|
  {
    if p == [] then prefix else PathString(Child(prefix, p[0]), p[1..])
  }

  lemma {:induction false} PathStringLength(prefix: string, p: seq<string>)
    requires prefix != "" && p != []
    ensures |PathString(prefix, p)| > |prefix|
    decreases |p|
  {
    if |p| > 1 {
      PathStringLength(Child(prefix, p[0]), p[1..]);
    }
  }

  /** The key path `p`, starting in `todo`, leads to a value and is written as `x`. */
  ghost predicate Writes(v: Json, prefix: string, todo: set<string>, p: seq<string>, x: string) {
    p != [] && p[0] in todo && NodeAt(v, p).Some? && PathString(prefix, p) == x
  }

  /** What every outcome has in common, whatever the keys look like: if some key path is
      written as `x`, then `x` is there with the type of one of those key paths, and
      otherwise nothing changes at `x`. */
  ghost predicate OutcomeAt(v: Json, prefix: string, todo: set<string>, s: Schema, s': Schema, x: string) {
    if exists p :: Writes(v, prefix, todo, p, x) then
      x in s' && exists p :: Writes(v, prefix, todo, p, x) && TypeAt(v, p) == Some(s'[x])
    else
      (x in s' <==> x in s) && (x in s ==> s'[x] == s[x])
  }

  /** Sequential composition: the second part wins where both write. */
  lemma OutcomesCompose(v: Json, prefix: string, k: string, rest: set<string>,
                        s: Schema, mid: Schema, s': Schema, x: string)
    requires OutcomeAt(v, prefix, {k}, s, mid, x) && OutcomeAt(v, prefix, rest, mid, s', x)
    ensures OutcomeAt(v, prefix, {k} + rest, s, s', x)
  {
    var todo := {k} + rest;
    if p :| Writes(v, prefix, rest, p, x) && x in s' && TypeAt(v, p) == Some(s'[x]) {
      assert Writes(v, prefix, todo, p, x);
    } else if p :| Writes(v, prefix, {k}, p, x) && x in mid && TypeAt(v, p) == Some(mid[x]) {
      assert Writes(v, prefix, todo, p, x);
    } else {
      forall p
        ensures !Writes(v, prefix, todo, p, x)
      {
        assert !Writes(v, prefix, {k}, p, x) && !Writes(v, prefix, rest, p, x);
      }
    }
  }

  lemma {:induction false} FlattensOutcome(v: Json, prefix: string, todo: set<string>,
                                           s: Schema, s': Schema, x: string)
    requires v.Object? && todo <= v.fields.Keys && Flattens(v, prefix, todo, s, s')
    ensures OutcomeAt(v, prefix, todo, s, s', x)
    decreases v, |todo|
  {
    if todo != {} {
      var k, mid :|
        k in todo && Visits(v, prefix, k, s, mid) && Flattens(v, prefix, todo - {k}, mid, s');
      VisitsOutcome(v, prefix, k, s, mid, x);
      FlattensOutcome(v, prefix, todo - {k}, mid, s', x);
      OutcomesCompose(v, prefix, k, todo - {k}, s, mid, s', x);
      assert {k} + (todo - {k}) == todo;
    }
  }

  lemma {:induction false} VisitsOutcome(v: Json, prefix: string, k: string, s: Schema, s': Schema, x: string)
    requires v.Object? && k in v.fields && Visits(v, prefix, k, s, s')
    ensures OutcomeAt(v, prefix, {k}, s, s', x)
    decreases v, 0
  {
    var child, path := v.fields[k], Child(prefix, k);
    var written := s[path := TypeName(child)];
    if child.Object? {
      FlattensOutcome(child, path, child.fields.Keys, written, s', x);
    }
    if child.Object? && exists q :: Writes(child, path, child.fields.Keys, q, x) {
      var q :| Writes(child, path, child.fields.Keys, q, x) && TypeAt(child, q) == Some(s'[x]);
      LongerPath(v, prefix, k, q, x);
    } else if path == x {
      assert NodeAt(v, [k]) == Some(child);
      assert PathString(prefix, [k]) == path;
      assert Writes(v, prefix, {k}, [k], x) && TypeAt(v, [k]) == Some(s'[x]);
    } else {
      forall p
        ensures !Writes(v, prefix, {k}, p, x)
      {
        if Writes(v, prefix, {k}, p, x) {
          ShorterPath(v, prefix, k, p, x);
        }
      }
    }
  }

  lemma LongerPath(v: Json, prefix: string, k: string, q: seq<string>, x: string)
    requires v.Object? && k in v.fields && v.fields[k].Object?
    requires Writes(v.fields[k], Child(prefix, k), v.fields[k].fields.Keys, q, x)
    ensures Writes(v, prefix, {k}, [k] + q, x) && TypeAt(v, [k] + q) == TypeAt(v.fields[k], q)
  {
    assert ([k] + q)[1..] == q;
  }

  /** A key path that starts with `k` is `k` itself or goes on below it. */
  lemma ShorterPath(v: Json, prefix: string, k: string, p: seq<string>, x: string)
    requires v.Object? && k in v.fields && Writes(v, prefix, {k}, p, x)
    ensures p == [k] ==> Child(prefix, k) == x
    ensures p != [k] ==>
      && v.fields[k].Object?
      && Writes(v.fields[k], Child(prefix, k), v.fields[k].fields.Keys, p[1..], x)
  {
    if |p| == 1 {
      assert p == [k];
    } else {
      assert p[1..] != [] && NodeAt(v.fields[k], p[1..]).Some?;
    }
  }
}
