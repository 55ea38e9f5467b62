/** Comparing two schemas, as in diffSchemas of payload/validator.go. */
module SchemaDiff {
  import opened Options
  import opened JsonSchema

  datatype Kind = Missing | Added | TypeChange

  datatype Mismatch = Mismatch(kind: Kind, field: string, baselineType: string, currentType: string)

  // ---- The order of strings and of mismatches ----

  /** Go's `<` on strings. */
  predicate Less(a: string, b: string) {
    b != "" && (a == "" || a[0] < b[0] || (a[0] == b[0] && Less(a[1..], b[1..])))
  }

  /** `a` and `b` agree up to position `i`, where `a` ends or has the smaller character. */
  ghost predicate LessAt(a: string, b: string, i: nat) {
    i <= |a| && i < |b| && a[..i] == b[..i] && (i < |a| ==> a[i] < b[i])
  }

  lemma {:induction false} LessIff(a: string, b: string)
    ensures Less(a, b) <==> exists i: nat :: LessAt(a, b, i)
  {
    if b != "" && a != "" && a[0] == b[0] {
      LessIff(a[1..], b[1..]);
      forall i: nat
        ensures LessAt(a[1..], b[1..], i) <==> LessAt(a, b, i + 1)
      {
        if i + 1 <= |a| && i + 1 < |b| {
          assert a[..i + 1] == [a[0]] + a[1..][..i] && b[..i + 1] == [b[0]] + b[1..][..i];
        }
      }
      if i: nat :| LessAt(a, b, i) {
        assert i > 0;
        assert LessAt(a[1..], b[1..], i - 1);
      }
    } else if b != "" {
      assert a[..0] == b[..0];
      assert LessAt(a, b, 0) <==> a == "" || a[0] < b[0];
      if i: nat :| LessAt(a, b, i) {
        assert i > 0 ==> a[..i][0] == b[..i][0];
      }
    }
  }

  lemma {:induction false} LessIsIrreflexive(a: string)
    ensures !Less(a, a)
  {
    if a != "" {
      LessIsIrreflexive(a[1..]);
    }
  }

  lemma {:induction false} LessIsTransitive(a: string, b: string, c: string)
    requires Less(a, b) && Less(b, c)
    ensures Less(a, c)
  {
    if a != "" && a[0] == b[0] == c[0] {
      LessIsTransitive(a[1..], b[1..], c[1..]);
    }
  }

  lemma {:induction false} LessIsTotal(a: string, b: string)
    ensures a == b || Less(a, b) || Less(b, a)
  {
    if a != "" && b != "" && a[0] == b[0] {
      LessIsTotal(a[1..], b[1..]);
      assert a == [a[0]] + a[1..] && b == [b[0]] + b[1..];
    }
  }

  function KindName(k: Kind): string {
    match k
    case Missing => "MISSING_FIELD"
    case Added => "ADDED_FIELD"
    case TypeChange => "TYPE_CHANGE"
  }

  /** The comparison of lines 256-261. */
  predicate Before(m: Mismatch, n: Mismatch) {
    if m.field != n.field then Less(m.field, n.field) else Less(KindName(m.kind), KindName(n.kind))
  }

  /** What sort.Slice promises: nothing comes after something it is before. */
  ghost predicate IsSorted(ms: seq<Mismatch>) {
    forall i, j :: 0 <= i < j < |ms| ==> !Before(ms[j], ms[i])
  }

  ghost predicate StrictlySorted(ms: seq<Mismatch>) {
    forall i, j :: 0 <= i < j < |ms| ==> Less(ms[i].field, ms[j].field)
  }

  ghost predicate DistinctFields(ms: seq<Mismatch>) {
    forall i, j :: 0 <= i < j < |ms| ==> ms[i].field != ms[j].field
  }

  // ---- What a diff is ----

  /** The mismatch is true of the two schemas. */
  predicate Describes(b: Schema, c: Schema, m: Mismatch) {
    match m.kind
    case Missing =>
      m.field in b && m.field !in c && m.baselineType == b[m.field] && m.currentType == ""
    case Added =>
      m.field !in b && m.field in c && m.baselineType == "" && m.currentType == c[m.field]
    case TypeChange =>
      && m.field in b && m.field in c && b[m.field] != c[m.field]
      && m.baselineType == b[m.field] && m.currentType == c[m.field]
  }

  /** All mismatches that are true of the two schemas and no others, in the order of
      their fields, each field once. */
  ghost predicate IsDiff(b: Schema, c: Schema, ms: seq<Mismatch>) {
    StrictlySorted(ms) && forall m :: m in ms <==> Describes(b, c, m)
  }

  lemma {:induction false} MultiplicityOfDistinct(ms: seq<Mismatch>, m: Mismatch)
    requires DistinctFields(ms)
    ensures multiset(ms)[m] <= 1
    ensures m !in ms ==> multiset(ms)[m] == 0
  {
    if ms != [] {
      assert ms == [ms[0]] + ms[1..];
      assert DistinctFields(ms[1..]);
      assert forall i :: 0 <= i < |ms[1..]| ==> ms[1..][i] == ms[i + 1];
      MultiplicityOfDistinct(ms[1..], m);
      assert ms[0] !in ms[1..];
    }
  }

  lemma TwiceInMultiset(ms: seq<Mismatch>, i: nat, j: nat)
    requires i < j < |ms| && ms[i] == ms[j]
    ensures multiset(ms)[ms[i]] >= 2
  {
    assert ms == ms[..i] + [ms[i]] + ms[i + 1..j] + [ms[j]] + ms[j + 1..];
  }

  /** Whatever way a list with distinct fields is sorted, its fields come out strictly
      increasing, so that comparing kinds never decides anything. */
  lemma SortedPermutationIsStrict(ms: seq<Mismatch>, r: seq<Mismatch>)
    requires DistinctFields(ms) && multiset(r) == multiset(ms) && IsSorted(r)
    ensures StrictlySorted(r)
    ensures forall m :: m in r <==> m in ms
  {
    assert forall m :: m in r <==> m in multiset(r);
    assert forall m :: m in ms <==> m in multiset(ms);
    forall i, j | 0 <= i < j < |r|
      ensures Less(r[i].field, r[j].field)
    {
      assert r[i] in ms && r[j] in ms;
      if r[i].field == r[j].field {
        assert r[i] == r[j];
        TwiceInMultiset(r, i, j);
        MultiplicityOfDistinct(ms, r[i]);
      }
      assert !Before(r[j], r[i]);
      LessIsTotal(r[i].field, r[j].field);
    }
  }

  lemma SortedOnce(ms: seq<Mismatch>, m: Mismatch)
    requires StrictlySorted(ms) && |ms| > 0 && m in ms && m != ms[0]
    ensures Less(ms[0].field, m.field)
  {
  }

  /** Two lists of the same mismatches, both strictly sorted, are the same list. */
  lemma {:induction false} StrictlySortedIsUnique(a: seq<Mismatch>, b: seq<Mismatch>)
    requires StrictlySorted(a) && StrictlySorted(b)
    requires forall m :: m in a <==> m in b
    ensures a == b
  {
    assert a != [] ==> a[0] in a && a[0] in b;
    assert b != [] ==> b[0] in b && b[0] in a;
    if a != [] {
      if a[0] != b[0] {
        SortedOnce(a, b[0]);
        SortedOnce(b, a[0]);
        LessIsTransitive(a[0].field, b[0].field, a[0].field);
        LessIsIrreflexive(a[0].field);
      }
      HeadOnce(a);
      HeadOnce(b);
      assert a == [a[0]] + a[1..] && b == [b[0]] + b[1..];
      forall m
        ensures m in a[1..] <==> m in b[1..]
      {
        assert m in a <==> m == a[0] || m in a[1..];
        assert m in b <==> m == b[0] || m in b[1..];
      }
      StrictlySortedIsUnique(a[1..], b[1..]);
    }
  }

  lemma HeadOnce(a: seq<Mismatch>)
    requires StrictlySorted(a) && a != []
    ensures a[0] !in a[1..] && StrictlySorted(a[1..])
  {
    LessIsIrreflexive(a[0].field);
  }

  /** The diff of two schemas is one list: no iteration order and no sort shows in it. */
  lemma DiffIsUnique(b: Schema, c: Schema, ms: seq<Mismatch>, ns: seq<Mismatch>)
    requires IsDiff(b, c, ms) && IsDiff(b, c, ns)
    ensures ms == ns
  {
    forall m ensures m in ms <==> m in ns {
      assert m in ms <==> Describes(b, c, m);
      assert m in ns <==> Describes(b, c, m);
    }
    StrictlySortedIsUnique(ms, ns);
  }

  // ---- The diff as a patch ----

  function PatchOne(s: Schema, m: Mismatch): Schema {
    if m.kind.Missing? then s - {m.field} else s[m.field := m.currentType]
  }

  function Patch(s: Schema, ms: seq<Mismatch>): Schema
    decreases |ms|
  {
    if ms == [] then s else Patch(PatchOne(s, ms[0]), ms[1..])
  }

  lemma {:induction false} PatchLeavesOthers(s: Schema, ms: seq<Mismatch>, x: string)
    requires forall m :: m in ms ==> m.field != x
    ensures x in Patch(s, ms) <==> x in s
    ensures x in s ==> Patch(s, ms)[x] == s[x]
    decreases |ms|
  {
    if ms != [] {
      assert ms[0] in ms;
      PatchLeavesOthers(PatchOne(s, ms[0]), ms[1..], x);
    }
  }

  lemma {:induction false} PatchAppliesEach(s: Schema, ms: seq<Mismatch>, i: nat)
    requires DistinctFields(ms) && i < |ms|
    ensures ms[i].kind.Missing? ==> ms[i].field !in Patch(s, ms)
    ensures !ms[i].kind.Missing? ==>
      ms[i].field in Patch(s, ms) && Patch(s, ms)[ms[i].field] == ms[i].currentType
    decreases |ms|
  {
    if i > 0 {
      PatchAppliesEach(PatchOne(s, ms[0]), ms[1..], i - 1);
    } else {
      PatchLeavesOthers(PatchOne(s, ms[0]), ms[1..], ms[0].field);
    }
  }

  lemma StrictIsDistinct(ms: seq<Mismatch>)
    requires StrictlySorted(ms)
    ensures DistinctFields(ms)
  {
    forall i, j | 0 <= i < j < |ms|
      ensures ms[i].field != ms[j].field
    {
      LessIsIrreflexive(ms[i].field);
    }
  }

  /** The one mismatch there can be about a field. */
  function MismatchAt(b: Schema, c: Schema, x: string): (m: Option<Mismatch>)
    ensures m.Some? ==> m.value.field == x && Describes(b, c, m.value)
    ensures m.None? ==> (x in b <==> x in c) && (x in b ==> b[x] == c[x])
    ensures forall n :: Describes(b, c, n) && n.field == x ==> m == Some(n)
  {
    if x in b && x !in c then Some(Mismatch(Missing, x, b[x], ""))
    else if x in b && b[x] != c[x] then Some(Mismatch(TypeChange, x, b[x], c[x]))
    else if x !in b && x in c then Some(Mismatch(Added, x, "", c[x]))
    else None
  }

  /** The diff is complete: applied to the baseline it gives the current schema. */
  lemma DiffPatchesBaseline(b: Schema, c: Schema, ms: seq<Mismatch>)
    requires IsDiff(b, c, ms)
    ensures Patch(b, ms) == c
  {
    StrictIsDistinct(ms);
    forall x: string
      ensures (x in Patch(b, ms) <==> x in c) && (x in c ==> Patch(b, ms)[x] == c[x])
    {
      match MismatchAt(b, c, x)
      case Some(m) =>
        assert m in ms;
        var i :| 0 <= i < |ms| && ms[i] == m;
        PatchAppliesEach(b, ms, i);
      case None =>
        PatchLeavesOthers(b, ms, x);
    }
  }

  function UndoOne(s: Schema, m: Mismatch): Schema {
    if m.kind.Added? then s - {m.field} else s[m.field := m.baselineType]
  }

  function Undo(s: Schema, ms: seq<Mismatch>): Schema
    decreases |ms|
  {
    if ms == [] then s else Undo(UndoOne(s, ms[0]), ms[1..])
  }

  /** The same mismatch, from the other side. */
  function Mirror(m: Mismatch): Mismatch {
    Mismatch(match m.kind case Missing => Added case Added => Missing case TypeChange => TypeChange,
             m.field, m.currentType, m.baselineType)
  }

  function Mirrored(ms: seq<Mismatch>): (r: seq<Mismatch>)
    ensures |r| == |ms|
    ensures forall i :: 0 <= i < |ms| ==> r[i] == Mirror(ms[i])
  {
    if ms == [] then [] else [Mirror(ms[0])] + Mirrored(ms[1..])
  }

  lemma {:induction false} UndoIsMirroredPatch(s: Schema, ms: seq<Mismatch>)
    ensures Undo(s, ms) == Patch(s, Mirrored(ms))
    decreases |ms|
  {
    if ms != [] {
      UndoIsMirroredPatch(UndoOne(s, ms[0]), ms[1..]);
    }
  }

  /** Comparing the other way round gives the same list, mirrored. */
  lemma MirroredIsDiff(b: Schema, c: Schema, ms: seq<Mismatch>)
    requires IsDiff(b, c, ms)
    ensures IsDiff(c, b, Mirrored(ms))
  {
    forall m
      ensures m in Mirrored(ms) <==> Describes(c, b, m)
    {
      MirroredHas(ms, m);
      MirrorDescribes(b, c, m);
    }
  }

  lemma MirroredHas(ms: seq<Mismatch>, m: Mismatch)
    ensures m in Mirrored(ms) <==> Mirror(m) in ms
  {
    assert Mirror(Mirror(m)) == m;
    if m in Mirrored(ms) {
      var i :| 0 <= i < |ms| && Mirrored(ms)[i] == m;
      assert ms[i] == Mirror(m);
    }
    if Mirror(m) in ms {
      var i :| 0 <= i < |ms| && ms[i] == Mirror(m);
      assert Mirrored(ms)[i] == m;
    }
  }

  lemma MirrorDescribes(b: Schema, c: Schema, m: Mismatch)
    ensures Describes(b, c, Mirror(m)) <==> Describes(c, b, m)
  {
  }

  /** The diff is a complete record of the baseline too: undone on the current schema, it
      gives the baseline back. */
  lemma DiffUndoes(b: Schema, c: Schema, ms: seq<Mismatch>)
    requires IsDiff(b, c, ms)
    ensures Undo(c, ms) == b
  {
    MirroredIsDiff(b, c, ms);
    DiffPatchesBaseline(c, b, Mirrored(ms));
    UndoIsMirroredPatch(c, ms);
  }

  lemma EmptyDiffIff(b: Schema, c: Schema, ms: seq<Mismatch>)
    requires IsDiff(b, c, ms)
    ensures ms == [] <==> b == c
  {
    DiffPatchesBaseline(b, c, ms);
    assert ms != [] ==> ms[0] in ms && Describes(b, c, ms[0]);
  }

  // ---- diffSchemas ----

  lemma BeforeIsTransitive(l: Mismatch, m: Mismatch, n: Mismatch)
    requires Before(l, m) && Before(m, n)
    ensures Before(l, n)
  {
    if l.field == m.field || m.field == n.field {
      if l.field == n.field {
        LessIsTransitive(KindName(l.kind), KindName(m.kind), KindName(n.kind));
      }
    } else {
      LessIsTransitive(l.field, m.field, n.field);
      LessIsIrreflexive(l.field);
    }
  }

  function Insert(m: Mismatch, ms: seq<Mismatch>): (r: seq<Mismatch>)
    ensures multiset(r) == multiset(ms) + multiset{m}
  {
    if ms == [] || Before(m, ms[0]) then [m] + ms
    else
      assert ms == [ms[0]] + ms[1..];
      [ms[0]] + Insert(m, ms[1..])
  }

  /** One of the lists sort.Slice may return. DiffSchemas does not depend on which. */
  function SortSlice(ms: seq<Mismatch>): (r: seq<Mismatch>)
    ensures multiset(r) == multiset(ms)
  {
    if ms == [] then []
    else
      assert ms == [ms[0]] + ms[1..];
      Insert(ms[0], SortSlice(ms[1..]))
  }

  lemma {:induction false} InsertSorts(m: Mismatch, ms: seq<Mismatch>)
    requires IsSorted(ms)
    ensures IsSorted(Insert(m, ms))
  {
    var r := Insert(m, ms);
    if ms != [] && !Before(m, ms[0]) {
      InsertSorts(m, ms[1..]);
      forall j | 0 < j < |r|
        ensures !Before(r[j], r[0])
      {
        assert r[j] in multiset(Insert(m, ms[1..]));
        assert r[j] == m || r[j] in ms[1..];
      }
    } else {
      forall j | 0 <= j < |ms|
        ensures !Before(ms[j], m)
      {
        if Before(ms[j], m) {
          BeforeIsTransitive(ms[j], m, ms[0]);
          BeforeIsIrreflexive(ms[0]);
        }
      }
    }
  }

  lemma BeforeIsIrreflexive(m: Mismatch)
    ensures !Before(m, m)
  {
    LessIsIrreflexive(KindName(m.kind));
  }

  lemma {:induction false} SortSliceSorts(ms: seq<Mismatch>)
    ensures IsSorted(SortSlice(ms))
  {
    if ms != [] {
      SortSliceSorts(ms[1..]);
      InsertSorts(ms[0], SortSlice(ms[1..]));
    }
  }

  /** diffSchemas, ranging over both maps in any order. */
  method DiffSchemas(baseline: Schema, current: Schema) returns (mismatches: seq<Mismatch>)
    ensures IsDiff(baseline, current, mismatches)
  {
    mismatches := [];
    var todo := baseline.Keys;
    while todo != {}
      invariant todo <= baseline.Keys && DistinctFields(mismatches)
      invariant forall m :: m in mismatches <==>
        Describes(baseline, current, m) && m.field in baseline.Keys - todo
    {
      var field :| field in todo;
      var bType := baseline[field];
      if field !in current {
        mismatches := mismatches + [Mismatch(Missing, field, bType, "")];
      } else if current[field] != bType {
        mismatches := mismatches + [Mismatch(TypeChange, field, bType, current[field])];
      }
      todo := todo - {field};
    }
    todo := current.Keys;
    while todo != {}
      invariant todo <= current.Keys && DistinctFields(mismatches)
      invariant forall m :: m in mismatches <==>
        Describes(baseline, current, m) && (m.field in baseline || m.field in current.Keys - todo)
    {
      var field :| field in todo;
      if field !in baseline {
        mismatches := mismatches + [Mismatch(Added, field, "", current[field])];
      }
      todo := todo - {field};
    }
    ghost var collected := mismatches;
    mismatches := SortSlice(mismatches);
    SortSliceSorts(collected);
    SortedPermutationIsStrict(collected, mismatches);
  }
}
