/** The Validator of payload/validator.go and what its calls mean together. */
module Validator {
  import opened Options
  import opened JsonSchema
  import opened SchemaOrder
  import opened SchemaTheorems
  import opened SchemaDiff

  /** What json.Unmarshal makes of the data. */
  datatype Decoded = Malformed | Value(v: Json)

  predicate IsJsonObject(d: Decoded) {
    d.Value? && d.v.Object?
  }

  /** extractSchema: an error for anything but a JSON object. */
  method ExtractSchema(data: Decoded) returns (r: Option<Schema>)
    ensures r.Some? <==> IsJsonObject(data)
    ensures r.Some? ==> IsSchemaOf(data.v, r.value)
  {
    if data.Malformed? || !data.v.Object? {
      return None;
    }
    var s := new SchemaMap();
    s.Flatten(data.v, "");
    r := Some(s.m);
  }

  class Validator {
    var baseline: Option<Schema>

    constructor ()
      ensures baseline == None
    {
      baseline := None;
    }

    /** An error leaves the baseline alone. */
    method Learn(data: Decoded) returns (ok: bool)
      modifies this
      ensures ok == IsJsonObject(data)
      ensures !ok ==> baseline == old(baseline)
      ensures ok ==> baseline.Some? && IsSchemaOf(data.v, baseline.value)
    {
      var s := ExtractSchema(data);
      if s.None? {
        return false;
      }
      baseline := s;
      ok := true;
    }

    method HasBaseline() returns (ok: bool)
      ensures ok == baseline.Some?
    {
      ok := baseline.Some?;
    }

    /** Compares with the baseline, or learns if there is none. */
    method Validate(data: Decoded) returns (r: Option<seq<Mismatch>>)
      modifies this
      ensures r.Some? <==> IsJsonObject(data)
      ensures r.None? || old(baseline).Some? ==> baseline == old(baseline)
      ensures r.Some? && old(baseline).None? ==>
        r == Some([]) && baseline.Some? && IsSchemaOf(data.v, baseline.value)
      ensures r.Some? && old(baseline).Some? ==>
        exists s :: IsSchemaOf(data.v, s) && IsDiff(old(baseline).value, s, r.value)
    {
      var current := ExtractSchema(data);
      if current.None? {
        return None;
      }
      if baseline.None? {
        baseline := current;
        return Some([]);
      }
      var mismatches := DiffSchemas(baseline.value, current.value);
      r := Some(mismatches);
    }

    method Reset()
      modifies this
      ensures baseline == None
    {
      baseline := None;
    }
  }

  /** What Validate may return for `w` after Learn of `v`. */
  ghost predicate MayReport(v: Json, w: Json, r: seq<Mismatch>)
    requires v.Object? && w.Object?
  {
    exists s, t :: IsSchemaOf(v, s) && IsSchemaOf(w, t) && IsDiff(s, t, r)
  }

  /** "An empty slice means the response matches the baseline perfectly": for clean
      documents the list is empty if and only if the skeletons are the same. */
  lemma EmptyReportIffSameSkeleton(v: Json, w: Json, r: seq<Mismatch>)
    requires IsClean(v) && IsClean(w) && MayReport(v, w, r)
    ensures r == [] <==> SameSkeleton(v, w)
  {
    var s, t :| IsSchemaOf(v, s) && IsSchemaOf(w, t) && IsDiff(s, t, r);
    EmptyDiffIff(s, t, r);
    SchemasEqualIffSameSkeleton(v, w, s, t);
  }

  /** The report does not depend on any iteration order, for documents whose schemas do
      not: in particular for clean ones. */
  lemma ReportIsDeterministic(v: Json, w: Json, r: seq<Mismatch>, r': seq<Mismatch>)
    requires v.Object? && w.Object? && Unambiguous(v) && Unambiguous(w)
    requires MayReport(v, w, r) && MayReport(v, w, r')
    ensures r == r'
  {
    UnambiguousIsOrderIndependent(v);
    UnambiguousIsOrderIndependent(w);
    var s, t :| IsSchemaOf(v, s) && IsSchemaOf(w, t) && IsDiff(s, t, r);
    var s', t' :| IsSchemaOf(v, s') && IsSchemaOf(w, t') && IsDiff(s', t', r');
    DiffIsUnique(s, t, r, r');
  }

  /** A sequence of calls: learn `v`, then validate `w`. */
  method LearnThenValidate(v: Json, w: Json) returns (r: seq<Mismatch>)
    requires IsClean(v) && IsClean(w)
    ensures r == [] <==> SameSkeleton(v, w)
  {
    var validator := new Validator();
    var _ := validator.Learn(Value(v));
    var report := validator.Validate(Value(w));
    r := report.value;
    EmptyReportIffSameSkeleton(v, w, r);
  }
}
