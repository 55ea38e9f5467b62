/** http.CanonicalHeaderKey, which decides when two header keys count as the same. */
module HeaderKeys {
  import opened HeaderSpec

  predicate IsLower(c: char) { 'a' <= c <= 'z' }
  predicate IsUpper(c: char) { 'A' <= c <= 'Z' }

  /** The characters of a token (section 5.6.2 of RFC 9110). */
  predicate IsTokenChar(c: char) {
    IsLower(c) || IsUpper(c) || '0' <= c <= '9' || c in "!#$%&'*+-.^_`|~"
  }

  predicate IsToken(key: string) {
    forall i :: 0 <= i < |key| ==> IsTokenChar(key[i])
  }

  function ToLower(c: char): char {
    if IsUpper(c) then c + 32 as char else c
  }

  function ToUpper(c: char): char {
    if IsLower(c) then c - 32 as char else c
  }

  /** Upper case at the start and after a hyphen, lower case elsewhere. */
  function Recase(key: string, upper: bool): (r: string)
    ensures |r| == |key|
  {
    if key == "" then ""
    else [if upper then ToUpper(key[0]) else ToLower(key[0])] + Recase(key[1..], key[0] == '-')
  }

  /** A key with a character that no field name may have is returned as it is. */
  function CanonicalHeaderKey(key: string): string {
    if IsToken(key) then Recase(key, true) else key
  }

  /** Case-insensitive equality of field names (section 5.1 of RFC 9110). */
  predicate EqualFold(a: string, b: string) {
    |a| == |b| && forall i :: 0 <= i < |a| ==> ToLower(a[i]) == ToLower(b[i])
  }

  /** The same character, or the two cases of one of the 26 letters. */
  predicate SameLetter(c: char, d: char) {
    || c == d
    || ('a' <= c <= 'z' && d as int == c as int - 32)
    || ('a' <= d <= 'z' && c as int == d as int - 32)
  }

  lemma FoldIff(a: string, b: string)
    ensures EqualFold(a, b) <==> |a| == |b| && forall i :: 0 <= i < |a| ==> SameLetter(a[i], b[i])
  {
  }

  /** Letters, digits and hyphens make field names, in which only case can differ; with a
      space, a colon or a control character in it, a key is only the same as itself. */
  lemma OrdinaryKeys(a: string, b: string)
    requires forall i :: 0 <= i < |a| ==> 'a' <= a[i] <= 'z' || 'A' <= a[i] <= 'Z' || '0' <= a[i] <= '9' || a[i] == '-'
    ensures SameKey(CanonicalHeaderKey, a, b) <==>
      |a| == |b| && forall i :: 0 <= i < |a| ==> SameLetter(a[i], b[i])
  {
    SameKeyIff(a, b);
    FoldIff(a, b);
    if EqualFold(a, b) {
      assert forall i :: 0 <= i < |b| ==> IsTokenChar(b[i]);
    }
  }

  lemma StrangeKeys(a: string, b: string, i: nat)
    requires i < |a| && (a[i] <= ' ' || a[i] == ':' || a[i] >= 127 as char)
    ensures SameKey(CanonicalHeaderKey, a, b) <==> a == b
  {
    SameKeyIff(a, b);
    assert !IsTokenChar(a[i]);
  }

  lemma {:induction false} RecaseFolds(a: string, b: string, upper: bool)
    ensures Recase(a, upper) == Recase(b, upper) <==> EqualFold(a, b)
  {
    if a != "" && b != "" {
      var ra, rb := Recase(a, upper), Recase(b, upper);
      assert ra[1..] == Recase(a[1..], a[0] == '-') && rb[1..] == Recase(b[1..], b[0] == '-');
      assert ra == [ra[0]] + ra[1..] && rb == [rb[0]] + rb[1..];
      if ToLower(a[0]) == ToLower(b[0]) {
        assert a[0] == '-' <==> b[0] == '-';
        RecaseFolds(a[1..], b[1..], a[0] == '-');
        EqualFoldTail(a, b);
      } else {
        assert ra[0] != rb[0];
      }
    }
  }

  lemma EqualFoldTail(a: string, b: string)
    requires a != "" && b != "" && ToLower(a[0]) == ToLower(b[0])
    ensures EqualFold(a, b) <==> EqualFold(a[1..], b[1..])
  {
    if EqualFold(a[1..], b[1..]) {
      forall i | 0 <= i < |a|
        ensures ToLower(a[i]) == ToLower(b[i])
      {
        if i > 0 {
          assert a[i] == a[1..][i - 1] && b[i] == b[1..][i - 1];
        }
      }
    }
  }

  /** Keys count as the same exactly when they are equal up to case, if they are field
      names, and otherwise only when they are equal. */
  lemma SameKeyIff(a: string, b: string)
    ensures SameKey(CanonicalHeaderKey, a, b) <==> if IsToken(a) && IsToken(b) then EqualFold(a, b) else a == b
  {
    RecaseFolds(a, b, true);
    if IsToken(a) && !IsToken(b) {
      RecaseKeepsTokens(a, true);
    }
    if IsToken(b) && !IsToken(a) {
      RecaseKeepsTokens(b, true);
    }
  }

  lemma {:induction false} RecaseKeepsTokens(key: string, upper: bool)
    requires IsToken(key)
    ensures IsToken(Recase(key, upper))
  {
    if key != "" {
      RecaseKeepsTokens(key[1..], key[0] == '-');
    }
  }
}
