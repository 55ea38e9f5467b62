/** How ExtractFromResponse of token/heartbeat.go finds a token in a response. */
module ResponseTokens {
  import opened Options
  import opened CookieMerge
  import HeaderKeys

  /** What is read of a response: its cookies, and the Authorization header, empty if
      there is none. */
  datatype Response = Response(cookies: Cookies, authorization: string)

  const BEARER := "Bearer "

  /** strings.ToLower on the name of a cookie, which is ASCII. */
  function Lower(s: string): (r: string)
    ensures |r| == |s|
  {
    if s == "" then "" else [HeaderKeys.ToLower(s[0])] + Lower(s[1..])
  }

  predicate HasPrefix(s: string, prefix: string) {
    |s| >= |prefix| && s[..|prefix|] == prefix
  }

  predicate Contains(s: string, part: string) {
    HasPrefix(s, part) || (s != "" && Contains(s[1..], part))
  }

  predicate IsTokenCookie(c: HttpCookie) {
    Contains(Lower(c.name), "jwt") || Contains(Lower(c.name), "token")
  }

  /** The value of the first token cookie. */
  function TokenCookie(cs: Cookies): Option<string> {
    if cs == [] then None
    else if IsTokenCookie(cs[0]) then Some(cs[0].value)
    else TokenCookie(cs[1..])
  }

  /** The token a response brings: the one in the header before the one in a cookie. */
  function TokenOf(resp: Response): Option<string> {
    if HasPrefix(resp.authorization, BEARER) then Some(resp.authorization[|BEARER|..])
    else TokenCookie(resp.cookies)
  }

  /** A bearer token is what follows the word and one space, whatever the cookies are. */
  lemma BearerToken(cs: Cookies, token: string)
    ensures TokenOf(Response(cs, "Bearer " + token)) == Some(token)
  {
    assert |"Bearer "| == 7;
    assert ("Bearer " + token)[..7] == "Bearer " && ("Bearer " + token)[7..] == token;
  }

  /** A stretch of `name` is `part`, up to case. */
  ghost predicate HasUpToCase(name: string, part: string) {
    exists i: nat :: IsUpToCaseAt(name, part, i)
  }

  ghost predicate IsUpToCaseAt(name: string, part: string, i: nat) {
    i + |part| <= |name| && HeaderKeys.EqualFold(name[i..i + |part|], part)
  }

  predicate IsLowerCase(part: string) {
    forall i :: 0 <= i < |part| ==> HeaderKeys.ToLower(part[i]) == part[i]
  }

  lemma {:induction false} LowerAt(s: string)
    ensures forall i :: 0 <= i < |s| ==> Lower(s)[i] == HeaderKeys.ToLower(s[i])
  {
    if s != "" {
      LowerAt(s[1..]);
    }
  }

  lemma PrefixIff(name: string, part: string)
    requires IsLowerCase(part)
    ensures HasPrefix(Lower(name), part) <==> IsUpToCaseAt(name, part, 0)
  {
    LowerAt(name);
  }

  lemma LowerTail(name: string)
    requires name != ""
    ensures Lower(name)[1..] == Lower(name[1..])
  {
  }

  lemma {:induction false} ContainsIff(name: string, part: string)
    requires IsLowerCase(part)
    ensures Contains(Lower(name), part) <==> HasUpToCase(name, part)
    decreases |name|
  {
    PrefixIff(name, part);
    if name != "" {
      LowerTail(name);
      ContainsIff(name[1..], part);
      forall i: nat
        ensures IsUpToCaseAt(name[1..], part, i) <==> IsUpToCaseAt(name, part, i + 1)
      {
        if i + 1 + |part| <= |name| {
          assert name[1..][i..i + |part|] == name[i + 1..i + 1 + |part|];
        }
      }
      if i: nat :| IsUpToCaseAt(name, part, i) {
        assert i > 0 ==> IsUpToCaseAt(name[1..], part, i - 1);
      }
    }
  }

  /** A cookie counts as a token if and only if its name has "jwt" or "token" in it, in
      whatever case. */
  lemma TokenCookieIff(c: HttpCookie)
    ensures IsTokenCookie(c) <==> HasUpToCase(c.name, "jwt") || HasUpToCase(c.name, "token")
  {
    ContainsIff(c.name, "jwt");
    ContainsIff(c.name, "token");
  }

  ghost predicate NoTokenBefore(cs: Cookies, i: nat) {
    i <= |cs| && forall j :: 0 <= j < i ==> !IsTokenCookie(cs[j])
  }

  /** Cookies before the first token cookie do not matter. */
  lemma {:induction false} TokenCookieSkips(cs: Cookies, i: nat)
    requires NoTokenBefore(cs, i)
    ensures TokenCookie(cs) == TokenCookie(cs[i..])
  {
    if i > 0 {
      assert NoTokenBefore(cs[1..], i - 1) by {
        assert forall j :: 0 <= j < i - 1 ==> cs[1..][j] == cs[j + 1];
      }
      TokenCookieSkips(cs[1..], i - 1);
      assert cs[1..][i - 1..] == cs[i..];
    }
  }

  /** A bearer token wins; otherwise it is the value of the first token cookie. */
  lemma TokenOfIs(resp: Response, i: nat)
    requires NoTokenBefore(resp.cookies, i) && !HasPrefix(resp.authorization, BEARER)
    ensures i == |resp.cookies| ==> TokenOf(resp) == None
    ensures i < |resp.cookies| && IsTokenCookie(resp.cookies[i]) ==> TokenOf(resp) == Some(resp.cookies[i].value)
  {
    TokenCookieSkips(resp.cookies, i);
  }

  /** Lines 192-203. */
  method FindToken(resp: Response) returns (token: Option<string>)
    ensures token == TokenOf(resp)
  {
    token := TokenInCookies(resp.cookies);
    if HasPrefix(resp.authorization, BEARER) {
      token := Some(resp.authorization[|BEARER|..]);
    }
  }

  /** Lines 192-198. */
  method TokenInCookies(cookies: Cookies) returns (token: Option<string>)
    ensures token == TokenCookie(cookies)
  {
    for i := 0 to |cookies|
      invariant NoTokenBefore(cookies, i)
    {
      if IsTokenCookie(cookies[i]) {
        TokenCookieSkips(cookies, i);
        return Some(cookies[i].value);
      }
    }
    TokenCookieSkips(cookies, |cookies|);
    token := None;
  }
}
