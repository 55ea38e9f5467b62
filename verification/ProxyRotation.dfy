/** Round-robin proxies, as in proxy/proxy.go. */
module ProxyRotation {

  /** The index after one call. */
  function Next(i: nat, m: nat): (r: nat)
    requires i < m
    ensures r < m
  {
    if i + 1 == m then 0 else i + 1
  }

  /** The position after `n` calls that started at `i`. */
  function Advance(i: nat, n: nat, m: nat): (r: nat)
    requires i < m
    ensures r < m
  {
    if n == 0 then i else Next(Advance(i, n - 1, m), m)
  }

  /** The positions that `n` calls hand out, in order. */
  function HandedOut(i: nat, n: nat, m: nat): (r: seq<nat>)
    requires i < m
    ensures |r| == n
    ensures forall k :: 0 <= k < n ==> r[k] < m
  {
    if n == 0 then [] else HandedOut(i, n - 1, m) + [Advance(i, n - 1, m)]
  }

  /** A full turn comes back to where it started. */
  lemma {:induction false} AdvanceWithinTurn(i: nat, n: nat, m: nat)
    requires i < m && n <= m
    ensures Advance(i, n, m) == if i + n < m then i + n else i + n - m
  {
    if n > 0 {
      AdvanceWithinTurn(i, n - 1, m);
    }
  }

  lemma {:induction false} AdvanceTurn(i: nat, n: nat, m: nat)
    requires i < m
    ensures Advance(i, n + m, m) == Advance(i, n, m)
    decreases n
  {
    if n == 0 {
      AdvanceWithinTurn(i, m, m);
    } else {
      AdvanceTurn(i, n - 1, m);
    }
  }

  function Count(ps: seq<nat>, p: nat): nat {
    if ps == [] then 0 else Count(ps[..|ps| - 1], p) + if ps[|ps| - 1] == p then 1 else 0
  }

  lemma CountAppend(ps: seq<nat>, q: nat, p: nat)
    ensures Count(ps + [q], p) == Count(ps, p) + if q == p then 1 else 0
  {
    assert (ps + [q])[..|ps|] == ps;
  }

  /** How many of `n` calls get to a position. */
  function Hits(i: nat, n: nat, m: nat, p: nat): nat
    requires i < m
  {
    if n == 0 then 0 else Hits(i, n - 1, m, p) + if Advance(i, n - 1, m) == p then 1 else 0
  }

  lemma {:induction false} HitsAreCounted(i: nat, n: nat, m: nat, p: nat)
    requires i < m
    ensures Count(HandedOut(i, n, m), p) == Hits(i, n, m, p)
    decreases n
  {
    if n > 0 {
      HitsAreCounted(i, n - 1, m, p);
      CountAppend(HandedOut(i, n - 1, m), Advance(i, n - 1, m), p);
    }
  }

  /** How many calls come before the one that gets to a position. */
  function Distance(i: nat, p: nat, m: nat): (d: nat)
    requires i < m && p < m
    ensures d < m
  {
    if p >= i then p - i else p - i + m
  }

  lemma ReachedOnce(i: nat, n: nat, m: nat, p: nat)
    requires i < m && p < m && n < m
    ensures Advance(i, n, m) == p <==> n == Distance(i, p, m)
  {
    AdvanceWithinTurn(i, n, m);
  }

  /** Within one turn a position comes up once, when the calls get to it. */
  lemma {:induction false} HitsWithinTurn(i: nat, n: nat, m: nat, p: nat)
    requires i < m && p < m && n <= m
    ensures Hits(i, n, m, p) == if Distance(i, p, m) < n then 1 else 0
    decreases n
  {
    if n > 0 {
      HitsWithinTurn(i, n - 1, m, p);
      ReachedOnce(i, n - 1, m, p);
    }
  }

  lemma {:induction false} HitsInTurn(i: nat, n: nat, m: nat, p: nat)
    requires i < m && p < m
    ensures Hits(i, n + m, m, p) == Hits(i, n, m, p) + 1
    decreases n
  {
    if n == 0 {
      HitsWithinTurn(i, m, m, p);
    } else {
      HitsInTurn(i, n - 1, m, p);
      AdvanceTurn(i, n - 1, m);
    }
  }

  /** Another turn hands out every position once more. */
  lemma CountTurn(i: nat, n: nat, m: nat, p: nat)
    requires i < m && p < m
    ensures Count(HandedOut(i, n + m, m), p) == Count(HandedOut(i, n, m), p) + 1
  {
    HitsAreCounted(i, n, m, p);
    HitsAreCounted(i, n + m, m, p);
    HitsInTurn(i, n, m, p);
  }

  lemma DivIs(n: nat, m: nat, q: nat, r: nat)
    requires 0 < m && r < m && n == q * m + r
    ensures n / m == q && n % m == r
  {
    var d := n / m - q;
    assert d * m == r - n % m by {
      assert n == n / m * m + n % m;
    }
    assert d >= 1 ==> d * m >= m;
    assert d <= -1 ==> d * m + m <= 0;
    assert d == 0;
  }

  lemma DivTurn(n: nat, m: nat)
    requires 0 < m <= n
    ensures n / m == (n - m) / m + 1 && n % m == (n - m) % m
  {
    var q, r := (n - m) / m, (n - m) % m;
    assert n - m == q * m + r;
    assert (q + 1) * m == q * m + m;
    DivIs(n, m, q + 1, r);
  }

  /** `c` is floor(n/m) or ceil(n/m). */
  predicate IsShare(c: nat, n: nat, m: nat)
    requires 0 < m
  {
    n / m <= c <= n / m + if n % m == 0 then 0 else 1
  }

  lemma ShareWithinTurn(c: nat, n: nat, m: nat)
    requires n < m && c <= 1 && (n == 0 ==> c == 0)
    ensures IsShare(c, n, m)
  {
    DivIs(n, m, 0, n);
  }

  lemma ShareOfTurn(c: nat, n: nat, m: nat)
    requires 0 < m <= n && IsShare(c, n - m, m)
    ensures IsShare(c + 1, n, m)
  {
    DivTurn(n, m);
  }

  /** From any starting index, `n` calls hand out every position floor(n/m) or ceil(n/m)
      times. */
  lemma {:induction false} RotationIsBalanced(i: nat, n: nat, m: nat, p: nat)
    requires i < m && p < m
    ensures IsShare(Count(HandedOut(i, n, m), p), n, m)
    decreases n
  {
    if n < m {
      HitsAreCounted(i, n, m, p);
      HitsWithinTurn(i, n, m, p);
      ShareWithinTurn(Count(HandedOut(i, n, m), p), n, m);
    } else {
      RotationIsBalanced(i, n - m, m, p);
      CountTurn(i, n - m, m, p);
      ShareOfTurn(Count(HandedOut(i, n - m, m), p), n, m);
    }
  }

  lemma NextRemainder(n: nat, m: nat)
    requires 0 < m
    ensures (n + 1) % m == Next(n % m, m)
  {
    var q, r := n / m, n % m;
    assert n == q * m + r;
    if r + 1 == m {
      assert (q + 1) * m == q * m + m;
      DivIs(n + 1, m, q + 1, 0);
    } else {
      DivIs(n + 1, m, q, r + 1);
    }
  }

  /** In one formula: `n` calls move the index by `n`, around the end. */
  lemma {:induction false} AdvanceIsModulo(i: nat, n: nat, m: nat)
    requires i < m
    ensures Advance(i, n, m) == (i + n) % m
    decreases n
  {
    if n == 0 {
      DivIs(i, m, 0, i);
    } else {
      AdvanceIsModulo(i, n - 1, m);
      NextRemainder(i + n - 1, m);
    }
  }

  lemma NextIsModulo(i: nat, m: nat)
    requires i < m
    ensures (i + 1) % m == Next(i, m)
  {
    DivIs(i + 1, m, if i + 1 == m then 1 else 0, Next(i, m));
  }

  class ProxyManager {
    var proxies: seq<string>
    var index: nat

    ghost predicate Valid()
      reads this
    {
      proxies != [] ==> index < |proxies|
    }

    constructor ()
      ensures Valid() && proxies == []
    {
      proxies, index := [], 0;
    }

    /** An error leaves the proxies and the index alone. */
    method LoadProxies(file: File) returns (ok: bool)
      requires Valid()
      modifies this
      ensures Valid() && ok == (file.Opened? && file.complete)
      ensures !ok ==> proxies == old(proxies) && index == old(index)
      ensures ok ==> proxies == Loaded(file.lines) && index == 0
    {
      if file.Unopened? {
        return false;
      }
      var lines, loaded := file.lines, [];
      for i := 0 to |lines|
        invariant loaded == Loaded(lines[..i])
      {
        assert lines[..i + 1][..i] == lines[..i];
        var line := Trimmed(lines[i]);
        if IsProxy(line) {
          loaded := loaded + [line];
        }
      }
      assert lines[..|lines|] == lines;
      if !file.complete {
        return false;
      }
      proxies, index := loaded, 0;
      ok := true;
    }

    method GetNextProxy() returns (p: string)
      requires Valid()
      modifies this`index
      ensures Valid()
      ensures proxies == [] ==> p == "" && index == old(index)
      ensures proxies != [] ==> p == proxies[old(index)] && index == Advance(old(index), 1, |proxies|)
    {
      if |proxies| == 0 {
        return "";
      }
      p := proxies[index];
      NextIsModulo(index, |proxies|);
      index := (index + 1) % |proxies|;
      assert Advance(old(index), 0, |proxies|) == old(index);
    }

    method Count() returns (n: nat)
      ensures n == |proxies|
    {
      n := |proxies|;
    }
  }

  // ---- The file of proxies ----

  /** What os.Open and the scanner make of a file name: an error, or lines up to the end
      of the file or up to a read error. */
  datatype File = Unopened | Opened(lines: seq<string>, complete: bool)

  /** The white space that strings.TrimSpace takes away. */
  predicate IsSpace(c: char) {
    || '\t' <= c <= '\r' || c == ' ' || c in "\U{85}\U{A0}\U{1680}\U{2028}\U{2029}\U{202F}\U{205F}\U{3000}"
    || '\U{2000}' <= c <= '\U{200A}'
  }

  /** How much white space a line starts with. */
  function Start(line: string): (lo: nat)
    ensures lo <= |line| && (lo < |line| ==> !IsSpace(line[lo]))
    ensures forall i :: 0 <= i < lo ==> IsSpace(line[i])
  {
    if line != "" && IsSpace(line[0]) then 1 + Start(line[1..]) else 0
  }

  /** Where the white space at the end of a line starts. */
  function End(line: string): (hi: nat)
    ensures hi <= |line| && (hi > 0 ==> !IsSpace(line[hi - 1]))
    ensures forall i :: hi <= i < |line| ==> IsSpace(line[i])
  {
    if line != "" && IsSpace(line[|line| - 1]) then End(line[..|line| - 1]) else |line|
  }

  /** Only white space goes, and only at the ends. */
  function Trimmed(line: string): (r: string)
    ensures r != "" ==> !IsSpace(r[0]) && !IsSpace(r[|r| - 1])
    ensures r == "" ==> forall i :: 0 <= i < |line| ==> IsSpace(line[i])
  {
    if Start(line) < End(line) then line[Start(line)..End(line)] else ""
  }

  /** What is left of a line is one stretch of it, and all around it is white space. */
  lemma TrimmedIsSlice(line: string) returns (lo: nat, hi: nat)
    ensures lo <= hi <= |line| && Trimmed(line) == line[lo..hi]
    ensures forall i :: 0 <= i < |line| && !(lo <= i < hi) ==> IsSpace(line[i])
  {
    lo, hi := Start(line), End(line);
    if lo >= hi {
      lo, hi := 0, 0;
    }
  }

  /** The white space among the ASCII characters: tab, line feed, vertical tab, form feed,
      carriage return and blank. */
  lemma AsciiSpaces(c: char)
    requires c < 128 as char
    ensures IsSpace(c) <==> c as int in [9, 10, 11, 12, 13, 32]
  {
  }

  /** Blank lines and comments are skipped. */
  predicate IsProxy(line: string) {
    line != "" && line[0] != '#'
  }

  function Loaded(lines: seq<string>): seq<string> {
    if lines == [] then []
    else
      var line := Trimmed(lines[|lines| - 1]);
      Loaded(lines[..|lines| - 1]) + if IsProxy(line) then [line] else []
  }

  /** Line by line: a line gives its trimmed text if that is neither empty nor starts with
      a '#', and otherwise nothing. */
  lemma LoadedOne(line: string)
    ensures Trimmed(line) == "" || Trimmed(line)[0] == '#' ==> Loaded([line]) == []
    ensures Trimmed(line) != "" && Trimmed(line)[0] != '#' ==> Loaded([line]) == [Trimmed(line)]
  {
    assert [line][..0] == [];
    assert Loaded([]) == [];
  }

  /** And the order of the lines, repetitions included, is that of the proxies. */
  lemma {:induction false} LoadedSplits(a: seq<string>, b: seq<string>)
    ensures Loaded(a + b) == Loaded(a) + Loaded(b)
    decreases |b|
  {
    if b == [] {
      assert a + b == a;
    } else {
      var n := |b| - 1;
      assert (a + b)[..|a + b| - 1] == a + b[..n];
      LoadedSplits(a, b[..n]);
    }
  }

  /** Some line is `proxy` but for white space at its ends. */
  predicate HasLine(lines: seq<string>, proxy: string) {
    exists i :: 0 <= i < |lines| && Trimmed(lines[i]) == proxy
  }

  lemma HasLineAppend(lines: seq<string>, line: string, proxy: string)
    ensures HasLine(lines + [line], proxy) <==> HasLine(lines, proxy) || Trimmed(line) == proxy
  {
    var more := lines + [line];
    assert more[|lines|] == line;
    assert forall i :: 0 <= i < |lines| ==> more[i] == lines[i];
  }

  lemma LoadedAppend(lines: seq<string>, line: string, proxy: string)
    ensures proxy in Loaded(lines + [line]) <==> proxy in Loaded(lines) || (IsProxy(proxy) && Trimmed(line) == proxy)
  {
    LoadedSplits(lines, [line]);
    LoadedOne(line);
  }

  lemma {:induction false} LoadedUpTo(lines: seq<string>, n: nat, proxy: string)
    requires n <= |lines|
    ensures proxy in Loaded(lines[..n]) <==> IsProxy(proxy) && HasLine(lines[..n], proxy)
    decreases n
  {
    if n > 0 {
      LoadedUpTo(lines, n - 1, proxy);
      LoadedAppend(lines[..n - 1], lines[n - 1], proxy);
      HasLineAppend(lines[..n - 1], lines[n - 1], proxy);
      assert lines[..n - 1] + [lines[n - 1]] == lines[..n];
    }
  }

  /** What is loaded is exactly the trimmed lines that are neither blank nor comments. */
  lemma LoadedIff(lines: seq<string>, proxy: string)
    ensures proxy in Loaded(lines) <==> proxy != "" && proxy[0] != '#' && HasLine(lines, proxy)
  {
    LoadedUpTo(lines, |lines|, proxy);
    assert lines[..|lines|] == lines;
  }
}
