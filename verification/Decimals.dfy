// Numbers in decimal, and strings cut at a separator.

module Decimals {
  // Go's %d / %v for integers.
  function Digit(d: nat): char
    requires d < 10
  {
    "0123456789"[d]
  }

  function NatText(n: nat): (s: string)
    ensures s != [] && forall c :: c in s ==> '0' <= c <= '9'
  {
    if n < 10 then [Digit(n)] else NatText(n / 10) + [Digit(n % 10)]
  }

  function IntText(n: int): string {
    if n < 0 then "-" + NatText(-n) else NatText(n)
  }

  predicate Free(c: char, s: string) {
    forall k :: 0 <= k < |s| ==> s[k] != c
  }

  lemma {:induction false} NatTextInjective(m: nat, n: nat)
    requires NatText(m) == NatText(n)
    ensures m == n
  {
    var a, b := NatText(m), NatText(n);
    assert a[|a| - 1] == Digit(m % 10) && b[|b| - 1] == Digit(n % 10);
    assert m >= 10 ==> a[..|a| - 1] == NatText(m / 10);
    assert n >= 10 ==> b[..|b| - 1] == NatText(n / 10);
    if m >= 10 && n >= 10 { NatTextInjective(m / 10, n / 10); }
  }

  lemma IntTextInjective(m: int, n: int)
    requires IntText(m) == IntText(n)
    ensures m == n
  {
    assert m < 0 ==> IntText(m)[0] == '-' && IntText(m)[1..] == NatText(-m);
    assert n < 0 ==> IntText(n)[0] == '-' && IntText(n)[1..] == NatText(-n);
    assert m >= 0 ==> IntText(m)[0] in NatText(m);
    assert n >= 0 ==> IntText(n)[0] in NatText(n);
    if m < 0 && n < 0 { NatTextInjective(-m, -n); }
    if m >= 0 && n >= 0 { NatTextInjective(m, n); }
  }

  lemma NumbersAreFree(n: int, c: char)
    requires c == ':' || c == '/' || c == '*'
    ensures Free(c, IntText(n))
  {
    var s := NatText(if n < 0 then -n else n);
    forall k | 0 <= k < |s| ensures s[k] != c { assert s[k] in s; }
  }

  // Text up to the first separator can be read back, and so can the rest.
  lemma SplitAtFirst(a: string, x: string, b: string, y: string, c: char)
    requires Free(c, a) && Free(c, b)
    requires a + [c] + x == b + [c] + y
    ensures a == b && x == y
  {
    var s, s' := a + [c] + x, b + [c] + y;
    assert forall k :: 0 <= k < |a| ==> s[k] == a[k];
    assert forall k :: 0 <= k < |b| ==> s'[k] == b[k];
    assert s[|a|] == c && s'[|b|] == c;
    assert |a| == |b|;
    assert a == s[..|a|] && b == s'[..|b|];
    assert x == s[|a| + 1..] && y == s'[|b| + 1..];
  }

  // What follows the last separator, and what comes before it, are determined by the whole.
  lemma SplitAtLast(p: string, x: string, q: string, y: string)
    requires Free('/', x) && Free('/', y) && p + "/" + x == q + "/" + y
    ensures p == q && x == y
  {
    var s := p + "/" + x;
    assert s[|p|] == '/' && s[|q|] == '/';
    assert s[..|p|] == p && s[..|q|] == q;
    assert s[|p| + 1..] == x && s[|q| + 1..] == y;
    NoLaterSlash(p, x);
    NoLaterSlash(q, y);
  }

  lemma NoLaterSlash(p: string, x: string)
    requires Free('/', x)
    ensures forall k :: |p| < k < |p + "/" + x| ==> (p + "/" + x)[k] != '/'
  {
    var s := p + "/" + x;
    assert forall k :: |p| < k < |s| ==> s[k] == x[k - |p| - 1];
  }
}
