// Redis keys: how the service spells them, which keys a delete-by-pattern removes,
// and why two different requests never share a key.

module CacheKeys {
  import opened Decimals

  const USER_FILE_LIST := "user:file:list"
  const FILE_OBJECT := "file:object"
  const FILE_OBJECT_HASH := "file:object:hash"
  const FILE_OBJECT_PATH := "file:object:path"

  function Suffix(parts: seq<string>): string {
    if parts == [] then "" else ":" + parts[0] + Suffix(parts[1..])
  }

  // What BuildCacheKey computes: the prefix, then every parameter after a colon.
  function CacheKey(prefix: string, parts: seq<string>): string {
    prefix + Suffix(parts)
  }

  method BuildCacheKey(prefix: string, parts: seq<string>) returns (key: string)
    ensures key == CacheKey(prefix, parts)
  {
    key := prefix;
    var i := 0;
    while i < |parts|
      invariant 0 <= i <= |parts|
      invariant key + Suffix(parts[i..]) == CacheKey(prefix, parts)
    {
      assert parts[i..][1..] == parts[i + 1..];
      assert key + (":" + parts[i] + Suffix(parts[i + 1..])) == (key + ":" + parts[i]) + Suffix(parts[i + 1..]);
      key := key + ":" + parts[i];
      i := i + 1;
    }
  }

  lemma SuffixCons(a: string, xs: seq<string>)
    ensures Suffix([a] + xs) == ":" + a + Suffix(xs)
  {
    assert ([a] + xs)[1..] == xs;
  }

  lemma PeelPart(a: string, x: string, b: string, y: string)
    requires Free(':', a) && Free(':', b) && x != [] && x[0] == ':' && y != [] && y[0] == ':'
    requires ":" + a + x == ":" + b + y
    ensures a == b && x == y
  {
    assert x == [':'] + x[1..] && y == [':'] + y[1..];
    assert (":" + a + x)[1..] == a + [':'] + x[1..];
    assert (":" + b + y)[1..] == b + [':'] + y[1..];
    SplitAtFirst(a, x[1..], b, y[1..], ':');
  }

  // A parameter without colon can be split off a key.
  lemma SuffixSplit(a: string, xs: seq<string>, b: string, ys: seq<string>)
    requires Free(':', a) && Free(':', b) && xs != [] && ys != []
    requires Suffix([a] + xs) == Suffix([b] + ys)
    ensures a == b && Suffix(xs) == Suffix(ys)
  {
    SuffixSplitRest(a, xs, "", b, ys);
    assert Suffix(xs) + "" == Suffix(xs);
  }

  lemma SuffixSplitRest(a: string, xs: seq<string>, rest: string, b: string, ys: seq<string>)
    requires Free(':', a) && Free(':', b) && (xs != [] || (rest != [] && rest[0] == ':')) && ys != []
    requires Suffix([a] + xs) + rest == Suffix([b] + ys)
    ensures a == b && Suffix(xs) + rest == Suffix(ys)
  {
    SuffixCons(a, xs);
    SuffixCons(b, ys);
    SuffixHead(xs);
    SuffixHead(ys);
    PeelRest(a, Suffix(xs), rest, b, Suffix(ys));
  }

  lemma PeelRest(a: string, x: string, rest: string, b: string, y: string)
    requires Free(':', a) && Free(':', b) && y != [] && y[0] == ':'
    requires if x == [] then rest != [] && rest[0] == ':' else x[0] == ':'
    requires ":" + a + x + rest == ":" + b + y
    ensures a == b && x + rest == y
  {
    assert ":" + a + x + rest == ":" + a + (x + rest);
    PeelPart(a, x + rest, b, y);
  }

  lemma SuffixHead(xs: seq<string>)
    ensures if xs == [] then Suffix(xs) == "" else Suffix(xs) != [] && Suffix(xs)[0] == ':'
  {
    if xs != [] { assert Suffix(xs) == [':'] + (xs[0] + Suffix(xs[1..])); }
  }

  datatype PageReq = PageReq(page: int, pageSize: int, orderBy: string, desc: bool)

  function BoolText(b: bool): string { if b then "true" else "false" }

  function ListParts(user: nat, parent: nat, r: PageReq): seq<string> {
    [NatText(user)] + ([NatText(parent)] +
      ([IntText(r.page)] + ([IntText(r.pageSize)] + ([r.orderBy] + [BoolText(r.desc)]))))
  }

  function ListKey(user: nat, parent: nat, r: PageReq): string {
    CacheKey(USER_FILE_LIST, ListParts(user, parent, r))
  }

  function ListPattern(user: nat, parent: nat): string {
    CacheKey(USER_FILE_LIST, [NatText(user)] + [NatText(parent)]) + ":*"
  }

  // Redis MATCH, for patterns whose only special character is '*'.
  predicate GlobMatch(pattern: string, s: string)
    decreases |pattern| + |s|
  {
    if pattern == [] then s == []
    else if pattern[0] == '*' then
      GlobMatch(pattern[1..], s) || (s != [] && GlobMatch(pattern, s[1..]))
    else s != [] && s[0] == pattern[0] && GlobMatch(pattern[1..], s[1..])
  }

  lemma {:induction false} StarMatchesAll(s: string)
    ensures GlobMatch("*", s)
  {
    if s != [] { StarMatchesAll(s[1..]); }
  }

  // A literal followed by '*' matches exactly the strings that start with it.
  lemma {:induction false} GlobIsPrefix(lit: string, s: string)
    requires Free('*', lit)
    ensures GlobMatch(lit + "*", s) <==> lit <= s
  {
    var p := lit + "*";
    if lit == [] {
      assert p == "*";
      StarMatchesAll(s);
    } else {
      assert p[0] == lit[0] && p[1..] == lit[1..] + "*";
      if s != [] {
        GlobIsPrefix(lit[1..], s[1..]);
        assert s == [s[0]] + s[1..] && lit == [lit[0]] + lit[1..];
        assert lit <= s ==> lit[0] == s[0] && lit[1..] == s[1..][..|lit| - 1];
      }
    }
  }

  // Different requests have different keys, whatever text the client sends as order_by.
  lemma ListKeyInjective(u: nat, p: nat, r: PageReq, u': nat, p': nat, r': PageReq)
    requires ListKey(u, p, r) == ListKey(u', p', r')
    ensures u == u' && p == p' && r == r'
  {
    var k := USER_FILE_LIST;
    var t5, t5' := [BoolText(r.desc)], [BoolText(r'.desc)];
    var t4, t4' := [r.orderBy] + t5, [r'.orderBy] + t5';
    var t3, t3' := [IntText(r.pageSize)] + t4, [IntText(r'.pageSize)] + t4';
    var t2, t2' := [IntText(r.page)] + t3, [IntText(r'.page)] + t3';
    var t1, t1' := [NatText(p)] + t2, [NatText(p')] + t2';
    assert Suffix([NatText(u)] + t1) == ListKey(u, p, r)[|k|..];
    assert Suffix([NatText(u')] + t1') == ListKey(u', p', r')[|k|..];
    PartsAreFree(u, p, r);
    PartsAreFree(u', p', r');
    SuffixSplit(NatText(u), t1, NatText(u'), t1');
    SuffixSplit(NatText(p), t2, NatText(p'), t2');
    SuffixSplit(IntText(r.page), t3, IntText(r'.page), t3');
    SuffixSplit(IntText(r.pageSize), t4, IntText(r'.pageSize), t4');
    NatTextInjective(u, u');
    NatTextInjective(p, p');
    IntTextInjective(r.page, r'.page);
    IntTextInjective(r.pageSize, r'.pageSize);
    OrderInjective(r, r');
  }

  lemma PartsAreFree(u: nat, p: nat, r: PageReq)
    ensures Free(':', NatText(u)) && Free(':', NatText(p)) && Free('*', NatText(u)) && Free('*', NatText(p))
    ensures Free(':', IntText(r.page)) && Free(':', IntText(r.pageSize))
  {
    NumbersAreFree(u, ':');
    NumbersAreFree(p, ':');
    NumbersAreFree(u, '*');
    NumbersAreFree(p, '*');
    NumbersAreFree(r.page, ':');
    NumbersAreFree(r.pageSize, ':');
  }

  // The order text may hold anything; the flag after it is read from the end.
  lemma OrderInjective(r: PageReq, r': PageReq)
    requires Suffix([r.orderBy] + [BoolText(r.desc)]) == Suffix([r'.orderBy] + [BoolText(r'.desc)])
    ensures r.orderBy == r'.orderBy && r.desc == r'.desc
  {
    var b, b' := BoolText(r.desc), BoolText(r'.desc);
    SuffixCons(r.orderBy, [b]);
    SuffixCons(r'.orderBy, [b']);
    SuffixCons(b, []);
    SuffixCons(b', []);
    assert [b] + [] == [b] && [b'] + [] == [b'];
    var s, s' := ":" + r.orderBy + Suffix([b]), ":" + r'.orderBy + Suffix([b']);
    assert Suffix([b]) == ":" + b && Suffix([b']) == ":" + b';
    assert s == s';
    assert s[|s| - 2] == if r.desc then 'u' else 's';
    assert s'[|s'| - 2] == if r'.desc then 'u' else 's';
    assert r.orderBy == s[1..|s| - 1 - |b|] && r'.orderBy == s'[1..|s'| - 1 - |b'|];
  }

  // The pattern for a folder selects all pages of that folder and of no other.
  lemma ListPatternExact(u: nat, p: nat, u': nat, p': nat, r: PageReq)
    ensures GlobMatch(ListPattern(u, p), ListKey(u', p', r)) <==> u == u' && p == p'
  {
    var k, own := USER_FILE_LIST, Suffix([NatText(u)] + [NatText(p)]);
    var rest := [IntText(r.page)] + ([IntText(r.pageSize)] + ([r.orderBy] + [BoolText(r.desc)]));
    var tail := [NatText(p')] + rest;
    var whole := Suffix([NatText(u')] + tail);
    PatternIsPrefix(u, p, k + whole);
    PrefixCancel(k, own + ":", whole);
    assert k + own + ":" == k + (own + ":");
    PartsAreFree(u, p, r);
    PartsAreFree(u', p', r);
    if own + ":" <= whole {
      var more := ":" + whole[|own| + 1..];
      assert whole == own + more;
      SuffixSplitRest(NatText(u), [NatText(p)], more, NatText(u'), tail);
      assert Suffix([]) + more == more;
      assert [NatText(p)] + [] == [NatText(p)];
      SuffixSplitRest(NatText(p), [], more, NatText(p'), rest);
      NatTextInjective(u, u');
      NatTextInjective(p, p');
    }
    if u == u' && p == p' { OwnPageHasPrefix(u, p, rest); }
  }

  lemma PatternIsPrefix(u: nat, p: nat, key: string)
    ensures GlobMatch(ListPattern(u, p), key) <==>
      USER_FILE_LIST + Suffix([NatText(u)] + [NatText(p)]) + ":" <= key
  {
    var own := Suffix([NatText(u)] + [NatText(p)]);
    var head := USER_FILE_LIST + own + ":";
    assert ListPattern(u, p) == head + "*";
    assert Free('*', head) by {
      NumbersAreFree(u, '*');
      NumbersAreFree(p, '*');
      SuffixCons(NatText(u), [NatText(p)]);
      SuffixCons(NatText(p), []);
      assert [NatText(p)] + [] == [NatText(p)];
    }
    GlobIsPrefix(head, key);
  }

  lemma PrefixCancel(k: string, a: string, b: string)
    ensures k + a <= k + b <==> a <= b
  {
    assert (k + a)[|k|..] == a && (k + b)[|k|..] == b;
    if k + a <= k + b { assert b[..|a|] == (k + b)[|k|..|k| + |a|] == (k + a)[|k|..]; }
    if a <= b { assert b == a + b[|a|..]; assert k + b == (k + a) + b[|a|..]; }
  }

  lemma OwnPageHasPrefix(u: nat, p: nat, rest: seq<string>)
    requires rest != []
    ensures Suffix([NatText(u)] + [NatText(p)]) + ":" <= Suffix([NatText(u)] + ([NatText(p)] + rest))
  {
    SuffixCons(NatText(u), [NatText(p)]);
    SuffixCons(NatText(p), []);
    assert [NatText(p)] + [] == [NatText(p)];
    SuffixCons(NatText(u), [NatText(p)] + rest);
    SuffixCons(NatText(p), rest);
    var s := Suffix(rest);
    assert s == ":" + s[1..];
    assert Suffix([NatText(u)] + ([NatText(p)] + rest)) == Suffix([NatText(u)] + [NatText(p)]) + ":" + s[1..];
  }

  // The three families of object-cache keys never meet.
  lemma ObjectKeysDisjoint(id: nat, hash: string, bucket: string, name: string)
    ensures CacheKey(FILE_OBJECT, [NatText(id)]) != CacheKey(FILE_OBJECT_HASH, [hash])
    ensures CacheKey(FILE_OBJECT, [NatText(id)]) != CacheKey(FILE_OBJECT_PATH, [bucket] + [name])
    ensures CacheKey(FILE_OBJECT_HASH, [hash]) != CacheKey(FILE_OBJECT_PATH, [bucket] + [name])
  {
    SuffixCons(NatText(id), []);
    SuffixCons(hash, []);
    SuffixCons(bucket, [name]);
    assert [NatText(id)] + [] == [NatText(id)] && [hash] + [] == [hash];
    var a, b := CacheKey(FILE_OBJECT, [NatText(id)]), CacheKey(FILE_OBJECT_HASH, [hash]);
    var c := CacheKey(FILE_OBJECT_PATH, [bucket] + [name]);
    assert a[12] == NatText(id)[0] && NatText(id)[0] in NatText(id);
    assert b[12] == 'h' && c[12] == 'p';
  }

  // Object hashes and paths are read back from their keys, as bucket names hold no colon.
  lemma ObjectKeysInjective(hash: string, hash': string, bucket: string, name: string, bucket': string, name': string)
    requires Free(':', bucket) && Free(':', bucket')
    ensures CacheKey(FILE_OBJECT_HASH, [hash]) == CacheKey(FILE_OBJECT_HASH, [hash']) ==> hash == hash'
    ensures CacheKey(FILE_OBJECT_PATH, [bucket] + [name]) == CacheKey(FILE_OBJECT_PATH, [bucket'] + [name'])
      ==> bucket == bucket' && name == name'
  {
    OneLastPart(FILE_OBJECT_HASH, hash, hash');
    var k := FILE_OBJECT_PATH;
    var a, b := CacheKey(k, [bucket] + [name]), CacheKey(k, [bucket'] + [name']);
    if a == b {
      assert a[|k|..] == Suffix([bucket] + [name]) && b[|k|..] == Suffix([bucket'] + [name']);
      SuffixSplit(bucket, [name], bucket', [name']);
      assert CacheKey(k, [name]) == CacheKey(k, [name']);
      OneLastPart(k, name, name');
    }
  }

  lemma OneLastPart(k: string, x: string, y: string)
    ensures CacheKey(k, [x]) == CacheKey(k, [y]) ==> x == y
  {
    SuffixCons(x, []);
    SuffixCons(y, []);
    assert [x] + [] == [x] && [y] + [] == [y];
    assert CacheKey(k, [x])[|k| + 1..] == x && CacheKey(k, [y])[|k| + 1..] == y;
  }
}
