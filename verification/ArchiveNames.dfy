// Names and paths inside a zip: how the service makes a name harmless, and why joining such
// names with path.Join only puts slashes between them.

module ArchiveNames {
  import opened Decimals

  // ---- Names --------------------------------------------------------------

  function TrimLeft(s: string, space: char -> bool): string {
    if s != [] && space(s[0]) then TrimLeft(s[1..], space) else s
  }

  function TrimRight(s: string, space: char -> bool): string {
    if s != [] && space(s[|s| - 1]) then TrimRight(s[..|s| - 1], space) else s
  }

  function TrimSpace(s: string, space: char -> bool): string {
    TrimRight(TrimLeft(s, space), space)
  }

  function ReplaceChar(s: string, from: char, to: char): (r: string)
    ensures |r| == |s|
    ensures forall i :: 0 <= i < |s| ==> r[i] == if s[i] == from then to else s[i]
  {
    if s == [] then [] else [if s[0] == from then to else s[0]] + ReplaceChar(s[1..], from, to)
  }

  // ReplaceAll(s, "..", "_"), from the left and without overlaps.
  function ReplaceDots(s: string): string {
    if |s| >= 2 && s[0] == '.' && s[1] == '.' then "_" + ReplaceDots(s[2..])
    else if s == [] then []
    else [s[0]] + ReplaceDots(s[1..])
  }

  function SanitizeArchiveName(name: string, space: char -> bool): string {
    var trimmed := TrimSpace(name, space);
    var clean := ReplaceDots(ReplaceChar(ReplaceChar(trimmed, '\\', '/'), '/', '_'));
    if clean == "" || clean == "." then "unnamed" else clean
  }

  predicate NoDots(s: string) {
    forall i :: 0 <= i < |s| - 1 ==> !(s[i] == '.' && s[i + 1] == '.')
  }

  // One component of a path that means itself.
  predicate Good(s: string) {
    s != "" && s != "." && Free('/', s) && Free('\\', s) && NoDots(s)
  }

  lemma {:induction false} ReplaceDotsIsClean(s: string)
    ensures NoDots(ReplaceDots(s))
    ensures ReplaceDots(s) != [] && ReplaceDots(s)[0] == '.' ==> s != [] && s[0] == '.'
    ensures s != [] ==> ReplaceDots(s) != []
  {
    if |s| >= 2 && s[0] == '.' && s[1] == '.' {
      ReplaceDotsIsClean(s[2..]);
    } else if s != [] {
      ReplaceDotsIsClean(s[1..]);
    }
  }

  lemma {:induction false} ReplaceDotsFree(s: string, c: char)
    requires c != '_' && Free(c, s)
    ensures Free(c, ReplaceDots(s))
  {
    if |s| >= 2 && s[0] == '.' && s[1] == '.' {
      ReplaceDotsFree(s[2..], c);
    } else if s != [] {
      ReplaceDotsFree(s[1..], c);
    }
  }

  // Every name becomes a good component.
  lemma SanitizedIsGood(name: string, space: char -> bool)
    ensures Good(SanitizeArchiveName(name, space))
  {
    var trimmed := TrimSpace(name, space);
    var flat := ReplaceChar(ReplaceChar(trimmed, '\\', '/'), '/', '_');
    assert Free('/', flat) && Free('\\', flat);
    ReplaceDotsIsClean(flat);
    ReplaceDotsFree(flat, '/');
    ReplaceDotsFree(flat, '\\');
  }

  lemma {:induction false} CleanStays(s: string)
    requires NoDots(s)
    ensures ReplaceDots(s) == s
  {
    if s != [] {
      var rest := s[1..];
      forall i | 0 <= i < |rest| - 1 ensures !(rest[i] == '.' && rest[i + 1] == '.') {
        assert rest[i] == s[i + 1];
      }
      CleanStays(rest);
    }
  }

  // A name that is good, and neither starts nor ends with a space, is left as it is.
  lemma GoodNamesStay(name: string, space: char -> bool)
    requires Good(name) && !space(name[0]) && !space(name[|name| - 1])
    ensures SanitizeArchiveName(name, space) == name
  {
    assert TrimSpace(name, space) == name;
    assert ReplaceChar(name, '\\', '/') == name && ReplaceChar(name, '/', '_') == name;
    CleanStays(name);
  }

  // ---- Paths --------------------------------------------------------------

  // The components between slashes.
  function Split(p: string): (r: seq<string>)
    ensures r != [] && forall k :: 0 <= k < |r| ==> Free('/', r[k])
  {
    if p == [] then [""]
    else
      var rest := Split(p[1..]);
      if p[0] == '/' then [""] + rest else [[p[0]] + rest[0]] + rest[1..]
  }

  function JoinSlash(parts: seq<string>): string
    requires parts != []
  {
    if |parts| == 1 then parts[0] else parts[0] + "/" + JoinSlash(parts[1..])
  }

  // Drops empty and "." components and resolves "..".
  function Resolve(parts: seq<string>, rooted: bool): seq<string> {
    if parts == [] then []
    else
      var done, last := Resolve(parts[..|parts| - 1], rooted), parts[|parts| - 1];
      if last == "" || last == "." then done
      else if last != ".." then done + [last]
      else if done != [] && done[|done| - 1] != ".." then done[..|done| - 1]
      else if rooted then done
      else done + [last]
  }

  function Clean(p: string): string {
    var rooted := p != [] && p[0] == '/';
    var parts := Resolve(Split(p), rooted);
    if parts == [] then (if rooted then "/" else ".") else (if rooted then "/" else "") + JoinSlash(parts)
  }

  // path.Join of two elements: empty ones are ignored.
  function PathJoin(prefix: string, name: string): string {
    if prefix == "" && name == "" then ""
    else if prefix == "" then Clean(name)
    else if name == "" then Clean(prefix)
    else Clean(prefix + "/" + name)
  }

  lemma {:induction false} JoinOfSplit(p: string)
    ensures JoinSlash(Split(p)) == p
  {
    if p != [] {
      JoinOfSplit(p[1..]);
      var rest := Split(p[1..]);
      if p[0] == '/' {
        assert ([""] + rest)[1..] == rest;
      } else if |rest| > 1 {
        assert ([[p[0]] + rest[0]] + rest[1..])[1..] == rest[1..];
      }
    }
  }

  lemma {:induction false} SplitAppend(p: string, name: string)
    requires Free('/', name)
    ensures Split(p + "/" + name) == Split(p) + [name]
  {
    if p == [] {
      SplitPlain(name);
      assert p + "/" + name == ['/'] + name;
    } else {
      assert (p + "/" + name)[1..] == p[1..] + "/" + name;
      SplitAppend(p[1..], name);
    }
  }

  lemma {:induction false} SplitPlain(name: string)
    requires Free('/', name)
    ensures Split(name) == [name]
  {
    if name != [] {
      assert Free('/', name[1..]);
      SplitPlain(name[1..]);
      assert [name[0]] + name[1..] == name;
    }
  }

  // A path all of whose components are good.
  predicate SafePath(p: string) {
    forall k :: 0 <= k < |Split(p)| ==> Good(Split(p)[k])
  }

  lemma {:induction false} GoodPartsStay(parts: seq<string>, rooted: bool)
    requires forall k :: 0 <= k < |parts| ==> Good(parts[k])
    ensures Resolve(parts, rooted) == parts
  {
    if parts != [] {
      var last := parts[|parts| - 1];
      GoodPartsStay(parts[..|parts| - 1], rooted);
      assert |last| == 2 ==> !(last[0] == '.' && last[1] == '.');
      assert parts == parts[..|parts| - 1] + [last];
    }
  }

  lemma SplitHead(p: string)
    ensures p == [] || p[0] == '/' ==> Split(p)[0] == ""
  {}

  // path.Clean leaves a safe path alone.
  lemma CleanLeavesSafe(p: string)
    requires SafePath(p)
    ensures Clean(p) == p && p != [] && p[0] != '/'
  {
    SplitHead(p);
    GoodPartsStay(Split(p), false);
    JoinOfSplit(p);
  }

  // Joining a good name to a safe path puts a slash between them and does nothing else.
  lemma JoinIsPlain(prefix: string, name: string)
    requires SafePath(prefix) && Good(name)
    ensures PathJoin(prefix, name) == prefix + "/" + name && SafePath(prefix + "/" + name)
  {
    SplitAppend(prefix, name);
    var p := prefix + "/" + name;
    forall k | 0 <= k < |Split(p)| ensures Good(Split(p)[k]) {
      if k < |Split(prefix)| { assert Split(p)[k] == Split(prefix)[k]; }
    }
    CleanLeavesSafe(prefix);
    CleanLeavesSafe(p);
  }

  lemma GoodIsSafe(name: string)
    requires Good(name)
    ensures SafePath(name)
  {
    SplitPlain(name);
  }

  lemma {:induction false} JoinEnds(parts: seq<string>)
    requires parts != [] && parts[|parts| - 1] != ""
    ensures JoinSlash(parts) != ""
    ensures JoinSlash(parts)[|JoinSlash(parts)| - 1] == parts[|parts| - 1][|parts[|parts| - 1]| - 1]
  {
    if |parts| > 1 { JoinEnds(parts[1..]); }
  }

  // A safe path does not end with a slash.
  lemma NoTrailingSlash(p: string)
    requires SafePath(p)
    ensures p != "" && p[|p| - 1] != '/'
  {
    var parts := Split(p);
    assert Good(parts[|parts| - 1]);
    JoinOfSplit(p);
    JoinEnds(parts);
  }

  lemma SlashInside(p: string, name: string, root: string)
    requires Free('/', root)
    ensures p + "/" + name != root
  {
    assert (p + "/" + name)[|p|] == '/';
  }
}
