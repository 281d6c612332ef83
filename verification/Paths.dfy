/**
 Path names: skipelem of fs.c takes a path apart one element at a time. A path is the sequence of its
 characters before the NUL; names are cut to DIRSIZ characters.
 */
module Paths {

  const DIRSIZ: nat := 14

  function SkipSlashes(p: string): (q: string)
    ensures |q| <= |p| && (q != [] ==> q[0] != '/')
  {
    if p != [] && p[0] == '/' then SkipSlashes(p[1..]) else p
  }

  /** The characters before the first slash. */
  function First(p: string): (s: string)
    ensures |s| <= |p| && s == p[..|s|] && (p != [] && p[0] != '/' ==> s != [])
  {
    if p == [] || p[0] == '/' then [] else [p[0]] + First(p[1..])
  }

  function Cut(s: string): string {
    if |s| >= DIRSIZ then s[..DIRSIZ] else s
  }

  /** The elements of a path. */
  function Elems(p: string): seq<string>
    decreases |p|
  {
    var q := SkipSlashes(p);
    if q == [] then [] else [Cut(First(q))] + Elems(SkipSlashes(q[|First(q)|..]))
  }

  method PastSlashes(path: string, at: nat) returns (k: nat)
    requires at <= |path|
    ensures at <= k <= |path| && path[k..] == SkipSlashes(path[at..])
  {
    k := at;
    while k < |path| && path[k] == '/'
      invariant at <= k <= |path| && SkipSlashes(path[k..]) == SkipSlashes(path[at..])
    {
      assert path[k..][1..] == path[k + 1..];
      k := k + 1;
    }
  }

  method PastName(path: string, at: nat) returns (k: nat)
    requires at <= |path|
    ensures at <= k <= |path| && path[at..k] == First(path[at..])
  {
    k := at;
    assert path[at..at] == [];
    while k < |path| && path[k] != '/'
      invariant at <= k <= |path| && First(path[at..]) == path[at..k] + First(path[k..])
    {
      FirstGrows(path, at, k);
      k := k + 1;
    }
    assert First(path[k..]) == [];
  }

  lemma FirstGrows(path: string, at: nat, k: nat)
    requires at <= k < |path| && path[k] != '/'
    ensures path[at..k] + First(path[k..]) == path[at..k + 1] + First(path[k + 1..])
  {
    assert path[k..][1..] == path[k + 1..];
    var rest := First(path[k + 1..]);
    assert First(path[k..]) == [path[k]] + rest;
    hide First;
    assert path[at..k] + ([path[k]] + rest) == path[at..k + 1] + rest;
  }

  method Skipelem(path: string) returns (found: bool, name: string, rest: string)
    ensures found <==> Elems(path) != []
    ensures found ==> Elems(path) == [name] + Elems(rest) && |rest| < |path| && (rest == [] <==> Elems(rest) == [])
  {
    hide SkipSlashes, First;
    assert path[0..] == path;
    var i := PastSlashes(path, 0);
    if i == |path| {
      return false, [], [];
    }
    var j := PastName(path, i);
    name := if j - i >= DIRSIZ then path[i..i + DIRSIZ] else path[i..j];
    var k := PastSlashes(path, j);
    ghost var q := path[i..];
    assert q == SkipSlashes(path) && q[0] != '/' && First(q) != [];
    assert name == Cut(First(q)) && q[|First(q)|..] == path[j..];
    rest := path[k..];
    Skipped(path[j..]);
    return true, name, rest;
  }

  lemma Skipped(p: string)
    ensures SkipSlashes(SkipSlashes(p)) == SkipSlashes(p)
    ensures Elems(SkipSlashes(p)) == [] <==> SkipSlashes(p) == []
  {
  }

  // ---- Every spelling of a list of names reads back as that list ----

  function Slashes(n: nat): string {
    if n == 0 then [] else ['/'] + Slashes(n - 1)
  }

  /** gaps[i] slashes before name i, and the last of gaps at the end. */
  function Spell(names: seq<string>, gaps: seq<nat>): string
    requires |gaps| == |names| + 1
  {
    if names == [] then Slashes(gaps[0])
    else Slashes(gaps[0]) + (names[0] + Spell(names[1..], gaps[1..]))
  }

  predicate IsName(s: string) {
    s != [] && '/' !in s
  }

  function CutAll(names: seq<string>): seq<string> {
    if names == [] then [] else [Cut(names[0])] + CutAll(names[1..])
  }

  /** Names of at most DIRSIZ characters are kept as they are, and longer ones are cut to DIRSIZ. */
  lemma {:induction false} CutAllIs(names: seq<string>)
    ensures |CutAll(names)| == |names|
    ensures forall i | 0 <= i < |names| ::
              CutAll(names)[i] == if |names[i]| <= DIRSIZ then names[i] else names[i][..DIRSIZ]
    ensures (forall i | 0 <= i < |names| :: |names[i]| <= DIRSIZ) ==> CutAll(names) == names
  {
    if names != [] {
      CutAllIs(names[1..]);
    }
  }

  lemma {:induction false} SkipsAll(n: nat, p: string)
    ensures SkipSlashes(Slashes(n) + p) == SkipSlashes(p)
  {
    if n == 0 {
      assert Slashes(n) + p == p;
    } else {
      SkipsAll(n - 1, p);
      assert (Slashes(n) + p)[1..] == Slashes(n - 1) + p;
    }
  }

  lemma {:induction false} FirstIs(s: string, p: string)
    requires '/' !in s && (p == [] || p[0] == '/')
    ensures First(s + p) == s
  {
    if s == [] {
      assert s + p == p;
    } else {
      assert (s + p)[1..] == s[1..] + p;
      FirstIs(s[1..], p);
    }
  }

  lemma SkipSkipped(p: string)
    ensures Elems(SkipSlashes(p)) == Elems(p)
  {
  }

  lemma {:induction false} SpellReads(names: seq<string>, gaps: seq<nat>)
    requires |gaps| == |names| + 1 && forall i | 0 <= i < |names| :: IsName(names[i])
    requires forall i | 0 < i < |names| :: gaps[i] >= 1
    ensures Elems(Spell(names, gaps)) == CutAll(names)
    decreases |names|
  {
    if names == [] {
      SkipsAll(gaps[0], []);
      assert Slashes(gaps[0]) + [] == Slashes(gaps[0]);
    } else {
      var rest := Spell(names[1..], gaps[1..]);
      var q := names[0] + rest;
      SkipsAll(gaps[0], q);
      assert SkipSlashes(q) == q;
      assert |names| > 1 ==> gaps[1] >= 1 && Slashes(gaps[1])[0] == '/';
      FirstIs(names[0], rest);
      assert q[|names[0]|..] == rest;
      SpellReads(names[1..], gaps[1..]);
      SkipSkipped(rest);
    }
  }
}
