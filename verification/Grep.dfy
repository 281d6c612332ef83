/**
 The regular-expression matcher of grep.c, proved sound and complete for the
 language its patterns denote.

 A C string is modelled as the sequence of its characters before the final NUL,
 so `re[0] == '\0'` becomes `re == []` and a text pointer becomes an index.
 */
module Grep {

  /** One position of a pattern: a character, or a starred character. `.` stands for any character. */
  datatype Atom = One(c: char) | Star(c: char)

  /** What a pattern without its leading `^` denotes; `atEnd` records a final `$`. */
  datatype Regex = Regex(atoms: seq<Atom>, atEnd: bool)

  predicate Fits(c: char, t: char) {
    c == '.' || c == t
  }

  predicate AllFit(c: char, w: string) {
    forall i | 0 <= i < |w| :: Fits(c, w[i])
  }

  /** Reads a pattern: `x*` first, then `$` in last position, then a single character. */
  function Parse(re: string): (rx: Regex) {
    if re == [] then
      Regex([], false)
    else if |re| > 1 && re[1] == '*' then
      var rest := Parse(re[2..]);
      Regex([Star(re[0])] + rest.atoms, rest.atEnd)
    else if re == "$" then
      Regex([], true)
    else
      var rest := Parse(re[1..]);
      Regex([One(re[0])] + rest.atoms, rest.atEnd)
  }

  // ---- Patterns and what they are read as ----

  function Letters(atoms: seq<Atom>): string {
    if atoms == [] then "" else (if atoms[0].One? then [atoms[0].c] else [atoms[0].c, '*']) + Letters(atoms[1..])
  }

  /** The pattern as it is written. */
  function Written(rx: Regex): string {
    Letters(rx.atoms) + if rx.atEnd then "$" else ""
  }

  /** A single character is not followed by a `*`, which would star it, and a last `$` is the end mark. */
  predicate Writable(rx: Regex) {
    && (forall k | 0 < k < |rx.atoms| :: rx.atoms[k - 1].One? ==> rx.atoms[k].c != '*')
    && (!rx.atEnd && rx.atoms != [] ==> rx.atoms[|rx.atoms| - 1] != One('$'))
  }

  lemma WritableTail(rx: Regex)
    requires Writable(rx) && rx.atoms != []
    ensures Writable(rx.(atoms := rx.atoms[1..]))
  {
    var tail := rx.atoms[1..];
    forall k | 0 < k < |tail| ensures tail[k - 1].One? ==> tail[k].c != '*' {
      assert tail[k - 1] == rx.atoms[k] && tail[k] == rx.atoms[k + 1];
    }
  }

  lemma WrittenHead(rx: Regex)
    requires rx.atoms != []
    ensures var tail := Written(rx.(atoms := rx.atoms[1..]));
            Written(rx) == if rx.atoms[0].One? then [rx.atoms[0].c] + tail else [rx.atoms[0].c, '*'] + tail
    ensures Written(rx) != [] && Written(rx)[0] == rx.atoms[0].c
  {
  }

  /** Every pattern is the written form of what it is read as. */
  lemma {:induction false} ParseWritten(re: string)
    ensures Written(Parse(re)) == re && Writable(Parse(re))
    decreases |re|
  {
    hide Written;
    if re == [] || re == "$" {
      assert Written(Regex([], false)) == "" && Written(Regex([], true)) == "$" by { WrittenEnds(); }
    } else {
      var rx := Parse(re);
      var starred := |re| > 1 && re[1] == '*';
      var tail := if starred then re[2..] else re[1..];
      ParseWritten(tail);
      assert rx.(atoms := rx.atoms[1..]) == Parse(tail);
      WrittenHead(rx);
      assert re == (if starred then [re[0], '*'] else [re[0]]) + tail;
      if Parse(tail).atoms != [] { WrittenHead(Parse(tail)); }
      forall k | 0 < k < |rx.atoms| ensures rx.atoms[k - 1].One? ==> rx.atoms[k].c != '*' {
        if k > 1 { assert rx.atoms[k - 1] == Parse(tail).atoms[k - 2] && rx.atoms[k] == Parse(tail).atoms[k - 1]; }
      }
      if Parse(tail).atoms == [] && !rx.atEnd { assert tail == ""  by { WrittenEnds(); } }
    }
  }

  lemma WrittenEnds()
    ensures Written(Regex([], false)) == "" && Written(Regex([], true)) == "$"
  {
  }

  /** Every list of atoms that can be written is read back. */
  lemma {:induction false} WrittenParses(rx: Regex)
    requires Writable(rx)
    ensures Parse(Written(rx)) == rx
    decreases |rx.atoms|
  {
    hide Written;
    WrittenEnds();
    if rx.atoms != [] {
      var tail := rx.(atoms := rx.atoms[1..]);
      WritableTail(rx);
      WrittenHead(rx);
      WrittenParses(tail);
      var re := Written(rx);
      if rx.atoms[0].One? {
        assert re[1..] == Written(tail);
        if tail.atoms != [] { WrittenHead(tail); }
      } else {
        assert re[2..] == Written(tail);
      }
      assert rx.atoms == [rx.atoms[0]] + tail.atoms;
    }
  }

  /** A `$` is the end mark exactly in last position; anywhere else it is a character like any other. */
  lemma {:induction false} EndMark(re: string)
    ensures Parse(re).atEnd <==> re != [] && re[|re| - 1] == '$'
    decreases |re|
  {
    if re != [] && re != "$" {
      EndMark(if |re| > 1 && re[1] == '*' then re[2..] else re[1..]);
    }
  }

  /** The language of a list of atoms, as a set of whole strings. */
  ghost predicate InLanguage(atoms: seq<Atom>, w: string) {
    if atoms == [] then
      w == []
    else match atoms[0]
      case One(c) =>
        w != [] && Fits(c, w[0]) && InLanguage(atoms[1..], w[1..])
      case Star(c) =>
        exists k :: 0 <= k <= |w| && AllFit(c, w[..k]) && InLanguage(atoms[1..], w[k..])
  }

  /** Some substring of `text` from `i` on, up to `j`, is in the language, and `$` is respected. */
  ghost predicate MatchesSpan(rx: Regex, text: string, i: nat, j: nat) {
    && i <= j <= |text|
    && InLanguage(rx.atoms, text[i..j])
    && (rx.atEnd ==> j == |text|)
  }

  ghost predicate MatchesAt(rx: Regex, text: string, i: nat) {
    exists j :: MatchesSpan(rx, text, i, j)
  }

  /** Characters fitting `c` from `i` up to `m`, then a match of the rest. */
  ghost predicate StarSpan(c: char, rx: Regex, text: string, i: nat, m: nat) {
    i <= m <= |text| && AllFit(c, text[i..m]) && MatchesAt(rx, text, m)
  }

  /** The language of `re` as grep promises it: anywhere in the text, or at its start after `^`. */
  ghost predicate Denotes(re: string, text: string) {
    if re != [] && re[0] == '^' then
      MatchesAt(Parse(re[1..]), text, 0)
    else
      exists i :: 0 <= i <= |text| && MatchesAt(Parse(re), text, i)
  }

  /** A single atom consumes exactly one fitting character. */
  lemma MatchOne(rx: Regex, text: string, i: nat)
    requires rx.atoms != [] && rx.atoms[0].One? && i <= |text|
    ensures MatchesAt(rx, text, i) <==>
            i < |text| && Fits(rx.atoms[0].c, text[i]) && MatchesAt(rx.(atoms := rx.atoms[1..]), text, i + 1)
  {
    var rest := rx.(atoms := rx.atoms[1..]);
    if j: nat :| MatchesSpan(rx, text, i, j) {
      assert text[i..j][1..] == text[i + 1..j];
      assert MatchesSpan(rest, text, i + 1, j);
    }
    if i < |text| && Fits(rx.atoms[0].c, text[i]) && MatchesAt(rest, text, i + 1) {
      var j: nat :| MatchesSpan(rest, text, i + 1, j);
      assert text[i..j][1..] == text[i + 1..j];
      assert MatchesSpan(rx, text, i, j);
    }
  }

  /** A starred atom consumes any number `m - i` of fitting characters. */
  lemma MatchStarred(rx: Regex, text: string, i: nat)
    requires rx.atoms != [] && rx.atoms[0].Star? && i <= |text|
    ensures MatchesAt(rx, text, i) <==>
            exists m :: StarSpan(rx.atoms[0].c, rx.(atoms := rx.atoms[1..]), text, i, m)
  {
    var c, rest := rx.atoms[0].c, rx.(atoms := rx.atoms[1..]);
    if j: nat :| MatchesSpan(rx, text, i, j) {
      var w := text[i..j];
      var k :| 0 <= k <= |w| && AllFit(c, w[..k]) && InLanguage(rest.atoms, w[k..]);
      assert w[..k] == text[i..i + k] && w[k..] == text[i + k..j];
      assert MatchesSpan(rest, text, i + k, j);
      assert StarSpan(c, rest, text, i, i + k);
    }
    if m: nat :| StarSpan(c, rest, text, i, m) {
      var j: nat :| MatchesSpan(rest, text, m, j);
      var w := text[i..j];
      assert w[..m - i] == text[i..m] && w[m - i..] == text[m..j];
      assert MatchesSpan(rx, text, i, j);
    }
  }

  method MatchHere(re: string, text: string, at: nat) returns (found: bool)
    requires at <= |text|
    ensures found <==> MatchesAt(Parse(re), text, at)
    decreases |re|, 0
  {
    ghost var rx := Parse(re);
    if re == [] {
      assert MatchesSpan(rx, text, at, at);
      return true;
    }
    if |re| > 1 && re[1] == '*' {
      MatchStarred(rx, text, at);
      assert rx.(atoms := rx.atoms[1..]) == Parse(re[2..]);
      found := MatchStar(re[0], re[2..], text, at);
      return;
    }
    if re == "$" {
      assert text[at..at] == [];
      assert at == |text| ==> MatchesSpan(rx, text, at, at);
      return at == |text|;
    }
    MatchOne(rx, text, at);
    assert rx.(atoms := rx.atoms[1..]) == Parse(re[1..]);
    if at < |text| && (re[0] == '.' || re[0] == text[at]) {
      found := MatchHere(re[1..], text, at + 1);
      return;
    }
    return false;
  }

  method MatchStar(c: char, re: string, text: string, at: nat) returns (found: bool)
    requires at <= |text|
    ensures found <==> exists m :: StarSpan(c, Parse(re), text, at, m)
    decreases |re|, 1
  {
    hide InLanguage, Parse;
    var i := at;
    while true
      invariant at <= i <= |text|
      invariant AllFit(c, text[at..i])
      invariant forall m | at <= m < i :: !StarSpan(c, Parse(re), text, at, m)
      decreases |text| - i
    {
      var here := MatchHere(re, text, i);
      if here {
        assert StarSpan(c, Parse(re), text, at, i);
        return true;
      }
      if i == |text| || !(text[i] == c || c == '.') {
        forall m | i < m <= |text|
          ensures !StarSpan(c, Parse(re), text, at, m)
        {
          assert text[at..m][i - at] == text[i];
        }
        return false;
      }
      assert text[at..i + 1] == text[at..i] + [text[i]];
      i := i + 1;
    }
  }

  /** grep's entry point: true exactly on the texts its pattern denotes. */
  method Match(re: string, text: string) returns (found: bool)
    ensures found <==> Denotes(re, text)
  {
    if re != [] && re[0] == '^' {
      found := MatchHere(re[1..], text, 0);
      return;
    }
    var i := 0;
    while true
      invariant 0 <= i <= |text|
      invariant forall m | 0 <= m < i :: !MatchesAt(Parse(re), text, m)
      decreases |text| - i
    {
      var here := MatchHere(re, text, i);
      if here {
        return true;
      }
      if i == |text| {
        return false;
      }
      i := i + 1;
    }
  }
}
