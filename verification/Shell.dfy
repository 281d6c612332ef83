/**
 The command parser of sh.c. The line is a sequence of characters without NUL; a position is an
 index, and position |s| stands for the terminating NUL. Words are spans of the line until
 nulterminate cuts it into C strings.

 The functions say what each parse routine returns and where it leaves the cursor; the class
 below them is the code with the cursor in a field, proved to compute them.
 */
module Shell {
  import opened Basics

  const MAXARGS: nat := 10

  predicate IsSpace(c: char) {
    c == ' ' || c == '\t' || c == '\r' || c == '\n' || c == 11 as char
  }

  predicate IsSymbol(c: char) {
    c == '<' || c == '|' || c == '>' || c == '&' || c == ';' || c == '(' || c == ')'
  }

  predicate IsWordChar(c: char) {
    !IsSpace(c) && !IsSymbol(c) && c != NUL
  }

  /** *s at position i */
  function At(s: string, i: nat): char {
    if i < |s| then s[i] else NUL
  }

  function SkipSpace(s: string, i: nat): (j: nat)
    ensures i <= j && (i <= |s| ==> j <= |s|)
    ensures j < |s| ==> !IsSpace(s[j])
    ensures (i >= |s| || !IsSpace(s[i])) ==> j == i
    decreases |s| - i
  {
    if i < |s| && IsSpace(s[i]) then SkipSpace(s, i + 1) else i
  }

  function WordEnd(s: string, i: nat): (j: nat)
    ensures i <= j && (i <= |s| ==> j <= |s|)
    ensures i < |s| && !IsSpace(s[i]) && !IsSymbol(s[i]) ==> i < j
    ensures forall k | i <= k < j && k < |s| :: !IsSpace(s[k]) && !IsSymbol(s[k])
    ensures j < |s| ==> IsSpace(s[j]) || IsSymbol(s[j])
    decreases |s| - i
  {
    if i < |s| && !IsSpace(s[i]) && !IsSymbol(s[i]) then WordEnd(s, i + 1) else i
  }

  /** gettoken's result: the token, its span, and the cursor after it. */
  datatype Token = Token(kind: char, q: nat, eq: nat, next: nat)

  function TokenEnd(s: string, q: nat): (char, nat) {
    var c := At(s, q);
    if c == NUL then (NUL, q)
    else if c == '|' || c == '(' || c == ')' || c == ';' || c == '&' || c == '<' then (c, q + 1)
    else if c == '>' then (if At(s, q + 1) == '>' then ('+', q + 2) else ('>', q + 1))
    else ('a', WordEnd(s, q))
  }

  function GetToken(s: string, i: nat): (t: Token)
    ensures i <= t.q <= t.eq <= t.next
    ensures i <= |s| ==> t.next <= |s|
    ensures t.kind != NUL && i <= |s| ==> t.q < t.eq
  {
    var q := SkipSpace(s, i);
    var (kind, eq) := TokenEnd(s, q);
    Token(kind, q, eq, SkipSpace(s, eq))
  }

  predicate Peek(s: string, i: nat, toks: string) {
    At(s, SkipSpace(s, i)) != NUL && At(s, SkipSpace(s, i)) in toks
  }

  // ---- Commands ----

  datatype Span = Span(q: nat, eq: nat)

  /** How a redirection opens its file: for reading on descriptor 0, or for writing on 1. */
  datatype Open = ForInput | ForOutput

  datatype Cmd =
    | Exec(argv: seq<Span>)
    | Redir(cmd: Cmd, file: Span, open: Open)
    | Pipe(left: Cmd, right: Cmd)
    | List(left: Cmd, right: Cmd)
    | Back(cmd: Cmd)

  datatype Result<T> = Ok(value: T, pos: nat) | Panic

  datatype Redirection = Redirection(file: Span, open: Open)

  /** Redirections wrap the command in the order they are read. */
  function Wrap(c: Cmd, rs: seq<Redirection>): Cmd {
    if rs == [] then c else Redir(Wrap(c, rs[..|rs| - 1]), rs[|rs| - 1].file, rs[|rs| - 1].open)
  }

  function ParseRedirs(s: string, i: nat, rs: seq<Redirection>): (r: Result<seq<Redirection>>)
    requires i <= |s|
    ensures r.Ok? ==> i <= r.pos <= |s|
    decreases |s| - i
  {
    if !Peek(s, i, "<>") then Ok(rs, SkipSpace(s, i))
    else
      var tok := GetToken(s, i);
      var word := GetToken(s, tok.next);
      if word.kind != 'a' then Panic
      else ParseRedirs(s, word.next,
          rs + [Redirection(Span(word.q, word.eq), if tok.kind == '<' then ForInput else ForOutput)])
  }

  /** The argument loop of parseexec; the Exec node sits innermost whatever redirections came first. */
  function ParseArgs(s: string, i: nat, argv: seq<Span>, rs: seq<Redirection>): (r: Result<Cmd>)
    requires i <= |s|
    ensures r.Ok? ==> i <= r.pos <= |s|
    decreases |s| - i
  {
    if Peek(s, i, "|)&;") then Ok(Wrap(Exec(argv), rs), SkipSpace(s, i))
    else
      var tok := GetToken(s, i);
      if tok.kind == NUL then Ok(Wrap(Exec(argv), rs), tok.next)
      else if tok.kind != 'a' then Panic
      else if |argv| + 1 >= MAXARGS then Panic
      else
        var more := ParseRedirs(s, tok.next, rs);
        if more.Panic? then Panic
        else ParseArgs(s, more.pos, argv + [Span(tok.q, tok.eq)], more.value)
  }

  function ParseExec(s: string, i: nat): (r: Result<Cmd>)
    requires i <= |s|
    ensures r.Ok? ==> i <= r.pos <= |s|
    decreases |s| - i, 1
  {
    if Peek(s, i, "(") then ParseBlock(s, SkipSpace(s, i))
    else
      var rs := ParseRedirs(s, i, []);
      if rs.Panic? then Panic else ParseArgs(s, rs.pos, [], rs.value)
  }

  function ParseBlock(s: string, i: nat): (r: Result<Cmd>)
    requires i <= |s| && Peek(s, i, "(")
    ensures r.Ok? ==> i <= r.pos <= |s|
    decreases |s| - i, 0
  {
    var open := GetToken(s, i);
    var inner := ParseLine(s, open.next);
    if inner.Panic? || !Peek(s, inner.pos, ")") then Panic
    else
      var close := GetToken(s, inner.pos);
      var rs := ParseRedirs(s, close.next, []);
      if rs.Panic? then Panic else Ok(Wrap(inner.value, rs.value), rs.pos)
  }

  function ParsePipe(s: string, i: nat): (r: Result<Cmd>)
    requires i <= |s|
    ensures r.Ok? ==> i <= r.pos <= |s|
    decreases |s| - i, 2
  {
    var left := ParseExec(s, i);
    if left.Panic? || !Peek(s, left.pos, "|") then Skipped(s, left)
    else
      var right := ParsePipe(s, GetToken(s, left.pos).next);
      if right.Panic? then Panic else Ok(Pipe(left.value, right.value), right.pos)
  }

  /** A failed peek moves the cursor past white space. */
  function Skipped(s: string, r: Result<Cmd>): (r': Result<Cmd>)
    ensures r'.Ok? <==> r.Ok?
    ensures r.Ok? ==> r'.value == r.value && r'.pos == SkipSpace(s, r.pos)
  {
    if r.Ok? then Ok(r.value, SkipSpace(s, r.pos)) else Panic
  }

  function ParseBacks(s: string, i: nat, c: Cmd): (r: Result<Cmd>)
    requires i <= |s|
    ensures r.Ok? && i <= r.pos <= |s|
    decreases |s| - i
  {
    if Peek(s, i, "&") then ParseBacks(s, GetToken(s, i).next, Back(c)) else Ok(c, SkipSpace(s, i))
  }

  function ParseLine(s: string, i: nat): (r: Result<Cmd>)
    requires i <= |s|
    ensures r.Ok? ==> i <= r.pos <= |s|
    decreases |s| - i, 3
  {
    var first := ParsePipe(s, i);
    if first.Panic? then Panic
    else
      var left := ParseBacks(s, first.pos, first.value);
      if !Peek(s, left.pos, ";") then Skipped(s, left)
      else
        var right := ParseLine(s, GetToken(s, left.pos).next);
        if right.Panic? then Panic else Ok(List(left.value, right.value), right.pos)
  }

  /** parsecmd before nulterminate: the whole line must be used. */
  function ParseCmd(s: string): (r: Result<Cmd>)
    ensures r.Ok? ==> r.pos == |s|
  {
    var r := ParseLine(s, 0);
    if r.Ok? && SkipSpace(s, r.pos) == |s| then Ok(r.value, |s|) else Panic
  }

  // ---- What commands stand for ----

  /** A command with its words spelled out. */
  datatype Tree =
    | TExec(words: seq<string>)
    | TRedir(t: Tree, file: string, open: Open)
    | TPipe(l: Tree, r: Tree)
    | TList(l: Tree, r: Tree)
    | TBack(t: Tree)

  predicate IsWord(w: string) {
    w != [] && forall k | 0 <= k < |w| :: IsWordChar(w[k])
  }

  /** The words a command stands for, read off the line. */
  function Spell(s: string, sp: Span): string
    requires sp.q <= sp.eq <= |s|
  {
    s[sp.q..sp.eq]
  }

  predicate InLine(s: string, c: Cmd) {
    match c
    case Exec(argv) => forall k | 0 <= k < |argv| :: IsWordSpan(s, argv[k])
    case Redir(d, file, open) => InLine(s, d) && IsWordSpan(s, file)
    case Pipe(l, r) => InLine(s, l) && InLine(s, r)
    case List(l, r) => InLine(s, l) && InLine(s, r)
    case Back(d) => InLine(s, d)
  }

  /** A maximal run of word characters: it ends at the end of the line or before another character. */
  predicate IsWordSpan(s: string, sp: Span) {
    && sp.q < sp.eq <= |s|
    && (forall k | sp.q <= k < sp.eq :: !IsSpace(s[k]) && !IsSymbol(s[k]))
    && (sp.eq < |s| ==> IsSpace(s[sp.eq]) || IsSymbol(s[sp.eq]))
  }

  function Words(s: string, argv: seq<Span>): seq<string>
    requires InLine(s, Exec(argv))
  {
    seq(|argv|, k requires 0 <= k < |argv| => Spell(s, argv[k]))
  }

  function Read(s: string, c: Cmd): Tree
    requires InLine(s, c)
  {
    match c
    case Exec(argv) => TExec(Words(s, argv))
    case Redir(d, file, open) => TRedir(Read(s, d), Spell(s, file), open)
    case Pipe(l, r) => TPipe(Read(s, l), Read(s, r))
    case List(l, r) => TList(Read(s, l), Read(s, r))
    case Back(d) => TBack(Read(s, d))
  }

  // ---- The language of the shell ----

  datatype Mode = Input | Output | Append

  datatype Item = Arg(word: string) | Redirect(mode: Mode, file: string)

  /** A simple command is words and redirections in any order; a block may have redirections after it. */
  datatype Simple = Plain(items: seq<Item>) | Block(line: Line, after: seq<Item>)

  datatype Pipeline = One(e: Simple) | Bar(e: Simple, more: Pipeline)

  /** A pipeline with that many ampersands after it, and after a semicolon the rest of the line. */
  datatype Line = Last(p: Pipeline, backs: nat) | Then(p: Pipeline, backs: nat, more: Line)

  predicate ItemOk(it: Item) {
    IsWord(if it.Arg? then it.word else it.file)
  }

  predicate SimpleOk(e: Simple) {
    match e
    case Plain(items) => |Args(items)| < MAXARGS && forall k | 0 <= k < |items| :: ItemOk(items[k])
    case Block(line, after) => LineOk(line) && forall k | 0 <= k < |after| :: ItemOk(after[k]) && after[k].Redirect?
  }

  predicate PipelineOk(p: Pipeline) {
    SimpleOk(p.e) && (p.Bar? ==> PipelineOk(p.more))
  }

  predicate LineOk(l: Line) {
    PipelineOk(l.p) && (l.Then? ==> LineOk(l.more))
  }

  // What a line means

  function Args(items: seq<Item>): seq<string> {
    if items == [] then [] else (if items[0].Arg? then [items[0].word] else []) + Args(items[1..])
  }

  /** A redirection with its file spelled out. */
  datatype Target = Target(file: string, open: Open)

  /** `>` and `>>` both open for output. */
  function Targets(items: seq<Item>): seq<Target> {
    if items == [] then []
    else (if items[0].Arg? then []
          else [Target(items[0].file, if items[0].mode.Input? then ForInput else ForOutput)]) + Targets(items[1..])
  }

  /** The first redirection read is applied last: it sits innermost. */
  function Redirected(t: Tree, rs: seq<Target>): Tree {
    if rs == [] then t else TRedir(Redirected(t, rs[..|rs| - 1]), rs[|rs| - 1].file, rs[|rs| - 1].open)
  }

  function SimpleTree(e: Simple): Tree {
    match e
    case Plain(items) => Redirected(TExec(Args(items)), Targets(items))
    case Block(line, after) => Redirected(LineTree(line), Targets(after))
  }

  function PipelineTree(p: Pipeline): Tree {
    match p
    case One(e) => SimpleTree(e)
    case Bar(e, more) => TPipe(SimpleTree(e), PipelineTree(more))
  }

  function Backs(t: Tree, n: nat): Tree
    decreases n
  {
    if n == 0 then t else Backs(TBack(t), n - 1)
  }

  function LineTree(l: Line): Tree {
    match l
    case Last(p, backs) => Backs(PipelineTree(p), backs)
    case Then(p, backs, more) => TList(Backs(PipelineTree(p), backs), LineTree(more))
  }

  // How a line is written

  datatype Tok = Word(w: string) | Sym(c: char)  // Sym('+') is `>>`

  predicate TokOk(t: Tok) {
    match t
    case Word(w) => IsWord(w)
    case Sym(c) => c in "|&;()<>+"
  }

  function ItemToks(it: Item): seq<Tok> {
    match it
    case Arg(w) => [Word(w)]
    case Redirect(mode, f) => [Sym(match mode case Input => '<' case Output => '>' case Append => '+'), Word(f)]
  }

  function ItemsToks(items: seq<Item>): seq<Tok> {
    if items == [] then [] else ItemToks(items[0]) + ItemsToks(items[1..])
  }

  function SimpleToks(e: Simple): seq<Tok> {
    match e
    case Plain(items) => ItemsToks(items)
    case Block(line, after) => [Sym('(')] + (LineToks(line) + ([Sym(')')] + ItemsToks(after)))
  }

  function PipelineToks(p: Pipeline): seq<Tok> {
    match p
    case One(e) => SimpleToks(e)
    case Bar(e, more) => SimpleToks(e) + ([Sym('|')] + PipelineToks(more))
  }

  function Ands(n: nat): seq<Tok> {
    if n == 0 then [] else [Sym('&')] + Ands(n - 1)
  }

  function LineToks(l: Line): seq<Tok> {
    match l
    case Last(p, backs) => PipelineToks(p) + Ands(backs)
    case Then(p, backs, more) => PipelineToks(p) + (Ands(backs) + ([Sym(';')] + LineToks(more)))
  }

  function TokText(t: Tok): string {
    match t
    case Word(w) => w
    case Sym(c) => if c == '+' then ">>" else [c]
  }

  predicate IsGap(g: string) {
    forall k | 0 <= k < |g| :: IsSpace(g[k])
  }

  /** Written together, the two would be read as one token. */
  predicate Sticks(a: Tok, b: Tok) {
    (a.Word? && b.Word?) || (a == Sym('>') && (b == Sym('>') || b == Sym('+')))
  }

  /** gaps[k] is the white space before token k, the last of gaps that at the end. */
  predicate GapsOk(toks: seq<Tok>, gaps: seq<string>) {
    && |gaps| == |toks| + 1
    && (forall k | 0 <= k < |gaps| :: IsGap(gaps[k]))
    && (forall k | 0 < k < |toks| && Sticks(toks[k - 1], toks[k]) :: gaps[k] != [])
  }

  function Text(toks: seq<Tok>, gaps: seq<string>): string
    requires |gaps| == |toks| + 1
  {
    if toks == [] then gaps[0] else gaps[0] + (TokText(toks[0]) + Text(toks[1..], gaps[1..]))
  }

  // ---- The line read token by token ----

  predicate Fits(s: string, t: Token, tok: Tok) {
    match tok
    case Word(w) => t.kind == 'a' && t.q <= t.eq <= |s| && s[t.q..t.eq] == w
    case Sym(c) => t.kind == c && c in "|&;()<>+"
  }

  /** From position i on the line reads as these tokens, and the next token, if any, begins at j. */
  predicate Spells(s: string, i: nat, toks: seq<Tok>, j: nat)
    requires i <= |s|
    decreases |toks|
  {
    if toks == [] then j == SkipSpace(s, i)
    else Fits(s, GetToken(s, i), toks[0]) && Spells(s, GetToken(s, i).next, toks[1..], j)
  }

  lemma {:induction false} SpellsEnd(s: string, i: nat, toks: seq<Tok>, j: nat)
    requires i <= |s| && Spells(s, i, toks, j)
    ensures i <= j <= |s| && SkipSpace(s, j) == j
    decreases |toks|
  {
    if toks != [] {
      SpellsEnd(s, GetToken(s, i).next, toks[1..], j);
    }
  }

  /** White space in front makes no difference. */
  lemma SpellsSkip(s: string, i: nat, toks: seq<Tok>, j: nat)
    requires i <= |s|
    ensures SkipSpace(s, i) <= |s| && (Spells(s, SkipSpace(s, i), toks, j) <==> Spells(s, i, toks, j))
  {
    PeekThen(s, i, "");
  }

  lemma {:induction false} SpellsSplit(s: string, i: nat, a: seq<Tok>, b: seq<Tok>, j: nat) returns (m: nat)
    requires i <= |s| && Spells(s, i, a + b, j)
    ensures i <= m <= |s| && Spells(s, i, a, m) && Spells(s, m, b, j)
    decreases |a|
  {
    hide GetToken, SkipSpace, Fits;
    if a == [] {
      assert a + b == b;
      m := SkipSpace(s, i);
      SpellsSkip(s, i, b, j);
    } else {
      assert (a + b)[1..] == a[1..] + b;
      m := SpellsSplit(s, GetToken(s, i).next, a[1..], b, j);
    }
  }

  lemma {:induction false} SpellsJoin(s: string, i: nat, a: seq<Tok>, m: nat, b: seq<Tok>, j: nat)
    requires i <= |s| && m <= |s| && Spells(s, i, a, m) && Spells(s, m, b, j)
    ensures Spells(s, i, a + b, j)
    decreases |a|
  {
    hide GetToken, SkipSpace, Fits;
    if a == [] {
      assert a + b == b;
      SpellsSkip(s, i, b, j);
    } else {
      assert (a + b)[1..] == a[1..] + b;
      SpellsJoin(s, GetToken(s, i).next, a[1..], m, b, j);
    }
  }

  lemma SpellsOne(s: string, i: nat, tok: Tok)
    requires i <= |s| && Fits(s, GetToken(s, i), tok)
    ensures Spells(s, i, [tok], GetToken(s, i).next)
  {
    hide Fits;
    TokenSkips(s, i);
    assert [tok][1..] == [];
  }

  lemma TokenSkips(s: string, i: nat)
    requires i <= |s|
    ensures SkipSpace(s, GetToken(s, i).next) == GetToken(s, i).next
  {
  }

  /** A symbol token shows in a peek, and only there. */
  lemma SymPeek(s: string, i: nat, toks: string)
    requires i <= |s| && NUL !in s
    ensures var k, c := GetToken(s, i).kind, At(s, SkipSpace(s, i));
            && (k in "|&;()<" || c in "|&;()<" ==> k == c)
            && (k == '>' || k == '+' <==> c == '>') && (k == NUL <==> SkipSpace(s, i) == |s|)
    ensures NUL !in toks ==> (Peek(s, i, toks) <==> At(s, SkipSpace(s, i)) in toks)
  {
  }

  // ---- Written lines are read as their tokens ----

  lemma {:induction false} SkipGap(s: string, i: nat, g: string, rest: string)
    requires i <= |s| && s[i..] == g + rest && IsGap(g) && (rest != [] ==> !IsSpace(rest[0]))
    ensures SkipSpace(s, i) == i + |g| && s[i + |g|..] == rest
    decreases |g|
  {
    assert |s| - i == |g| + |rest|;
    if g == [] {
      assert g + rest == rest;
      if rest != [] { assert s[i] == rest[0]; }
    } else {
      assert s[i] == (g + rest)[0] == g[0];
      assert s[i + 1..] == (g + rest)[1..] == g[1..] + rest;
      SkipGap(s, i + 1, g[1..], rest);
    }
  }

  lemma {:induction false} WordEndIs(s: string, i: nat, j: nat)
    requires i <= j <= |s| && (forall k | i <= k < j :: IsWordChar(s[k]))
    requires j == |s| || IsSpace(s[j]) || IsSymbol(s[j])
    ensures WordEnd(s, i) == j
    decreases j - i
  {
  }

  /** A token with something after it that does not stick to it is read back. */
  lemma TokenReads(s: string, i: nat, tok: Tok, rest: string)
    requires i <= |s| && s[i..] == TokText(tok) + rest && TokOk(tok)
    requires tok.Word? && rest != [] ==> IsSpace(rest[0]) || IsSymbol(rest[0])
    requires tok == Sym('>') && rest != [] ==> rest[0] != '>'
    ensures TokText(tok) != [] && !IsSpace(TokText(tok)[0])
    ensures TokenEnd(s, i) == (if tok.Word? then 'a' else tok.c, i + |TokText(tok)|) && s[i + |TokText(tok)|..] == rest
    ensures i + |TokText(tok)| <= |s| && s[i..i + |TokText(tok)|] == TokText(tok)
  {
    var w := TokText(tok);
    var j := i + |w|;
    assert |s| - i == |w| + |rest|;
    assert s[j..] == s[i..][|w|..] == rest;
    assert s[i..j] == s[i..][..|w|] == w;
    forall k | i <= k < j ensures s[k] == w[k - i] { assert s[k] == s[i..j][k - i]; }
    if rest != [] { assert s[j] == rest[0]; }
    if tok.Word? {
      WordEndIs(s, i, j);
    }
  }

  lemma TextStart(toks: seq<Tok>, gaps: seq<string>)
    requires GapsOk(toks, gaps) && forall k | 0 <= k < |toks| :: TokOk(toks[k])
    ensures toks != [] ==> TokText(toks[0]) != []
    ensures Text(toks, gaps) != [] ==>
              IsSpace(Text(toks, gaps)[0])
                  || (toks != [] && gaps[0] == [] && Text(toks, gaps)[0] == TokText(toks[0])[0])
  {
    if toks != [] && gaps[0] == [] {
      assert TokOk(toks[0]);
      assert Text(toks, gaps) == TokText(toks[0]) + Text(toks[1..], gaps[1..]);
    }
  }

  lemma GapsTail(toks: seq<Tok>, gaps: seq<string>)
    requires GapsOk(toks, gaps) && toks != []
    ensures GapsOk(toks[1..], gaps[1..])
  {
    forall k | 0 < k < |toks[1..]| && Sticks(toks[1..][k - 1], toks[1..][k])
      ensures gaps[1..][k] != []
    {
      assert toks[1..][k - 1] == toks[k] && toks[1..][k] == toks[k + 1];
    }
  }

  /** What follows a token on the line does not stick to it. */
  lemma NoSticking(toks: seq<Tok>, gaps: seq<string>)
    requires GapsOk(toks, gaps) && toks != [] && forall k | 0 <= k < |toks| :: TokOk(toks[k])
    ensures var rest := Text(toks[1..], gaps[1..]);
            && (toks[0].Word? && rest != [] ==> IsSpace(rest[0]) || IsSymbol(rest[0]))
            && (toks[0] == Sym('>') && rest != [] ==> rest[0] != '>')
  {
    GapsTail(toks, gaps);
    TextStart(toks[1..], gaps[1..]);
    if |toks| > 1 {
      assert TokOk(toks[1]) && toks[1..][0] == toks[1];
      if Sticks(toks[0], toks[1]) { assert gaps[1] != []; }
    }
  }

  lemma {:induction false} TextReads(s: string, i: nat, toks: seq<Tok>, gaps: seq<string>)
    requires GapsOk(toks, gaps) && (forall k | 0 <= k < |toks| :: TokOk(toks[k]))
    requires i <= |s| && s[i..] == Text(toks, gaps)
    ensures Spells(s, i, toks, |s|)
    decreases |toks|
  {
    hide SkipSpace, TokText, GetToken, Fits, Text, GapsOk, TokOk;
    if toks == [] {
      EmptyText(s, i, gaps);
    } else {
      var e := TextStep(s, i, toks, gaps);
      GapsTail(toks, gaps);
      TextReads(s, e, toks[1..], gaps[1..]);
      SpellsSkip(s, e, toks[1..], |s|);
    }
  }

  lemma EmptyText(s: string, i: nat, gaps: seq<string>)
    requires GapsOk([], gaps) && i <= |s| && s[i..] == Text([], gaps)
    ensures SkipSpace(s, i) == |s|
  {
    assert gaps[0] == gaps[0] + [];
    SkipGap(s, i, gaps[0], []);
  }

  /** The first token of a text, and the text after it. */
  lemma TextStep(s: string, i: nat, toks: seq<Tok>, gaps: seq<string>) returns (e: nat)
    requires GapsOk(toks, gaps) && (forall k | 0 <= k < |toks| :: TokOk(toks[k])) && toks != []
    requires i <= |s| && s[i..] == Text(toks, gaps)
    ensures i <= e <= |s| && |gaps| >= 1 && s[e..] == Text(toks[1..], gaps[1..])
    ensures Fits(s, GetToken(s, i), toks[0]) && GetToken(s, i).next == SkipSpace(s, e)
  {
    hide SkipSpace, TokText, TokenEnd, Sticks, IsGap, IsSpace, IsSymbol, GetToken, Fits, TokOk;
    var w, rest := TokText(toks[0]), Text(toks[1..], gaps[1..]);
    NoSticking(toks, gaps);
    hide GapsOk;
    TokStart(toks[0], rest);
    FirstGap(toks, gaps);
    SkipGap(s, i, gaps[0], w + rest);
    var q := i + |gaps[0]|;
    TokenReads(s, q, toks[0], rest);
    e := q + |w|;
    TokenThen(s, i, toks[0], q, e);
  }

  lemma FirstGap(toks: seq<Tok>, gaps: seq<string>)
    requires GapsOk(toks, gaps)
    ensures |gaps| == |toks| + 1 && IsGap(gaps[0])
  {
  }

  lemma TokStart(tok: Tok, rest: string)
    requires TokOk(tok)
    ensures TokText(tok) + rest != [] && !IsSpace((TokText(tok) + rest)[0])
  {
  }

  lemma TokenThen(s: string, i: nat, tok: Tok, q: nat, eq: nat)
    requires i <= |s| && SkipSpace(s, i) == q <= eq <= |s| && TokOk(tok) && s[q..eq] == TokText(tok)
    requires TokenEnd(s, q) == (if tok.Word? then 'a' else tok.c, eq)
    ensures Fits(s, GetToken(s, i), tok) && GetToken(s, i).next == SkipSpace(s, eq)
  {
    hide SkipSpace, TokenEnd;
  }

  // ---- Tokens of a command are read as that command ----

  /** What can come after a simple command, a pipeline and a line. */
  predicate AfterSimple(s: string, j: nat) {
    j == |s| || (j < |s| && s[j] in "|)&;")
  }

  predicate AfterPipeline(s: string, j: nat) {
    j == |s| || (j < |s| && s[j] in ")&;")
  }

  predicate AfterLine(s: string, j: nat) {
    j == |s| || (j < |s| && s[j] == ')')
  }

  ghost predicate ReadsAs(s: string, r: Result<Cmd>, t: Tree, j: nat) {
    r.Ok? && r.pos == j && InLine(s, r.value) && Read(s, r.value) == t
  }

  predicate AllWords(s: string, rs: seq<Redirection>) {
    forall k | 0 <= k < |rs| :: IsWordSpan(s, rs[k].file)
  }

  lemma TokenIsWord(s: string, i: nat)
    requires i <= |s| && NUL !in s && GetToken(s, i).kind == 'a'
    ensures IsWordSpan(s, Span(GetToken(s, i).q, GetToken(s, i).eq))
  {
  }

  function TargetsOf(s: string, rs: seq<Redirection>): seq<Target>
    requires AllWords(s, rs)
  {
    seq(|rs|, k requires 0 <= k < |rs| => Target(Spell(s, rs[k].file), rs[k].open))
  }

  lemma {:induction false} WrapReads(s: string, c: Cmd, rs: seq<Redirection>)
    requires InLine(s, c) && AllWords(s, rs)
    ensures InLine(s, Wrap(c, rs)) && Read(s, Wrap(c, rs)) == Redirected(Read(s, c), TargetsOf(s, rs))
    decreases |rs|
  {
    hide IsWordSpan, Spell;
    if rs != [] {
      var front := rs[..|rs| - 1];
      WrapReads(s, c, front);
      assert TargetsOf(s, rs)[..|rs| - 1] == TargetsOf(s, front);
    }
  }

  /** parseredirs and then the argument loop, as parseexec enters them at first and after every word. */
  function RedirsThenArgs(s: string, i: nat, argv: seq<Span>, rs: seq<Redirection>): (r: Result<Cmd>)
    requires i <= |s|
  {
    var more := ParseRedirs(s, i, rs);
    if more.Panic? then Panic else ParseArgs(s, more.pos, argv, more.value)
  }

  lemma ItemsStop(s: string, i: nat, argv: seq<Span>, rs: seq<Redirection>)
    requires i <= |s| && NUL !in s && AfterSimple(s, SkipSpace(s, i))
    ensures ParseRedirs(s, i, rs) == Ok(rs, SkipSpace(s, i))
    ensures RedirsThenArgs(s, i, argv, rs) == Ok(Wrap(Exec(argv), rs), SkipSpace(s, i))
  {
    PeekThen(s, i, "|)&;");
    SymPeek(s, i, "<>");
    SymPeek(s, i, "|)&;");
    hide Wrap, SkipSpace;
  }

  lemma RedirectStep(s: string, i: nat, rs: seq<Redirection>, mode: Mode, f: string)
    requires i <= |s| && NUL !in s && Spells(s, i, ItemToks(Redirect(mode, f)), GetToken(s, GetToken(s, i).next).next)
    ensures var word := GetToken(s, GetToken(s, i).next);
            var r := Redirection(Span(word.q, word.eq), if mode.Input? then ForInput else ForOutput);
            && word.next <= |s| && IsWordSpan(s, r.file) && Spell(s, r.file) == f
            && ParseRedirs(s, i, rs) == ParseRedirs(s, word.next, rs + [r])
  {
    var toks := ItemToks(Redirect(mode, f));
    assert toks[1..] == [Word(f)] && toks[1..][0] == Word(f);
    SymPeek(s, i, "<>");
    TokenIsWord(s, GetToken(s, i).next);
    hide GetToken, SkipSpace, Peek, IsWordSpan;
  }

  lemma ArgStep(s: string, i: nat, argv: seq<Span>, rs: seq<Redirection>, w: string)
    requires i <= |s| && NUL !in s && Fits(s, GetToken(s, i), Word(w)) && |argv| + 1 < MAXARGS
    ensures var t := GetToken(s, i);
            && IsWordSpan(s, Span(t.q, t.eq)) && Spell(s, Span(t.q, t.eq)) == w
            && RedirsThenArgs(s, i, argv, rs) == RedirsThenArgs(s, t.next, argv + [Span(t.q, t.eq)], rs)
  {
    TokenIsWord(s, i);
    PeekThen(s, i, "|)&;");
    SymPeek(s, i, "<>");
    SymPeek(s, i, "|)&;");
    assert At(s, SkipSpace(s, i)) !in "<>|)&;";
    hide GetToken, SkipSpace, IsWordSpan;
  }

  lemma WordsAppend(s: string, argv: seq<Span>, sp: Span)
    requires InLine(s, Exec(argv)) && IsWordSpan(s, sp)
    ensures InLine(s, Exec(argv + [sp])) && Words(s, argv + [sp]) == Words(s, argv) + [Spell(s, sp)]
  {
    hide IsWordSpan, Spell;
  }

  lemma TargetsAppend(s: string, rs: seq<Redirection>, r: Redirection)
    requires AllWords(s, rs) && IsWordSpan(s, r.file)
    ensures AllWords(s, rs + [r]) && TargetsOf(s, rs + [r]) == TargetsOf(s, rs) + [Target(Spell(s, r.file), r.open)]
  {
    hide IsWordSpan, Spell;
  }

  lemma ItemsDone(s: string, i: nat, argv: seq<Span>, rs: seq<Redirection>)
    requires i <= |s| && NUL !in s && AfterSimple(s, SkipSpace(s, i)) && InLine(s, Exec(argv)) && AllWords(s, rs)
    ensures ReadsAs(s, RedirsThenArgs(s, i, argv, rs), Redirected(TExec(Words(s, argv)), TargetsOf(s, rs)),
            SkipSpace(s, i))
  {
    ItemsStop(s, i, argv, rs);
    hide RedirsThenArgs, SkipSpace, IsWordSpan;
    WrapReads(s, Exec(argv), rs);
  }

  lemma Regroup<T>(a: seq<T>, b: seq<T>, c: seq<T>)
    ensures (a + b) + c == a + (b + c) && a + [] == a
  {
  }

  /** One item more in front. */
  lemma ItemsHead(items: seq<Item>)
    requires items != []
    ensures items[0].Arg? ==>
              Args(items) == [items[0].word] + Args(items[1..]) && Targets(items) == Targets(items[1..])
    ensures items[0].Redirect? ==>
              && Args(items) == Args(items[1..])
              && Targets(items) == [Target(items[0].file, if items[0].mode.Input? then ForInput else ForOutput)]
                                   + Targets(items[1..])
  {
    assert [] + Args(items[1..]) == Args(items[1..]) && [] + Targets(items[1..]) == Targets(items[1..]);
  }

  /** The first item is a word: one more argument. */
  lemma FirstArg(s: string, i: nat, items: seq<Item>, j: nat, argv: seq<Span>, rs: seq<Redirection>)
    returns (n: nat, sp: Span)
    requires i <= |s| && NUL !in s && items != [] && items[0].Arg? && Spells(s, i, ItemsToks(items), j)
    requires InLine(s, Exec(argv)) && |argv| + 1 < MAXARGS
    ensures n <= |s| && Spells(s, n, ItemsToks(items[1..]), j)
    ensures InLine(s, Exec(argv + [sp])) && Words(s, argv + [sp]) == Words(s, argv) + [items[0].word]
    ensures RedirsThenArgs(s, i, argv, rs) == RedirsThenArgs(s, n, argv + [sp], rs)
  {
    hide GetToken, SkipSpace, IsWordSpan, RedirsThenArgs, Words, InLine;
    var m := SpellsSplit(s, i, ItemToks(items[0]), ItemsToks(items[1..]), j);
    var t := GetToken(s, i);
    assert ItemToks(items[0])[1..] == [];
    TokenSkips(s, i);
    ArgStep(s, i, argv, rs, items[0].word);
    n, sp := t.next, Span(t.q, t.eq);
    WordsAppend(s, argv, sp);
  }

  /** The first item is a redirection: one more target. */
  lemma FirstRedirect(s: string, i: nat, items: seq<Item>, j: nat, rs: seq<Redirection>)
    returns (n: nat, r: Redirection)
    requires i <= |s| && NUL !in s && items != [] && items[0].Redirect? && Spells(s, i, ItemsToks(items), j)
    requires AllWords(s, rs)
    ensures n <= |s| && Spells(s, n, ItemsToks(items[1..]), j)
    ensures AllWords(s, rs + [r])
            && TargetsOf(s, rs + [r])
               == TargetsOf(s, rs) + [Target(items[0].file, if items[0].mode.Input? then ForInput else ForOutput)]
    ensures ParseRedirs(s, i, rs) == ParseRedirs(s, n, rs + [r])
  {
    hide GetToken, SkipSpace, IsWordSpan, ParseRedirs, TargetsOf, AllWords;
    var mode, f := items[0].mode, items[0].file;
    n := SpellsSplit(s, i, ItemToks(items[0]), ItemsToks(items[1..]), j);
    RedirectEnd(s, i, mode, f, n);
    RedirectStep(s, i, rs, mode, f);
    var word := GetToken(s, GetToken(s, i).next);
    r := Redirection(Span(word.q, word.eq), if mode.Input? then ForInput else ForOutput);
    TargetsAppend(s, rs, r);
  }

  /** Words and redirections in any order are all kept, each kind in its order. */
  lemma {:induction false} ItemsRead(s: string, i: nat, items: seq<Item>, j: nat, argv: seq<Span>, rs: seq<Redirection>)
    requires i <= |s| && NUL !in s && Spells(s, i, ItemsToks(items), j) && AfterSimple(s, j)
    requires InLine(s, Exec(argv)) && AllWords(s, rs) && |argv| + |Args(items)| < MAXARGS
    ensures ReadsAs(s, RedirsThenArgs(s, i, argv, rs),
                    Redirected(TExec(Words(s, argv) + Args(items)), TargetsOf(s, rs) + Targets(items)), j)
    decreases |items|
  {
    hide SkipSpace, ParseArgs, ParseRedirs, ReadsAs, Words, TargetsOf, Redirected, InLine, AllWords, AfterSimple;
    if items == [] {
      Regroup(Words(s, argv), [], []);
      Regroup(TargetsOf(s, rs), [], []);
      ItemsDone(s, i, argv, rs);
      return;
    }
    ItemsHead(items);
    hide Spells, ItemsToks, Args, Targets;
    if items[0].Arg? {
      var n, sp := FirstArg(s, i, items, j, argv, rs);
      ItemsRead(s, n, items[1..], j, argv + [sp], rs);
      Regroup(Words(s, argv), [items[0].word], Args(items[1..]));
    } else {
      var n, r := FirstRedirect(s, i, items, j, rs);
      ItemsRead(s, n, items[1..], j, argv, rs + [r]);
      Regroup(TargetsOf(s, rs), TargetsOf(s, rs + [r])[|TargetsOf(s, rs)|..], Targets(items[1..]));
    }
  }

  lemma RedirectEnd(s: string, i: nat, mode: Mode, f: string, m: nat)
    requires i <= |s| && Spells(s, i, ItemToks(Redirect(mode, f)), m)
    ensures m == GetToken(s, GetToken(s, i).next).next
  {
    var toks := ItemToks(Redirect(mode, f));
    TokenSkips(s, GetToken(s, i).next);
    hide GetToken, SkipSpace, Fits;
    assert toks[1..] == [Word(f)] && [Word(f)][1..] == [];
    var n := GetToken(s, i).next;
    assert Spells(s, n, [Word(f)], m);
    assert Spells(s, GetToken(s, n).next, [], m);
  }

  /** The same for the redirections after a block. */
  lemma {:induction false} AfterRead(s: string, i: nat, after: seq<Item>, j: nat, rs: seq<Redirection>)
    requires i <= |s| && NUL !in s && Spells(s, i, ItemsToks(after), j) && AfterSimple(s, j) && AllWords(s, rs)
    requires forall k | 0 <= k < |after| :: after[k].Redirect?
    ensures var r := ParseRedirs(s, i, rs);
            r.Ok? && r.pos == j && AllWords(s, r.value) && TargetsOf(s, r.value) == TargetsOf(s, rs) + Targets(after)
    decreases |after|
  {
    hide SkipSpace, ParseRedirs, TargetsOf, AllWords;
    if after == [] {
      assert TargetsOf(s, rs) + Targets(after) == TargetsOf(s, rs);
      ItemsStop(s, i, [], rs);
    } else {
      ItemsHead(after);
      hide Spells, ItemsToks, Args, Targets;
      var n, r := FirstRedirect(s, i, after, j, rs);
      AfterRead(s, n, after[1..], j, rs + [r]);
      Regroup(TargetsOf(s, rs), TargetsOf(s, rs + [r])[|TargetsOf(s, rs)|..], Targets(after[1..]));
    }
  }

  /** The symbol at the head of a token list: where it stands, and what follows it. */
  lemma SymHead(s: string, i: nat, c: char, rest: seq<Tok>, j: nat)
    requires i <= |s| && NUL !in s && Spells(s, i, [Sym(c)] + rest, j) && c in "|&;()"
    ensures var k := SkipSpace(s, i); k < |s| && s[k] == c && Peek(s, i, [c]) && GetToken(s, i).kind == c
    ensures i < GetToken(s, i).next <= |s| && Spells(s, GetToken(s, i).next, rest, j)
  {
    assert ([Sym(c)] + rest)[1..] == rest;
    SymPeek(s, i, [c]);
    PeekThen(s, i, [c]);
    hide GetToken;
  }

  /** Where a token list has been read up to, there is no white space. */
  lemma SpellsSettled(s: string, i: nat, toks: seq<Tok>, m: nat, c: char, rest: seq<Tok>, j: nat)
    requires i <= |s| && NUL !in s && Spells(s, i, toks, m) && m <= |s| && Spells(s, m, [Sym(c)] + rest, j)
             && c in "|&;()"
    ensures m < |s| && s[m] == c && Peek(s, m, [c]) && m < GetToken(s, m).next <= |s|
    ensures Spells(s, GetToken(s, m).next, rest, j)
  {
    hide GetToken, SkipSpace, Peek;
    SpellsEnd(s, i, toks, m);
    SymHead(s, m, c, rest, j);
  }

  lemma NoPeek(s: string, j: nat, c: char)
    requires j <= |s| && SkipSpace(s, j) == j && (j < |s| ==> s[j] != c)
    ensures !Peek(s, j, [c])
  {
  }

  lemma {:induction false} SimpleRead(s: string, i: nat, e: Simple, j: nat)
    requires i <= |s| && NUL !in s && SimpleOk(e) && Spells(s, i, SimpleToks(e), j) && AfterSimple(s, j)
    ensures ReadsAs(s, ParseExec(s, i), SimpleTree(e), j)
    decreases e, 0
  {
    hide GetToken, SkipSpace, IsWordSpan, ParseRedirs, ParseArgs, Peek, ParseLine, ItemsToks;
    match e
    case Plain(items) =>
      NotBlock(s, i, items, j);
      ItemsRead(s, i, items, j, [], []);
      assert Words(s, []) + Args(items) == Args(items) && TargetsOf(s, []) + Targets(items) == Targets(items);
      assert ParseExec(s, i) == RedirsThenArgs(s, i, [], []);
    case Block(line, after) =>
      SymHead(s, i, '(', LineToks(line) + ([Sym(')')] + ItemsToks(after)), j);
      var a := GetToken(s, i).next;
      var m := SpellsSplit(s, a, LineToks(line), [Sym(')')] + ItemsToks(after), j);
      SpellsSettled(s, a, LineToks(line), m, ')', ItemsToks(after), j);
      LineRead(s, a, line, m);
      AfterRead(s, GetToken(s, m).next, after, j, []);
      assert TargetsOf(s, []) + Targets(after) == Targets(after);
      var rs := ParseRedirs(s, GetToken(s, m).next, []);
      WrapReads(s, ParseLine(s, a).value, rs.value);
      BlockIs(s, i);
  }

  lemma BlockIs(s: string, i: nat)
    requires i <= |s| && Peek(s, i, "(")
    ensures ParseExec(s, i) ==
            var inner := ParseLine(s, GetToken(s, i).next);
            if inner.Panic? || !Peek(s, inner.pos, ")") then Panic
            else
              var rs := ParseRedirs(s, GetToken(s, inner.pos).next, []);
              if rs.Panic? then Panic else Ok(Wrap(inner.value, rs.value), rs.pos)
  {
    PeekThen(s, i, "(");
    hide ParseLine, ParseRedirs, GetToken, SkipSpace, Peek, Wrap;
  }

  /** A list of words and redirections does not begin with a parenthesis. */
  lemma NotBlock(s: string, i: nat, items: seq<Item>, j: nat)
    requires i <= |s| && NUL !in s && Spells(s, i, ItemsToks(items), j) && AfterSimple(s, j)
    ensures !Peek(s, i, "(")
  {
    SymPeek(s, i, "(");
    if items != [] {
      assert ItemsToks(items)[0] == ItemToks(items[0])[0];
    }
    hide GetToken;
  }

  lemma {:induction false} PipelineRead(s: string, i: nat, p: Pipeline, j: nat)
    requires i <= |s| && NUL !in s && PipelineOk(p) && Spells(s, i, PipelineToks(p), j) && AfterPipeline(s, j)
    ensures ReadsAs(s, ParsePipe(s, i), PipelineTree(p), j)
    decreases p, 1
  {
    hide GetToken, SkipSpace, IsWordSpan, ParseExec, Peek, SimpleToks, SimpleTree, SimpleOk;
    match p
    case One(e) =>
      SimpleRead(s, i, e, j);
      SpellsEnd(s, i, SimpleToks(e), j);
      NoPeek(s, j, '|');
    case Bar(e, more) =>
      var m := SpellsSplit(s, i, SimpleToks(e), [Sym('|')] + PipelineToks(more), j);
      SpellsSettled(s, i, SimpleToks(e), m, '|', PipelineToks(more), j);
      SimpleRead(s, i, e, m);
      PipelineRead(s, GetToken(s, m).next, more, j);
  }

  lemma {:induction false} BacksRead(s: string, i: nat, n: nat, j: nat, c: Cmd)
    requires i <= |s| && NUL !in s && Spells(s, i, Ands(n), j) && j <= |s| && (j < |s| ==> s[j] != '&') && InLine(s, c)
    ensures ReadsAs(s, ParseBacks(s, i, c), Backs(Read(s, c), n), j)
    decreases n
  {
    hide GetToken, SkipSpace, IsWordSpan, Peek;
    SpellsEnd(s, i, Ands(n), j);
    if n == 0 {
      SymPeek(s, i, "&");
    } else {
      SymHead(s, i, '&', Ands(n - 1), j);
      BacksRead(s, GetToken(s, i).next, n - 1, j, Back(c));
    }
  }

  /** After the pipeline comes an ampersand, or what comes after the ampersands. */
  lemma AndsStart(s: string, i: nat, n: nat, j: nat)
    requires i <= |s| && NUL !in s && Spells(s, i, Ands(n), j) && SkipSpace(s, i) == i && AfterPipeline(s, j)
    ensures AfterPipeline(s, i)
  {
    hide GetToken, Peek;
    if n > 0 { SymHead(s, i, '&', Ands(n - 1), j); }
  }

  lemma {:induction false} LineRead(s: string, i: nat, l: Line, j: nat)
    requires i <= |s| && NUL !in s && LineOk(l) && Spells(s, i, LineToks(l), j) && AfterLine(s, j)
    ensures ReadsAs(s, ParseLine(s, i), LineTree(l), j)
    decreases l, 2
  {
    hide GetToken, SkipSpace, IsWordSpan, ParsePipe, ParseBacks, Peek, PipelineToks, PipelineTree, PipelineOk, Ands;
    SpellsEnd(s, i, LineToks(l), j);
    var rest := if l.Last? then [] else [Sym(';')] + LineToks(l.more);
    assert l.Last? ==> Ands(l.backs) + rest == Ands(l.backs);
    var m := SpellsSplit(s, i, PipelineToks(l.p), Ands(l.backs) + rest, j);
    var k := SpellsSplit(s, m, Ands(l.backs), rest, j);
    SpellsEnd(s, i, PipelineToks(l.p), m);
    SpellsEnd(s, m, Ands(l.backs), k);
    if l.Then? { SpellsSettled(s, m, Ands(l.backs), k, ';', LineToks(l.more), j); }
    AndsStart(s, m, l.backs, k);
    PipelineRead(s, i, l.p, m);
    BacksRead(s, m, l.backs, k, ParsePipe(s, i).value);
    if l.Last? {
      NoPeek(s, k, ';');
    } else {
      LineRead(s, GetToken(s, k).next, l.more, j);
    }
  }

  // ---- Every accepted line is a line of the language ----

  lemma WordFits(s: string, i: nat) returns (w: string)
    requires i <= |s| && NUL !in s && GetToken(s, i).kind == 'a'
    ensures IsWord(w) && Fits(s, GetToken(s, i), Word(w))
  {
    TokenIsWord(s, i);
    var t := GetToken(s, i);
    w := s[t.q..t.eq];
  }

  lemma {:induction false} RedirsSpell(s: string, i: nat, rs: seq<Redirection>) returns (items: seq<Item>)
    requires i <= |s| && NUL !in s && ParseRedirs(s, i, rs).Ok?
    ensures Spells(s, i, ItemsToks(items), ParseRedirs(s, i, rs).pos) && Args(items) == []
    ensures forall k | 0 <= k < |items| :: ItemOk(items[k]) && items[k].Redirect?
    decreases |s| - i
  {
    hide GetToken, SkipSpace, Peek, IsWord;
    if !Peek(s, i, "<>") {
      items := [];
    } else {
      SymPeek(s, i, "<>");
      PeekThen(s, i, "<>");
      var tok := GetToken(s, i);
      var word := GetToken(s, tok.next);
      var f := WordFits(s, tok.next);
      var mode := if tok.kind == '<' then Input else if tok.kind == '>' then Output else Append;
      var it := Redirect(mode, f);
      var more := RedirsSpell(s, word.next,
          rs + [Redirection(Span(word.q, word.eq), if tok.kind == '<' then ForInput else ForOutput)]);
      items := [it] + more;
      assert items[1..] == more;
      SpellsOne(s, tok.next, Word(f));
      assert ItemToks(it)[1..] == [Word(f)];
      SpellsJoin(s, i, ItemToks(it), word.next, ItemsToks(more), ParseRedirs(s, i, rs).pos);
    }
  }

  lemma {:induction false} ItemsAppend(a: seq<Item>, b: seq<Item>)
    ensures ItemsToks(a + b) == ItemsToks(a) + ItemsToks(b) && Args(a + b) == Args(a) + Args(b)
    decreases |a|
  {
    if a == [] {
      assert a + b == b;
    } else {
      assert (a + b)[1..] == a[1..] + b && (a + b)[0] == a[0];
      ItemsAppend(a[1..], b);
      ItemsHead(a);
      ItemsHead(a + b);
      Regroup(ItemToks(a[0]), ItemsToks(a[1..]), ItemsToks(b));
      hide ItemToks, Args;
      if a[0].Arg? { Regroup([a[0].word], Args(a[1..]), Args(b)); }
    }
  }

  lemma {:induction false} ArgsSpell(s: string, i: nat, argv: seq<Span>, rs: seq<Redirection>)
                                returns (items: seq<Item>)
    requires i <= |s| && NUL !in s && RedirsThenArgs(s, i, argv, rs).Ok? && |argv| < MAXARGS
    ensures Spells(s, i, ItemsToks(items), RedirsThenArgs(s, i, argv, rs).pos)
    ensures |argv| + |Args(items)| < MAXARGS && forall k | 0 <= k < |items| :: ItemOk(items[k])
    decreases |s| - i
  {
    hide GetToken, SkipSpace, Peek, IsWord, ParseRedirs, Wrap;
    var r := ParseRedirs(s, i, rs);
    var front := RedirsSpell(s, i, rs);
    SpellsEnd(s, i, ItemsToks(front), r.pos);
    var tok := GetToken(s, r.pos);
    if Peek(s, r.pos, "|)&;") || tok.kind == NUL {
      items := front;
      EndToken(s, r.pos);
    } else {
      PeekThen(s, r.pos, "");
      var w := WordFits(s, r.pos);
      var more := ArgsSpell(s, tok.next, argv + [Span(tok.q, tok.eq)], r.value);
      var end := RedirsThenArgs(s, i, argv, rs).pos;
      var tail := [Arg(w)] + more;
      assert tail[1..] == more;
      SpellsOne(s, r.pos, Word(w));
      SpellsJoin(s, r.pos, ItemToks(Arg(w)), tok.next, ItemsToks(more), end);
      ItemsAppend(front, tail);
      items := front + tail;
      SpellsJoin(s, i, ItemsToks(front), r.pos, ItemsToks(tail), end);
    }
  }

  lemma EndToken(s: string, i: nat)
    requires i <= |s| && SkipSpace(s, i) == i
    ensures GetToken(s, i).kind == NUL ==> GetToken(s, i).next == i
  {
  }

  lemma {:induction false} SimpleSpell(s: string, i: nat) returns (e: Simple)
    requires i <= |s| && NUL !in s && ParseExec(s, i).Ok?
    ensures SimpleOk(e) && Spells(s, i, SimpleToks(e), ParseExec(s, i).pos)
    decreases |s| - i, 1
  {
    hide GetToken, SkipSpace, Peek, IsWord, ParseRedirs, ParseLine, ParseArgs, Wrap, ItemsToks;
    if Peek(s, i, "(") {
      BlockIs(s, i);
      SymPeek(s, i, "(");
      PeekThen(s, i, "(");
      var a := GetToken(s, i).next;
      var inner := ParseLine(s, a);
      var line := LineSpell(s, a);
      SymPeek(s, inner.pos, ")");
      var b := GetToken(s, inner.pos).next;
      var after := RedirsSpell(s, b, []);
      e := Block(line, after);
      var end := ParseExec(s, i).pos;
      SpellsOne(s, inner.pos, Sym(')'));
      SpellsJoin(s, inner.pos, [Sym(')')], b, ItemsToks(after), end);
      SpellsJoin(s, a, LineToks(line), inner.pos, [Sym(')')] + ItemsToks(after), end);
      SpellsOne(s, i, Sym('('));
      SpellsJoin(s, i, [Sym('(')], a, LineToks(line) + ([Sym(')')] + ItemsToks(after)), end);
    } else {
      assert ParseExec(s, i) == RedirsThenArgs(s, i, [], []);
      var items := ArgsSpell(s, i, [], []);
      e := Plain(items);
    }
  }

  lemma {:induction false} PipelineSpell(s: string, i: nat) returns (p: Pipeline)
    requires i <= |s| && NUL !in s && ParsePipe(s, i).Ok?
    ensures PipelineOk(p) && Spells(s, i, PipelineToks(p), ParsePipe(s, i).pos)
    decreases |s| - i, 2
  {
    hide GetToken, SkipSpace, Peek, ParseExec, SimpleToks, SimpleOk;
    var left := ParseExec(s, i);
    var e := SimpleSpell(s, i);
    SpellsEnd(s, i, SimpleToks(e), left.pos);
    if Peek(s, left.pos, "|") {
      SymPeek(s, left.pos, "|");
      PeekThen(s, left.pos, "|");
      var b := GetToken(s, left.pos).next;
      var more := PipelineSpell(s, b);
      var end := ParsePipe(s, i).pos;
      p := Bar(e, more);
      SpellsOne(s, left.pos, Sym('|'));
      SpellsJoin(s, left.pos, [Sym('|')], b, PipelineToks(more), end);
      SpellsJoin(s, i, SimpleToks(e), left.pos, [Sym('|')] + PipelineToks(more), end);
    } else {
      p := One(e);
    }
  }

  lemma {:induction false} BacksSpell(s: string, i: nat, c: Cmd) returns (n: nat)
    requires i <= |s| && NUL !in s
    ensures Spells(s, i, Ands(n), ParseBacks(s, i, c).pos)
    decreases |s| - i
  {
    hide GetToken, SkipSpace, Peek;
    if Peek(s, i, "&") {
      SymPeek(s, i, "&");
      PeekThen(s, i, "&");
      var b := GetToken(s, i).next;
      var m := BacksSpell(s, b, Back(c));
      n := m + 1;
      SpellsOne(s, i, Sym('&'));
      SpellsJoin(s, i, [Sym('&')], b, Ands(m), ParseBacks(s, i, c).pos);
    } else {
      n := 0;
    }
  }

  lemma {:induction false} LineSpell(s: string, i: nat) returns (l: Line)
    requires i <= |s| && NUL !in s && ParseLine(s, i).Ok?
    ensures LineOk(l) && Spells(s, i, LineToks(l), ParseLine(s, i).pos)
    decreases |s| - i, 3
  {
    hide GetToken, SkipSpace, Peek, ParsePipe, ParseBacks, PipelineToks, PipelineOk, Ands;
    var first := ParsePipe(s, i);
    var p := PipelineSpell(s, i);
    var n := BacksSpell(s, first.pos, first.value);
    var left := ParseBacks(s, first.pos, first.value);
    SpellsEnd(s, first.pos, Ands(n), left.pos);
    if Peek(s, left.pos, ";") {
      SymPeek(s, left.pos, ";");
      PeekThen(s, left.pos, ";");
      var b := GetToken(s, left.pos).next;
      var more := LineSpell(s, b);
      var end := ParseLine(s, i).pos;
      l := Then(p, n, more);
      SpellsOne(s, left.pos, Sym(';'));
      SpellsJoin(s, left.pos, [Sym(';')], b, LineToks(more), end);
      SpellsJoin(s, first.pos, Ands(n), left.pos, [Sym(';')] + LineToks(more), end);
      SpellsJoin(s, i, PipelineToks(p), first.pos, Ands(n) + ([Sym(';')] + LineToks(more)), end);
    } else {
      l := Last(p, n);
      SpellsJoin(s, i, PipelineToks(p), first.pos, Ands(n), left.pos);
    }
  }

  // ---- The language, both ways ----

  predicate ToksOk(toks: seq<Tok>) {
    forall k | 0 <= k < |toks| :: TokOk(toks[k])
  }

  lemma {:induction false} ItemsToksOk(items: seq<Item>)
    requires forall k | 0 <= k < |items| :: ItemOk(items[k])
    ensures ToksOk(ItemsToks(items))
  {
    hide IsWord;
    if items != [] {
      assert ItemOk(items[0]);
      ItemsToksOk(items[1..]);
    }
  }

  lemma {:induction false} AndsOk(n: nat)
    ensures ToksOk(Ands(n))
  {
    if n > 0 { AndsOk(n - 1); }
  }

  lemma {:induction false} SimpleToksOk(e: Simple)
    requires SimpleOk(e)
    ensures ToksOk(SimpleToks(e))
    decreases e, 0
  {
    hide ItemsToks, IsWord;
    match e
    case Plain(items) => ItemsToksOk(items);
    case Block(line, after) => LineToksOk(line); ItemsToksOk(after);
  }

  lemma {:induction false} PipelineToksOk(p: Pipeline)
    requires PipelineOk(p)
    ensures ToksOk(PipelineToks(p))
    decreases p, 1
  {
    hide SimpleToks, SimpleOk;
    SimpleToksOk(p.e);
    if p.Bar? { PipelineToksOk(p.more); }
  }

  lemma {:induction false} LineToksOk(l: Line)
    requires LineOk(l)
    ensures ToksOk(LineToks(l))
    decreases l, 2
  {
    hide PipelineToks, PipelineOk, Ands;
    PipelineToksOk(l.p);
    AndsOk(l.backs);
    if l.Then? { LineToksOk(l.more); }
  }

  lemma {:induction false} TextHasNoNul(toks: seq<Tok>, gaps: seq<string>)
    requires GapsOk(toks, gaps) && ToksOk(toks)
    ensures NUL !in Text(toks, gaps)
    decreases |toks|
  {
    assert IsGap(gaps[0]);
    if toks != [] {
      assert TokOk(toks[0]);
      GapsTail(toks, gaps);
      TextHasNoNul(toks[1..], gaps[1..]);
      assert NUL !in TokText(toks[0]);
    }
  }

  /** `s` is line `l` written with those gaps. */
  predicate IsSpelling(s: string, l: Line, gaps: seq<string>) {
    LineOk(l) && GapsOk(LineToks(l), gaps) && s == Text(LineToks(l), gaps)
  }

  /** A line of the language, with any white space, is read as the command it means. */
  lemma LineReads(s: string, l: Line, gaps: seq<string>) returns (c: Cmd)
    requires IsSpelling(s, l, gaps)
    ensures ParseCmd(s) == Ok(c, |s|) && InLine(s, c) && Read(s, c) == LineTree(l)
  {
    hide ParseLine, Spells, LineToks, LineTree, LineOk, TokOk, InLine, Read, Sticks, IsGap;
    LineToksOk(l);
    TextHasNoNul(LineToks(l), gaps);
    assert s[0..] == s;
    TextReads(s, 0, LineToks(l), gaps);
    LineRead(s, 0, l, |s|);
    c := ParseLine(s, 0).value;
  }

  /** The token where it is written, between white space. */
  lemma FitsText(s: string, i: nat, tok: Tok)
    requires i <= |s| && NUL !in s && Fits(s, GetToken(s, i), tok)
    ensures var t := GetToken(s, i);
            && i <= t.q <= t.eq <= t.next <= |s| && TokOk(tok) && s[t.q..t.eq] == TokText(tok)
            && IsGap(s[i..t.q]) && IsGap(s[t.eq..t.next])
  {
    TokenParts(s, i);
    if tok.Word? { TokenIsWord(s, i); }
    hide GetToken, SkipSpace, TokenEnd;
    var t := GetToken(s, i);
    Gap(s, i);
    Gap(s, t.eq);
    if tok.Sym? { SymText(s, t.q, tok.c); }
  }

  lemma TokenParts(s: string, i: nat)
    requires i <= |s|
    ensures var t := GetToken(s, i);
            && i <= t.q == SkipSpace(s, i) <= t.eq <= t.next <= |s| && TokenEnd(s, t.q) == (t.kind, t.eq)
            && t.next == SkipSpace(s, t.eq)
  {
  }

  lemma SymText(s: string, q: nat, c: char)
    requires q <= |s| && TokenEnd(s, q).0 == c && c in "|&;()<>+"
    ensures q <= TokenEnd(s, q).1 <= |s| && s[q..TokenEnd(s, q).1] == TokText(Sym(c))
  {
    hide WordEnd;
  }

  lemma {:induction false} Gap(s: string, i: nat)
    requires i <= |s|
    ensures SkipSpace(s, i) <= |s| && IsGap(s[i..SkipSpace(s, i)])
    decreases |s| - i
  {
    if i < |s| && IsSpace(s[i]) {
      Gap(s, i + 1);
      assert s[i..SkipSpace(s, i)] == [s[i]] + s[i + 1..SkipSpace(s, i)];
    }
  }

  /** Tokens that would stick have white space between them. */
  lemma StickyApart(s: string, i: nat, a: Tok, b: Tok)
    requires i <= |s| && NUL !in s && Fits(s, GetToken(s, i), a) && Fits(s, GetToken(s, GetToken(s, i).eq), b)
    requires Sticks(a, b)
    ensures GetToken(s, GetToken(s, i).eq).q != GetToken(s, i).eq
  {
    if a.Word? { TokenIsWord(s, i); TokenIsWord(s, GetToken(s, i).eq); }
  }

  /** A line that is read as these tokens is one of their spellings. */
  lemma {:induction false} SpellsText(s: string, i: nat, toks: seq<Tok>) returns (gaps: seq<string>)
    requires i <= |s| && NUL !in s && Spells(s, i, toks, |s|)
    ensures GapsOk(toks, gaps) && s[i..] == Text(toks, gaps)
    ensures toks != [] && gaps[0] == [] ==> GetToken(s, i).q == i
    decreases |toks|
  {
    hide GetToken, IsGap, TokText, Sticks, TokOk;
    if toks == [] {
      Gap(s, i);
      assert s[i..|s|] == s[i..];
      gaps := [s[i..]];
    } else {
      var t := GetToken(s, i);
      FitsText(s, i, toks[0]);
      TokenSpan(s, i);
      SpellsSkip(s, t.eq, toks[1..], |s|);
      var more := SpellsText(s, t.eq, toks[1..]);
      gaps := [s[i..t.q]] + more;
      if |toks| > 1 && Sticks(toks[0], toks[1]) {
        assert toks[1..][0] == toks[1];
        StickyApart(s, i, toks[0], toks[1]);
      }
      hide Spells, GapsOk, Text, Fits;
      GapsCons(toks, s[i..t.q], more);
      ThreeParts(s, i, t.q, t.eq);
    }
  }

  lemma ThreeParts(s: string, i: nat, q: nat, eq: nat)
    requires i <= q <= eq <= |s|
    ensures s[i..] == s[i..q] + (s[q..eq] + s[eq..])
  {
  }

  lemma GapsCons(toks: seq<Tok>, g: string, more: seq<string>)
    requires toks != [] && GapsOk(toks[1..], more) && IsGap(g)
    requires |toks| > 1 && Sticks(toks[0], toks[1]) ==> more[0] != []
    ensures GapsOk(toks, [g] + more) && Text(toks, [g] + more) == g + (TokText(toks[0]) + Text(toks[1..], more))
  {
    hide IsGap, TokText, Sticks;
    assert ([g] + more)[1..] == more;
    forall k | 0 < k < |toks| && Sticks(toks[k - 1], toks[k])
      ensures ([g] + more)[k] != []
    {
      if k > 1 { assert toks[1..][k - 2] == toks[k - 1] && toks[1..][k - 1] == toks[k]; }
    }
  }

  lemma TokenSpan(s: string, i: nat)
    requires i <= |s|
    ensures GetToken(s, i).eq <= |s| ==> GetToken(s, i).next == SkipSpace(s, GetToken(s, i).eq)
  {
  }

  /** The shell accepts nothing else: every line it parses is a line of the language, and it means what it parsed. */
  lemma AcceptedIsLine(s: string) returns (l: Line, gaps: seq<string>)
    requires NUL !in s && ParseCmd(s).Ok?
    ensures IsSpelling(s, l, gaps)
    ensures InLine(s, ParseCmd(s).value) && Read(s, ParseCmd(s).value) == LineTree(l)
  {
    hide ParseLine, Spells, LineToks, LineTree, LineOk, InLine, Read, Sticks, IsGap;
    l := LineSpell(s, 0);
    SpellsEnd(s, 0, LineToks(l), ParseLine(s, 0).pos);
    gaps := SpellsText(s, 0, LineToks(l));
    assert s[0..] == s;
    var c := LineReads(s, l, gaps);
  }

  predicate Printable(t: Tree) {
    match t
    case TExec(words) => |words| < MAXARGS && forall k | 0 <= k < |words| :: IsWord(words[k])
    case TRedir(u, file, open) => Printable(u) && IsWord(file)
    case TPipe(l, r) => Printable(l) && Printable(r)
    case TList(l, r) => Printable(l) && Printable(r)
    case TBack(u) => Printable(u)
  }

  function AsItems(words: seq<string>): seq<Item> {
    seq(|words|, k requires 0 <= k < |words| => Arg(words[k]))
  }

  /** A line for a command, with parentheses around every part. */
  function LineFor(t: Tree): Line {
    match t
    case TExec(words) => Last(One(Plain(AsItems(words))), 0)
    case TRedir(u, file, open) =>
      Last(One(Block(LineFor(u), [Redirect(if open.ForInput? then Input else Output, file)])), 0)
    case TPipe(l, r) => Last(Bar(Block(LineFor(l), []), One(Block(LineFor(r), []))), 0)
    case TList(l, r) => Then(One(Block(LineFor(l), [])), 0, Last(One(Block(LineFor(r), [])), 0))
    case TBack(u) => Last(One(Block(LineFor(u), [])), 1)
  }

  lemma {:induction false} AsItemsArgs(words: seq<string>)
    ensures Args(AsItems(words)) == words && Targets(AsItems(words)) == []
  {
    if words != [] {
      AsItemsArgs(words[1..]);
      assert AsItems(words)[1..] == AsItems(words[1..]);
    }
  }

  lemma {:induction false} LineForMeans(t: Tree)
    requires Printable(t)
    ensures LineOk(LineFor(t)) && LineTree(LineFor(t)) == t
  {
    hide IsWord;
    match t
    case TExec(words) =>
      AsItemsArgs(words);
      forall k | 0 <= k < |words| ensures ItemOk(AsItems(words)[k]) {}
      var e := Plain(AsItems(words));
      assert Redirected(TExec(words), []) == TExec(words);
      assert SimpleOk(e) && SimpleTree(e) == t && PipelineTree(One(e)) == t && Backs(t, 0) == t;
    case TRedir(u, file, open) =>
      LineForMeans(u);
      RedirectMeans(LineFor(u), file, open);
    case TPipe(l, r) =>
      LineForMeans(l);
      LineForMeans(r);
      BlockMeans(LineFor(l));
      BlockMeans(LineFor(r));
      assert PipelineOk(One(Block(LineFor(r), []))) && PipelineTree(One(Block(LineFor(r), []))) == r;
      assert PipelineTree(LineFor(t).p) == t && PipelineOk(LineFor(t).p);
    case TList(l, r) =>
      LineForMeans(l);
      LineForMeans(r);
      BlockMeans(LineFor(l));
      BlockMeans(LineFor(r));
      assert LineOk(LineFor(t).more) && LineTree(LineFor(t).more) == r;
    case TBack(u) => LineForMeans(u); BlockMeans(LineFor(u)); OneBack(u);
  }

  lemma BlockMeans(l: Line)
    requires LineOk(l)
    ensures SimpleOk(Block(l, [])) && SimpleTree(Block(l, [])) == LineTree(l)
  {
    assert Redirected(LineTree(l), []) == LineTree(l);
  }

  lemma RedirectMeans(l: Line, file: string, open: Open)
    requires LineOk(l) && IsWord(file)
    ensures var e := Block(l, [Redirect(if open.ForInput? then Input else Output, file)]);
            SimpleOk(e) && SimpleTree(e) == TRedir(LineTree(l), file, open)
  {
    hide IsWord;
    var it := Redirect(if open.ForInput? then Input else Output, file);
    assert [it][1..] == [] && Targets([]) == [] && Targets([it]) == [Target(file, open)];
    assert Redirected(LineTree(l), []) == LineTree(l);
    assert Redirected(LineTree(l), [Target(file, open)]) == TRedir(LineTree(l), file, open);
  }

  lemma OneBack(t: Tree)
    ensures Backs(t, 1) == TBack(t)
  {
    assert Backs(TBack(t), 0) == TBack(t);
  }

  /** That line with single spaces. */
  function Print(t: Tree): string {
    Text(LineToks(LineFor(t)), seq(|LineToks(LineFor(t))| + 1, k => " "))
  }

  /** Round trip: every command with at most MAXARGS - 1 proper words per Exec survives printing and parsing. */
  lemma RoundTrip(t: Tree) returns (c: Cmd)
    requires Printable(t)
    ensures ParseCmd(Print(t)) == Ok(c, |Print(t)|) && InLine(Print(t), c) && Read(Print(t), c) == t
  {
    hide LineToks, LineOk, LineTree, ParseCmd, InLine, Read, Text;
    LineForMeans(t);
    c := LineReads(Print(t), LineFor(t), seq(|LineToks(LineFor(t))| + 1, k => " "));
  }

  // ---- C strings ----

  /** The command as the shell runs it: its words are C strings in the buffer. */
  function CRead(b: seq<char>, c: Cmd): Tree {
    match c
    case Exec(argv) => TExec(seq(|argv|, k requires 0 <= k < |argv| => CString(b, argv[k].q)))
    case Redir(d, file, open) => TRedir(CRead(b, d), CString(b, file.q), open)
    case Pipe(l, r) => TPipe(CRead(b, l), CRead(b, r))
    case List(l, r) => TList(CRead(b, l), CRead(b, r))
    case Back(d) => TBack(CRead(b, d))
  }

  /** The positions nulterminate writes to. */
  function Ends(c: Cmd): set<nat> {
    match c
    case Exec(argv) => set k | 0 <= k < |argv| :: argv[k].eq
    case Redir(d, file, open) => Ends(d) + {file.eq}
    case Pipe(l, r) => Ends(l) + Ends(r)
    case List(l, r) => Ends(l) + Ends(r)
    case Back(d) => Ends(d)
  }

  /** No position nulterminate writes to lies inside a word. */
  lemma {:induction false} EndsOutsideWords(s: string, c: Cmd, sp: Span, e: nat)
    requires InLine(s, c) && IsWordSpan(s, sp) && e in Ends(c)
    ensures e <= |s| && !(sp.q <= e < sp.eq)
  {
    match c
    case Exec(argv) =>
      var k :| 0 <= k < |argv| && argv[k].eq == e;
      assert IsWordSpan(s, argv[k]);
    case Redir(d, file, open) => if e in Ends(d) { EndsOutsideWords(s, d, sp, e); }
    case Pipe(l, r) => if e in Ends(l) { EndsOutsideWords(s, l, sp, e); } else { EndsOutsideWords(s, r, sp, e); }
    case List(l, r) => if e in Ends(l) { EndsOutsideWords(s, l, sp, e); } else { EndsOutsideWords(s, r, sp, e); }
    case Back(d) => EndsOutsideWords(s, d, sp, e);
  }

  /** The line with its NUL and with a NUL at every position of `ends`. */
  ghost predicate Cut(s: string, b: seq<char>, ends: set<nat>) {
    |b| == |s| + 1 && forall k: nat | k <= |s| :: b[k] == if k in ends then NUL else At(s, k)
  }

  lemma WordReads(s: string, b: seq<char>, c: Cmd, sp: Span)
    requires InLine(s, c) && NUL !in s && Cut(s, b, Ends(c)) && IsWordSpan(s, sp) && sp.eq in Ends(c)
    ensures CString(b, sp.q) == Spell(s, sp)
  {
    forall k: nat | sp.q <= k < sp.eq
      ensures b[k] == s[k]
    {
      if k in Ends(c) { EndsOutsideWords(s, c, sp, k); }
    }
    assert b[sp.q..sp.eq] == s[sp.q..sp.eq];
    CStringIs(b, sp.q, sp.eq);
  }

  lemma {:induction false} CutReads(s: string, b: seq<char>, top: Cmd, c: Cmd)
    requires InLine(s, top) && NUL !in s && Cut(s, b, Ends(top)) && InLine(s, c) && Ends(c) <= Ends(top)
    ensures CRead(b, c) == Read(s, c)
    decreases c
  {
    hide Cut, Spell, CString;
    match c
    case Exec(argv) =>
      forall k | 0 <= k < |argv|
        ensures CString(b, argv[k].q) == Spell(s, argv[k])
      {
        assert argv[k].eq in Ends(c);
        WordReads(s, b, top, argv[k]);
      }
      assert CRead(b, c).words == Read(s, c).words;
    case Redir(d, file, open) => CutReads(s, b, top, d); WordReads(s, b, top, file);
    case Pipe(l, r) => CutReads(s, b, top, l); CutReads(s, b, top, r);
    case List(l, r) => CutReads(s, b, top, l); CutReads(s, b, top, r);
    case Back(d) => CutReads(s, b, top, d);
  }

  // ---- The code ----

  /** What a parse routine returned, None standing for a panic, against its specification. */
  ghost predicate Agrees(spec: Result<Cmd>, r: Option<Cmd>, pos: nat) {
    match spec
    case Panic => r.None?
    case Ok(c, p) => r == Some(c) && pos == p
  }

  class Parser {
    const s: string
    var pos: nat  // *ps

    constructor (s: string)
      ensures this.s == s && pos == 0
    {
      this.s, pos := s, 0;
    }

    method GetTok() returns (kind: char, q: nat, eq: nat)
      requires pos <= |s|
      modifies this
      ensures Token(kind, q, eq, pos) == GetToken(s, old(pos)) && pos <= |s|
    {
      var i := pos;
      while i < |s| && IsSpace(s[i])
        invariant i <= |s| && SkipSpace(s, i) == SkipSpace(s, old(pos))
      {
        i := i + 1;
      }
      q := i;
      kind := At(s, i);
      if kind == NUL {
      } else if kind == '|' || kind == '(' || kind == ')' || kind == ';' || kind == '&' || kind == '<' {
        i := i + 1;
      } else if kind == '>' {
        i := i + 1;
        if At(s, i) == '>' {
          kind := '+';
          i := i + 1;
        }
      } else {
        kind := 'a';
        while i < |s| && !IsSpace(s[i]) && !IsSymbol(s[i])
          invariant i <= |s| && WordEnd(s, i) == WordEnd(s, q)
        {
          i := i + 1;
        }
      }
      eq := i;
      while i < |s| && IsSpace(s[i])
        invariant i <= |s| && SkipSpace(s, i) == SkipSpace(s, eq)
      {
        i := i + 1;
      }
      pos := i;
    }

    method PeekTok(toks: string) returns (b: bool)
      requires pos <= |s|
      modifies this
      ensures b == Peek(s, old(pos), toks) && pos == SkipSpace(s, old(pos)) && pos <= |s|
    {
      var i := pos;
      while i < |s| && IsSpace(s[i])
        invariant i <= |s| && SkipSpace(s, i) == SkipSpace(s, old(pos))
      {
        i := i + 1;
      }
      pos := i;
      b := At(s, i) != NUL && At(s, i) in toks;
    }

    method ParseRedirsAt(rs: seq<Redirection>) returns (r: Option<seq<Redirection>>)
      requires pos <= |s|
      modifies this
      ensures var spec := ParseRedirs(s, old(pos), rs);
              pos <= |s| && if spec.Panic? then r.None? else r == Some(spec.value) && pos == spec.pos
    {
      hide GetToken, Peek, SkipSpace;
      var found := rs;
      while true
        invariant pos <= |s| && ParseRedirs(s, pos, found) == ParseRedirs(s, old(pos), rs)
        decreases |s| - pos
      {
        ghost var at := pos;
        var more := PeekTok("<>");
        PeekThen(s, at, "<>");
        if !more {
          return Some(found);
        }
        var kind, _, _ := GetTok();
        var word, q, eq := GetTok();
        if word != 'a' {
          return None;
        }
        found := found + [Redirection(Span(q, eq), if kind == '<' then ForInput else ForOutput)];
      }
    }

    method ParseLineAt() returns (r: Option<Cmd>)
      requires pos <= |s|
      modifies this
      ensures pos <= |s| && Agrees(ParseLine(s, old(pos)), r, pos)
      decreases |s| - pos, 3
    {
      hide GetToken, Peek, SkipSpace, ParsePipe;
      ghost var start := pos;
      r := ParsePipeAt();
      if r.None? {
        return;
      }
      var c := r.value;
      ghost var first := ParsePipe(s, start);
      while true
        invariant start <= pos <= |s| && ParseBacks(s, pos, c) == ParseBacks(s, first.pos, first.value)
        decreases |s| - pos
      {
        ghost var at := pos;
        var more := PeekTok("&");
        PeekThen(s, at, "&");
        if !more {
          break;
        }
        var _, _, _ := GetTok();
        c := Back(c);
      }
      ghost var at := pos;
      var more := PeekTok(";");
      PeekThen(s, at, ";");
      if more {
        var _, _, _ := GetTok();
        r := ParseLineAt();
        if r.None? {
          return;
        }
        return Some(List(c, r.value));
      }
      return Some(c);
    }

    method ParsePipeAt() returns (r: Option<Cmd>)
      requires pos <= |s|
      modifies this
      ensures pos <= |s| && Agrees(ParsePipe(s, old(pos)), r, pos)
      decreases |s| - pos, 2
    {
      hide GetToken, Peek, SkipSpace, ParseExec;
      r := ParseExecAt();
      if r.None? {
        return;
      }
      var left := r.value;
      ghost var at := pos;
      var more := PeekTok("|");
      PeekThen(s, at, "|");
      if more {
        var _, _, _ := GetTok();
        r := ParsePipeAt();
        if r.None? {
          return;
        }
        return Some(Pipe(left, r.value));
      }
    }

    method ParseBlockAt() returns (r: Option<Cmd>)
      requires pos <= |s| && Peek(s, pos, "(")
      modifies this
      ensures pos <= |s| && Agrees(ParseBlock(s, old(pos)), r, pos)
      decreases |s| - pos, 0
    {
      hide GetToken, Peek, SkipSpace, ParseLine, ParseRedirs, Wrap;
      ghost var start := pos;
      var open := PeekTok("(");
      PeekThen(s, start, "(");
      if !open {
        return None;
      }
      var _, _, _ := GetTok();
      r := ParseLineAt();
      if r.None? {
        return;
      }
      ghost var at := pos;
      var close := PeekTok(")");
      PeekThen(s, at, ")");
      if !close {
        return None;
      }
      var _, _, _ := GetTok();
      var rs := ParseRedirsAt([]);
      if rs.None? {
        return None;
      }
      return Some(Wrap(r.value, rs.value));
    }

    method ParseExecAt() returns (r: Option<Cmd>)
      requires pos <= |s|
      modifies this
      ensures pos <= |s| && Agrees(ParseExec(s, old(pos)), r, pos)
      decreases |s| - pos, 1
    {
      hide GetToken, Peek, SkipSpace, ParseRedirs, Wrap, ParseBlock;
      ghost var start := pos;
      var block := PeekTok("(");
      PeekThen(s, start, "(");
      if block {
        r := ParseBlockAt();
        return;
      }
      RedirsSkip(s, start, []);
      var rs := ParseRedirsAt([]);
      if rs.None? {
        return None;
      }
      var argv := [];
      ghost var spec := ParseExec(s, start);
      while true
        invariant pos <= |s| && rs.Some? && ParseArgs(s, pos, argv, rs.value) == spec
        decreases |s| - pos
      {
        ghost var at := pos;
        var stop := PeekTok("|)&;");
        PeekThen(s, at, "|)&;");
        if stop {
          break;
        }
        var kind, q, eq := GetTok();
        if kind == NUL {
          break;
        }
        if kind != 'a' {
          return None;
        }
        if |argv| + 1 >= MAXARGS {
          return None;
        }
        argv := argv + [Span(q, eq)];
        rs := ParseRedirsAt(rs.value);
        if rs.None? {
          return None;
        }
      }
      return Some(Wrap(Exec(argv), rs.value));
    }
  }

  /** peek leaves the cursor where the next token begins, so it changes no later answer. */
  lemma PeekThen(s: string, i: nat, toks: string)
    requires i <= |s|
    ensures var j := SkipSpace(s, i);
            && i <= j <= |s| && SkipSpace(s, j) == j && GetToken(s, j) == GetToken(s, i)
            && Peek(s, j, toks) == Peek(s, i, toks)
            && (Peek(s, i, toks) ==> j < GetToken(s, j).next)
            && (GetToken(s, i).kind != NUL ==> i < GetToken(s, i).next)
  {
  }

  lemma RedirsSkip(s: string, i: nat, rs: seq<Redirection>)
    requires i <= |s|
    ensures ParseRedirs(s, SkipSpace(s, i), rs) == ParseRedirs(s, i, rs)
  {
    PeekThen(s, i, "<>");
    hide GetToken, Peek, SkipSpace;
  }

  method NulTerminate(buf: array<char>, c: Cmd)
    requires forall e | e in Ends(c) :: e < buf.Length
    modifies buf
    ensures forall k | 0 <= k < buf.Length :: buf[k] == if k in Ends(c) then NUL else old(buf[k])
  {
    match c
    case Exec(argv) =>
      var i := 0;
      while i < |argv|
        invariant 0 <= i <= |argv|
        invariant forall k | 0 <= k < buf.Length ::
                    buf[k] == if exists m :: 0 <= m < i && argv[m].eq == k then NUL else old(buf[k])
      {
        assert argv[i].eq in Ends(c);
        buf[argv[i].eq] := NUL;
        i := i + 1;
      }
    case Redir(d, file, open) =>
      assert Ends(c) == Ends(d) + {file.eq};
      NulTerminate(buf, d);
      buf[file.eq] := NUL;
    case Pipe(l, r) =>
      assert Ends(c) == Ends(l) + Ends(r);
      NulTerminate(buf, l);
      NulTerminate(buf, r);
    case List(l, r) =>
      assert Ends(c) == Ends(l) + Ends(r);
      NulTerminate(buf, l);
      NulTerminate(buf, r);
    case Back(d) =>
      assert Ends(c) == Ends(d);
      NulTerminate(buf, d);
  }

  /**
   parsecmd on a NUL-terminated buffer: it panics or returns what the specification says, and then
   the words the shell will use are C strings in the buffer that spell the words of the line.
   */
  method ParseBuffer(buf: array<char>) returns (r: Option<Cmd>)
    requires buf.Length > 0 && buf[buf.Length - 1] == NUL && NUL !in buf[..buf.Length - 1]
    modifies buf
    ensures var s := old(buf[..buf.Length - 1]);
            && Agrees(ParseCmd(s), r, |s|)
            && (r.Some? ==> InLine(s, r.value) && CRead(buf[..], r.value) == Read(s, r.value))
            && (r.Some? ==> exists l: Line, gaps: seq<string> :: IsSpelling(s, l, gaps))
            && (forall l: Line, gaps: seq<string> | IsSpelling(s, l, gaps) ::
                  r.Some? && CRead(buf[..], r.value) == LineTree(l))
  {
    hide ParseLine, InLine, Ends, CRead, Read, SkipSpace, Cut, IsSpelling, LineTree;
    ghost var line := buf[..buf.Length - 1];
    forall l: Line, gaps: seq<string> | IsSpelling(line, l, gaps)
      ensures ParseCmd(line).Ok? && InLine(line, ParseCmd(line).value)
              && Read(line, ParseCmd(line).value) == LineTree(l)
    {
      var c := LineReads(line, l, gaps);
    }
    var s := buf[..buf.Length - 1];
    var parser := new Parser(s);
    r := parser.ParseLineAt();
    if r.None? {
      return;
    }
    var _ := parser.PeekTok("");
    if parser.pos != |s| {
      return None;
    }
    ghost var l, gaps := AcceptedIsLine(s);
    EndsInBuffer(s, r.value);
    NulTerminate(buf, r.value);
    IsCut(s, buf[..], Ends(r.value));
    CutReads(s, buf[..], r.value, r.value);
  }

  lemma IsCut(s: string, b: seq<char>, ends: set<nat>)
    requires |b| == |s| + 1
    requires forall k | 0 <= k < |b| :: b[k] == if k in ends then NUL else At(s, k)
    ensures Cut(s, b, ends)
  {
  }

  lemma {:induction false} EndsInBuffer(s: string, c: Cmd)
    requires InLine(s, c)
    ensures forall e | e in Ends(c) :: e <= |s|
  {
    match c
    case Exec(argv) =>
      forall e | e in Ends(c)
        ensures e <= |s|
      {
        var k :| 0 <= k < |argv| && argv[k].eq == e;
        assert IsWordSpan(s, argv[k]);
      }
    case Redir(d, file, open) => EndsInBuffer(s, d);
    case Pipe(l, r) => EndsInBuffer(s, l); EndsInBuffer(s, r);
    case List(l, r) => EndsInBuffer(s, l); EndsInBuffer(s, r);
    case Back(d) => EndsInBuffer(s, d);
  }
}
