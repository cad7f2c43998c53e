/** A fully parenthesising printer, and that parsing what it prints gives the same tree. */
module ShellRoundTrip {
  import opened ShellSyntax

  /** A command with its words as strings. */
  datatype Tree =
    | TExec(words: seq<string>)
    | TRedir(sub: Tree, file: string, mode: Mode)
    | TPipe(l: Tree, r: Tree)
    | TList(l: Tree, r: Tree)
    | TBack(sub: Tree)

  predicate IsWord(w: string) {
    |w| > 0 && forall k :: 0 <= k < |w| ==> IsWordChar(w[k])
  }

  /** Non-empty words without whitespace and symbols, at most nine a command. */
  predicate Printable(c: Tree) {
    match c
    case TExec(ws) => |ws| < MAXARGS && forall k :: 0 <= k < |ws| ==> IsWord(ws[k])
    case TRedir(d, f, _) => Printable(d) && IsWord(f)
    case TPipe(l, r) => Printable(l) && Printable(r)
    case TList(l, r) => Printable(l) && Printable(r)
    case TBack(d) => Printable(d)
  }

  function Operator(m: Mode): string {
    if m == In then "<" else if m == Out then ">" else ">>"
  }

  function PrintWords(ws: seq<string>): string {
    if ws == [] then "" else " " + ws[0] + PrintWords(ws[1..])
  }

  function Print(c: Tree): string {
    match c
    case TExec(ws) => PrintWords(ws)
    case TRedir(d, f, m) => "(" + Print(d) + ")" + (Operator(m) + f)
    case TPipe(l, r) => "(" + Print(l) + [')', '|', '('] + Print(r) + ")"
    case TList(l, r) => "(" + Print(l) + [')', ';', '('] + Print(r) + ")"
    case TBack(d) => "(" + Print(d) + ")" + "&"
  }

  function Word(b: string, w: Span): string {
    if w.q <= w.eq <= |b| then b[w.q..w.eq] else ""
  }

  function Words(b: string, ws: seq<Span>): (r: seq<string>)
    ensures |r| == |ws| && forall k :: 0 <= k < |ws| ==> r[k] == Word(b, ws[k])
  {
    seq(|ws|, k requires 0 <= k < |ws| => Word(b, ws[k]))
  }

  /** The tree that a parsed command denotes. */
  function TreeOf(b: string, c: Cmd): Tree {
    match c
    case Exec(ws) => TExec(Words(b, ws))
    case Redir(d, f, m) => TRedir(TreeOf(b, d), Word(b, f), m)
    case Pipe(l, r) => TPipe(TreeOf(b, l), TreeOf(b, r))
    case List(l, r) => TList(TreeOf(b, l), TreeOf(b, r))
    case Back(d) => TBack(TreeOf(b, d))
  }

  /** The text `t` stands in `b` at position `p`. */
  predicate Sits(b: string, p: nat, t: string) {
    p + |t| <= |b| && b[p..p + |t|] == t
  }

  lemma SitsSplit(b: string, p: nat, t: string, u: string)
    ensures Sits(b, p, t + u) <==> Sits(b, p, t) && Sits(b, p + |t|, u)
  {
    if p + |t| + |u| <= |b| {
      assert b[p..p + |t + u|] == b[p..p + |t|] + b[p + |t|..p + |t| + |u|];
      assert (t + u)[..|t|] == t && (t + u)[|t|..] == u;
    }
  }

  /** A printed command is followed by its closing parenthesis or nothing. */
  predicate Ends(b: string, p: nat) {
    p <= |b| && (p < |b| ==> b[p] == ')')
  }

  lemma NoSpaceHere(b: string, p: nat)
    requires p <= |b| && (p < |b| ==> !IsSpace(b[p]))
    ensures SkipSpace(b, p) == p
  {
  }

  lemma {:induction false} WordEndIs(b: string, p: nat, w: string)
    requires Sits(b, p, w) && (forall k :: 0 <= k < |w| ==> IsWordChar(w[k])) && (p + |w| < |b| ==> IsSpace(b[p + |w|]) || IsSymbol(b[p + |w|]))
    ensures WordEnd(b, p) == p + |w|
    decreases |w|
  {
    if w != "" {
      assert b[p] == b[p..p + |w|][0] == w[0];
      assert b[p + 1..p + 1 + |w[1..]|] == b[p..p + |w|][1..];
      WordEndIs(b, p + 1, w[1..]);
    }
  }

  /** A word is one token. */
  lemma WordToken(b: string, p: nat, w: string)
    requires NoNul(b) && Sits(b, p, w) && IsWord(w) && (p + |w| < |b| ==> IsSpace(b[p + |w|]) || IsSymbol(b[p + |w|]))
    ensures SkipSpace(b, p) == p && GetToken(b, p) == Token('a', p, p + |w|, SkipSpace(b, p + |w|)) && b[p..p + |w|] == w
    ensures IsWordChar(At(b, p))
  {
    WordEndIs(b, p, w);
    assert b[p] == b[p..p + |w|][0] == w[0];
  }

  /** A symbol is one token; whatever follows it is skipped to. */
  lemma SymbolToken(b: string, p: nat)
    requires NoNul(b) && p < |b| && IsSymbol(b[p]) && b[p] != '>'
    ensures SkipSpace(b, p) == p && GetToken(b, p) == Token(b[p], p, p + 1, SkipSpace(b, p + 1))
  {
  }

  // ---- simple commands

  lemma {:induction false} ArgsParse(b: string, p: nat, ws: seq<string>, argc: nat)
    requires NoNul(b) && Sits(b, p, PrintWords(ws)) && Ends(b, p + |PrintWords(ws)|) && argc + |ws| < MAXARGS
    requires forall k :: 0 <= k < |ws| ==> IsWord(ws[k])
    ensures var r := ParseArgs(b, p, argc);
            r.Ok? && r.p == p + |PrintWords(ws)| && r.v.redirs == [] && Words(b, r.v.argv) == ws
    ensures p + |PrintWords(ws)| <= |b|
    decreases |ws|
  {
    hide GetToken, WordEnd, ParseRedirs, Ends, IsWord, ParseArgs, SkipSpace, Sits, PrintWords;
    if ws == [] {
      NoWords(b, p);
      ArgsEnd(b, p, argc);
    } else {
      var q := p + 1 + |ws[0]|;
      FirstWord(b, p, ws);
      ArgsSkip(b, q, ws[1..], argc + 1);
      ArgsParse(b, q, ws[1..], argc + 1);
      var rest := ParseArgs(b, q, argc + 1);
      ArgsOne(b, p, q, argc);
      WordsCons(b, Span(p + 1, q), rest.v.argv, ws);
    }
  }

  lemma NoWords(b: string, p: nat)
    ensures PrintWords([]) == "" && Words(b, []) == []
  {
  }

  lemma WordsCons(b: string, w: Span, argv: seq<Span>, ws: seq<string>)
    requires ws != [] && Word(b, w) == ws[0] && Words(b, argv) == ws[1..]
    ensures Words(b, [w] + argv) == ws
  {
    hide Word;
    assert Words(b, [w] + argv) == [ws[0]] + ws[1..];
  }

  lemma FirstWord(b: string, p: nat, ws: seq<string>)
    requires NoNul(b) && ws != [] && Sits(b, p, PrintWords(ws)) && Ends(b, p + |PrintWords(ws)|) && forall k :: 0 <= k < |ws| ==> IsWord(ws[k])
    ensures var q := p + 1 + |ws[0]|;
            && p + 1 < q <= |b| && b[p] == ' ' && Word(b, Span(p + 1, q)) == ws[0]
            && |PrintWords(ws)| == 1 + |ws[0]| + |PrintWords(ws[1..])|
            && Sits(b, q, PrintWords(ws[1..])) && Ends(b, q + |PrintWords(ws[1..])|)
            && SkipSpace(b, p + 1) == p + 1 && GetToken(b, p + 1) == Token('a', p + 1, q, SkipSpace(b, q)) && IsWordChar(At(b, p + 1))
  {
    hide GetToken, WordEnd, SkipSpace;
    SitsSplit(b, p, " " + ws[0], PrintWords(ws[1..]));
    SitsSplit(b, p, " ", ws[0]);
    assert b[p] == b[p..p + 1][0] == ' ';
    NextIsDelim(b, p + 1 + |ws[0]|, ws[1..]);
    WordToken(b, p + 1, ws[0]);
  }

  lemma ArgsEnd(b: string, p: nat, argc: nat)
    requires NoNul(b) && Ends(b, p) && argc < MAXARGS
    ensures ParseArgs(b, p, argc) == Ok(Args([], []), p)
  {
  }

  lemma ArgsOne(b: string, p: nat, q: nat, argc: nat)
    requires NoNul(b) && p + 1 < q <= |b| && argc + 1 < MAXARGS && b[p] == ' '
    requires SkipSpace(b, p + 1) == p + 1 && GetToken(b, p + 1) == Token('a', p + 1, q, SkipSpace(b, q)) && IsWordChar(At(b, p + 1))
    requires ParseRedirs(b, SkipSpace(b, q)) == Ok([], SkipSpace(b, q))
    requires ParseArgs(b, SkipSpace(b, q), argc + 1) == ParseArgs(b, q, argc + 1)
    ensures var rest := ParseArgs(b, q, argc + 1);
            rest.Ok? ==> ParseArgs(b, p, argc) == Ok(Args([Span(p + 1, q)] + rest.v.argv, rest.v.redirs), rest.p)
  {
    hide GetToken, ParseRedirs, WordEnd;
    assert SkipSpace(b, p) == p + 1;
    var rest := ParseArgs(b, q, argc + 1);
    if rest.Ok? {
      assert [] + rest.v.redirs == rest.v.redirs;
    }
  }

  lemma NextIsDelim(b: string, q: nat, ws: seq<string>)
    requires Sits(b, q, PrintWords(ws)) && Ends(b, q + |PrintWords(ws)|)
    ensures q <= |b| && (q < |b| ==> IsSpace(b[q]) || b[q] == ')')
  {
    if ws != [] {
      assert PrintWords(ws)[0] == ' ';
      assert b[q] == b[q..q + |PrintWords(ws)|][0];
    }
  }

  /** Between words there are no redirections, and starting after the spaces is the same. */
  lemma ArgsSkip(b: string, q: nat, ws: seq<string>, argc: nat)
    requires NoNul(b) && Sits(b, q, PrintWords(ws)) && Ends(b, q + |PrintWords(ws)|) && argc < MAXARGS && (forall k :: 0 <= k < |ws| ==> IsWord(ws[k]))
    ensures q <= |b| && ParseRedirs(b, SkipSpace(b, q)) == Ok([], SkipSpace(b, q))
    ensures ParseArgs(b, SkipSpace(b, q), argc) == ParseArgs(b, q, argc)
  {
    FirstChar(b, q, ws);
    SkipTwice(b, q);
  }

  lemma SkipTwice(b: string, p: nat)
    requires p <= |b|
    ensures SkipSpace(b, SkipSpace(b, p)) == SkipSpace(b, p)
  {
  }

  lemma FirstChar(b: string, q: nat, ws: seq<string>)
    requires Sits(b, q, PrintWords(ws)) && Ends(b, q + |PrintWords(ws)|) && (forall k :: 0 <= k < |ws| ==> IsWord(ws[k]))
    ensures q <= |b|
    ensures var c := At(b, SkipSpace(b, q)); if ws == [] then (c == '\0' || c == ')') && SkipSpace(b, q) == q else IsWordChar(c)
  {
    if ws == [] {
      NoSpaceHere(b, q);
    } else {
      SitsSplit(b, q, " " + ws[0], PrintWords(ws[1..]));
      SitsSplit(b, q, " ", ws[0]);
      assert b[q] == b[q..q + 1][0] == ' ';
      assert b[q + 1] == b[q + 1..q + 1 + |ws[0]|][0] == ws[0][0];
      NoSpaceHere(b, q + 1);
    }
  }

  lemma EndChar(b: string, e: nat)
    requires NoNul(b) && Ends(b, e)
    ensures SkipSpace(b, e) == e && (At(b, e) == '\0' || At(b, e) == ')') && ParseRedirs(b, e) == Ok([], e)
  {
  }

  lemma LineEnds(b: string, p: nat, c: Cmd, e: nat)
    requires NoNul(b) && p <= |b| && ParsePipe(b, p) == Ok(c, e) && Ends(b, e)
    ensures ParseLine(b, p) == Ok(c, e)
  {
    hide ParsePipe, ParseRedirs, GetToken;
    EndChar(b, e);
  }

  lemma PipeEnds(b: string, p: nat, c: Cmd, e: nat)
    requires NoNul(b) && p <= |b| && ParseExec(b, p) == Ok(c, e) && Ends(b, e)
    ensures ParsePipe(b, p) == Ok(c, e)
  {
    hide ParseExec, ParseRedirs, GetToken;
    EndChar(b, e);
  }

  /** A command may be preceded by spaces. */
  lemma LineSkip(b: string, p: nat)
    requires NoNul(b) && p <= |b|
    ensures ParseLine(b, SkipSpace(b, p)) == ParseLine(b, p)
  {
    hide ParseRedirs, GetToken, ParseArgs, ParseBlock, ParseBacks;
    SkipTwice(b, p);
    assert ParseExec(b, SkipSpace(b, p)) == ParseExec(b, p);
    assert ParsePipe(b, SkipSpace(b, p)) == ParsePipe(b, p);
  }

  lemma RedirsSkip(b: string, p: nat)
    requires NoNul(b) && p <= |b|
    ensures ParseRedirs(b, SkipSpace(b, p)) == ParseRedirs(b, p)
  {
    SkipTwice(b, p);
  }

  /** A block whose inside parses up to its closing parenthesis. */
  lemma Block(b: string, p: nat, c: Cmd, e: nat)
    requires NoNul(b) && p < e < |b| && b[p] == '(' && ParseLine(b, p + 1) == Ok(c, e) && b[e] == ')'
    ensures ParseExec(b, p) ==
            var r := ParseRedirs(b, e + 1); if r.Panic? then Panic else Ok(Wrap(c, r.v), r.p)
  {
    hide ParseLine, ParseArgs, ParseRedirs, GetToken, Wrap;
    SymbolToken(b, p);
    LineSkip(b, p + 1);
    SymbolToken(b, e);
    RedirsSkip(b, e + 1);
  }

  /** A block without redirections. */
  lemma PlainBlock(b: string, p: nat, c: Cmd, e: nat)
    requires NoNul(b) && p < e < |b| && b[p] == '(' && ParseLine(b, p + 1) == Ok(c, e) && b[e] == ')'
    requires e + 1 < |b| ==> !IsSpace(b[e + 1]) && b[e + 1] != '<' && b[e + 1] != '>'
    ensures ParseExec(b, p) == Ok(c, e + 1)
  {
    Block(b, p, c, e);
    hide ParseExec, ParseLine, GetToken;
    assert ParseRedirs(b, e + 1) == Ok([], e + 1);
  }

  lemma PipeOf(b: string, p: nat, l: Cmd, e: nat, r: Cmd, f: nat)
    requires NoNul(b) && p <= |b| && ParseExec(b, p) == Ok(l, e) && e < |b| && b[e] == '|'
    requires e + 1 < |b| && b[e + 1] == '(' && ParsePipe(b, e + 1) == Ok(r, f)
    ensures ParsePipe(b, p) == Ok(Pipe(l, r), f)
  {
    hide ParseExec, GetToken;
    SymbolToken(b, e);
    NoSpaceHere(b, e + 1);
  }

  lemma ListOf(b: string, p: nat, l: Cmd, e: nat, r: Cmd, f: nat)
    requires NoNul(b) && p <= |b| && ParseExec(b, p) == Ok(l, e) && e < |b| && b[e] == ';'
    requires e + 1 < |b| && b[e + 1] == '(' && ParseLine(b, e + 1) == Ok(r, f)
    ensures ParseLine(b, p) == Ok(List(l, r), f)
  {
    hide ParseExec, GetToken;
    NoSpaceHere(b, e);
    SymbolToken(b, e);
    NoSpaceHere(b, e + 1);
    assert ParsePipe(b, p) == Ok(l, e);
    assert ParseBacks(b, e, l) == Ok(l, e);
  }

  lemma BackOf(b: string, p: nat, c: Cmd, e: nat)
    requires NoNul(b) && p <= |b| && ParseExec(b, p) == Ok(c, e) && e < |b| && b[e] == '&' && Ends(b, e + 1)
    ensures ParseLine(b, p) == Ok(Back(c), e + 1)
  {
    hide ParseExec, GetToken;
    NoSpaceHere(b, e);
    SymbolToken(b, e);
    EndChar(b, e + 1);
    assert ParsePipe(b, p) == Ok(c, e);
    assert ParseBacks(b, e + 1, Back(c)) == Ok(Back(c), e + 1);
    assert ParseBacks(b, e, c) == ParseBacks(b, e + 1, Back(c));
  }

  /** One redirection at the end. */
  lemma RedirOf(b: string, e: nat, m: Mode, f: string)
    requires NoNul(b) && IsWord(f) && Sits(b, e, Operator(m) + f) && Ends(b, e + |Operator(m)| + |f|)
    ensures var q := e + |Operator(m)|;
            ParseRedirs(b, e) == Ok([Redirection(Span(q, q + |f|), m)], q + |f|) && Word(b, Span(q, q + |f|)) == f
  {
    hide WordEnd, IsWord, GetToken, Sits;
    var q := e + |Operator(m)|;
    OperatorToken(b, e, m, f);
    EndChar(b, q + |f|);
    assert [Redirection(Span(q, q + |f|), m)] + [] == [Redirection(Span(q, q + |f|), m)];
  }

  lemma OperatorToken(b: string, e: nat, m: Mode, f: string)
    requires NoNul(b) && IsWord(f) && Sits(b, e, Operator(m) + f) && Ends(b, e + |Operator(m)| + |f|)
    ensures var q := e + |Operator(m)|;
            && q + |f| <= |b| && (At(b, e) == '<' || At(b, e) == '>') && SkipSpace(b, e) == e
            && GetToken(b, e).p == q && ModeOf(GetToken(b, e).ret) == m
            && GetToken(b, q) == Token('a', q, q + |f|, q + |f|) && Word(b, Span(q, q + |f|)) == f
  {
    hide WordEnd, IsWord, GetToken;
    var q := e + |Operator(m)|;
    SitsSplit(b, e, Operator(m), f);
    WordToken(b, q, f);
    EndChar(b, q + |f|);
    CharAt(b, e, Operator(m), 0);
    if m == Append {
      CharAt(b, e, Operator(m), 1);
    }
    AtOperator(b, e, m);
  }

  lemma AtOperator(b: string, e: nat, m: Mode)
    requires NoNul(b) && e + |Operator(m)| < |b| && b[e] == Operator(m)[0] && (m == Append ==> b[e + 1] == '>')
    requires IsWordChar(b[e + |Operator(m)|])
    ensures SkipSpace(b, e) == e && GetToken(b, e).p == e + |Operator(m)| && ModeOf(GetToken(b, e).ret) == m
  {
  }

  lemma ExecParses(b: string, p: nat, ws: seq<string>)
    requires NoNul(b) && Printable(TExec(ws)) && Sits(b, p, PrintWords(ws)) && Ends(b, p + |PrintWords(ws)|)
    ensures Parses(b, p, TExec(ws), p + |PrintWords(ws)|)
  {
    hide ParseArgs, GetToken, PrintWords, IsWord;
    ArgsParse(b, p, ws, 0);
    ArgsSkip(b, p, ws, 0);
    FirstChar(b, p, ws);
    SkipTwice(b, p);
    var a := ParseArgs(b, p, 0);
    assert [] + a.v.redirs == [];
    assert ParseExec(b, p) == Ok(Exec(a.v.argv), a.p);
    PipeEnds(b, p, Exec(a.v.argv), a.p);
    LineEnds(b, p, Exec(a.v.argv), a.p);
  }

  lemma CharAt(b: string, p: nat, t: string, k: nat)
    requires Sits(b, p, t) && k < |t|
    ensures p + k < |b| && b[p + k] == t[k]
  {
    assert b[p..p + |t|][k] == b[p + k];
  }

  /** The parse at `p` ends at `e` and denotes the tree. */
  predicate Parses(b: string, p: nat, c: Tree, e: nat)
    requires NoNul(b)
  {
    p <= |b| && var r := ParseLine(b, p); r.Ok? && r.p == e && TreeOf(b, r.v) == c
  }

  /** The printed text of a tree parses to that tree, up to where the text ends. */
  lemma {:induction false} LineParses(b: string, p: nat, c: Tree)
    requires NoNul(b) && Printable(c) && Sits(b, p, Print(c)) && Ends(b, p + |Print(c)|)
    ensures Parses(b, p, c, p + |Print(c)|)
    decreases c
  {
    hide Parses, Sits, ParseLine, NoNul, IsWord, Operator, PrintWords, Ends;
    match c
    case TExec(ws) => ExecParses(b, p, ws);
    case TRedir(d, f, m) =>
      OneSits(b, p, Print(d), Operator(m) + f);
      LineParses(b, p + 1, d);
      RedirParses(b, p, p + 1 + |Print(d)|, d, f, m);
    case TPipe(l, r) =>
      TwoSit(b, p, Print(l), '|', Print(r));
      LineParses(b, p + 1, l);
      LineParses(b, p + 1 + |Print(l)| + 3, r);
      PipeParses(b, p, p + 1 + |Print(l)|, p + 1 + |Print(l)| + 3 + |Print(r)|, l, r);
    case TList(l, r) =>
      TwoSit(b, p, Print(l), ';', Print(r));
      LineParses(b, p + 1, l);
      LineParses(b, p + 1 + |Print(l)| + 3, r);
      ListParses(b, p, p + 1 + |Print(l)|, p + 1 + |Print(l)| + 3 + |Print(r)|, l, r);
    case TBack(d) =>
      OneSits(b, p, Print(d), "&");
      LineParses(b, p + 1, d);
      BackParses(b, p, d);
  }

  /** Two blocks with the operator `o` in between: "(" up to `e`, "(" up to `f`. */
  predicate TwoBlocks(b: string, p: nat, e: nat, o: char, f: nat) {
    p < e && e + 2 < f < |b| && b[p] == '(' && b[e] == ')' && b[e + 1] == o && b[e + 2] == '(' && b[f] == ')' && Ends(b, f + 1)
  }

  lemma SecondBlock(b: string, p: nat, e: nat, o: char, f: nat, rc: Cmd)
    requires NoNul(b) && TwoBlocks(b, p, e, o, f) && ParseLine(b, e + 3) == Ok(rc, f)
    ensures ParsePipe(b, e + 2) == Ok(rc, f + 1) && ParseLine(b, e + 2) == Ok(rc, f + 1)
  {
    hide ParseLine, ParsePipe, ParseExec, NoNul;
    PlainBlock(b, e + 2, rc, f);
    PipeEnds(b, e + 2, rc, f + 1);
    LineEnds(b, e + 2, rc, f + 1);
  }

  lemma PipeParses(b: string, p: nat, e: nat, f: nat, l: Tree, r: Tree)
    requires NoNul(b) && TwoBlocks(b, p, e, '|', f) && Parses(b, p + 1, l, e) && Parses(b, e + 3, r, f)
    ensures Parses(b, p, TPipe(l, r), f + 1)
  {
    hide ParseLine, ParsePipe, ParseExec, NoNul, Words;
    var lc, rc := ParseLine(b, p + 1).v, ParseLine(b, e + 3).v;
    SecondBlock(b, p, e, '|', f, rc);
    PlainBlock(b, p, lc, e);
    PipeOf(b, p, lc, e + 1, rc, f + 1);
    LineEnds(b, p, Pipe(lc, rc), f + 1);
  }

  lemma ListParses(b: string, p: nat, e: nat, f: nat, l: Tree, r: Tree)
    requires NoNul(b) && TwoBlocks(b, p, e, ';', f) && Parses(b, p + 1, l, e) && Parses(b, e + 3, r, f)
    ensures Parses(b, p, TList(l, r), f + 1)
  {
    hide ParseLine, ParsePipe, ParseExec, NoNul, Words;
    var lc, rc := ParseLine(b, p + 1).v, ParseLine(b, e + 3).v;
    SecondBlock(b, p, e, ';', f, rc);
    PlainBlock(b, p, lc, e);
    ListOf(b, p, lc, e + 1, rc, f + 1);
  }

  lemma BackParses(b: string, p: nat, d: Tree)
    requires NoNul(b) && Sits(b, p, Print(TBack(d))) && Ends(b, p + |Print(TBack(d))|)
    requires Parses(b, p + 1, d, p + 1 + |Print(d)|)
    ensures Parses(b, p, TBack(d), p + |Print(TBack(d))|)
  {
    hide ParseLine, ParsePipe, ParseExec, Sits;
    OneSits(b, p, Print(d), "&");
    var e := p + 1 + |Print(d)|;
    CharAt(b, e + 1, "&", 0);
    var dc := ParseLine(b, p + 1).v;
    PlainBlock(b, p, dc, e);
    BackOf(b, p, dc, e + 1);
  }

  lemma RedirParses(b: string, p: nat, e: nat, d: Tree, f: string, m: Mode)
    requires NoNul(b) && IsWord(f) && p < e < |b| && b[p] == '(' && b[e] == ')' && Sits(b, e + 1, Operator(m) + f) && Ends(b, e + 1 + |Operator(m)| + |f|)
    requires Parses(b, p + 1, d, e)
    ensures Parses(b, p, TRedir(d, f, m), e + 1 + |Operator(m)| + |f|)
  {
    hide ParseLine, ParsePipe, ParseExec, ParseRedirs, Sits, NoNul, IsWord, Operator;
    var dc := ParseLine(b, p + 1).v;
    Block(b, p, dc, e);
    RedirOf(b, e + 1, m, f);
    var q := e + 1 + |Operator(m)|;
    assert [Redirection(Span(q, q + |f|), m)][1..] == [];
    PipeEnds(b, p, Redir(dc, Span(q, q + |f|), m), q + |f|);
    LineEnds(b, p, Redir(dc, Span(q, q + |f|), m), q + |f|);
  }

  /** Where the pieces of "(x)t" stand. */
  lemma OneSits(b: string, p: nat, x: string, t: string)
    requires Sits(b, p, "(" + x + ")" + t)
    ensures var e := p + 1 + |x|;
            && e < |b| && b[p] == '(' && Sits(b, p + 1, x) && b[e] == ')' && Ends(b, e) && Sits(b, e + 1, t)
  {
    SitsSplit(b, p, "(" + x + ")", t);
    SitsSplit(b, p, "(" + x, ")");
    SitsSplit(b, p, "(", x);
    CharAt(b, p, "(", 0);
    CharAt(b, p + 1 + |x|, ")", 0);
  }

  lemma TwoSit(b: string, p: nat, x: string, o: char, y: string)
    requires Sits(b, p, "(" + x + [')', o, '('] + y + ")")
    ensures var e := p + 1 + |x|;
            var f := e + 3 + |y|;
            && f < |b| && b[p] == '(' && Sits(b, p + 1, x) && b[e] == ')' && Ends(b, e) && b[e + 1] == o && b[e + 2] == '('
            && Sits(b, e + 3, y) && b[f] == ')' && Ends(b, f)
  {
    SitsSplit(b, p, "(" + x + [')', o, '('] + y, ")");
    SitsSplit(b, p, "(" + x + [')', o, '('], y);
    SitsSplit(b, p, "(" + x, [')', o, '(']);
    SitsSplit(b, p, "(", x);
    CharAt(b, p, "(", 0);
    var e := p + 1 + |x|;
    CharAt(b, e, [')', o, '('], 0);
    CharAt(b, e, [')', o, '('], 1);
    CharAt(b, e, [')', o, '('], 2);
    CharAt(b, e + 3 + |y|, ")", 0);
  }

  lemma {:induction false} PrintNoNul(c: Tree)
    requires Printable(c)
    ensures NoNul(Print(c))
    decreases c
  {
    match c
    case TExec(ws) => WordsNoNul(ws);
    case TRedir(d, f, m) => PrintNoNul(d);
    case TPipe(l, r) =>
      PrintNoNul(l);
      PrintNoNul(r);
    case TList(l, r) =>
      PrintNoNul(l);
      PrintNoNul(r);
    case TBack(d) => PrintNoNul(d);
  }

  lemma {:induction false} WordsNoNul(ws: seq<string>)
    requires forall k :: 0 <= k < |ws| ==> IsWord(ws[k])
    ensures NoNul(PrintWords(ws))
    decreases |ws|
  {
    if ws != [] {
      WordsNoNul(ws[1..]);
    }
  }

  /** parsecmd(print(c)) == c, for every printable command tree. */
  lemma RoundTrip(c: Tree)
    requires Printable(c)
    ensures NoNul(Print(c)) && ParseCmd(Print(c)).Ok? && TreeOf(Print(c), ParseCmd(Print(c)).v) == c
  {
    hide Print, NoNul, TreeOf, ParseLine, Printable, Sits;
    PrintNoNul(c);
    SitsAll(Print(c));
    LineParses(Print(c), 0, c);
  }

  lemma SitsAll(t: string)
    ensures Sits(t, 0, t) && Ends(t, |t|) && SkipSpace(t, |t|) == |t|
  {
    assert t[0..|t|] == t;
  }

  /** So different trees print differently. */
  lemma PrintInjective(c: Tree, d: Tree)
    requires Printable(c) && Printable(d) && Print(c) == Print(d)
    ensures c == d
  {
    RoundTrip(c);
    RoundTrip(d);
  }
}
