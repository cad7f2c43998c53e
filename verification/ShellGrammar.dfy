/** The command language of user/sh.c as a grammar over tokens: the parser accepts
    exactly the texts whose tokens a line of the grammar has, and builds the tree
    of that line. */
module ShellGrammar {
  import opened ShellSyntax
  import opened ShellRoundTrip

  // ---- tokens

  /** A word, or an operator; '+' stands for ">>". */
  datatype Tok = W(w: string) | Op(c: char)

  function TokOf(b: string, t: Token): Tok {
    if t.ret == 'a' then W(ShellRoundTrip.Word(b, Span(t.q, t.eq))) else Op(t.ret)
  }

  /** The tokens from position `p` on. */
  function Tokens(b: string, p: nat): seq<Tok>
    requires p <= |b| && NoNul(b)
    decreases |b| - p
  {
    var t := GetToken(b, p);
    if t.ret == '\0' then [] else [TokOf(b, t)] + Tokens(b, t.p)
  }

  predicate StartsWith(ts: seq<Tok>, c: char) {
    ts != [] && ts[0] == Op(c)
  }

  /** The next character that is no space tells the next token. */
  lemma Look(b: string, p: nat)
    requires p <= |b| && NoNul(b)
    ensures var s := SkipSpace(b, p);
            && SkipSpace(b, s) == s && GetToken(b, s) == GetToken(b, p) && Tokens(b, s) == Tokens(b, p)
            && (At(b, s) == '\0' <==> Tokens(b, p) == []) && (At(b, s) == '\0' <==> s == |b|)
            && (forall c :: c == '<' || c == '|' || c == '&' || c == ';' || c == '(' || c == ')' ==> (At(b, s) == c <==> StartsWith(Tokens(b, p), c)))
            && (At(b, s) == '>' <==> StartsWith(Tokens(b, p), '>') || StartsWith(Tokens(b, p), '+'))
  {
    SkipTwice(b, p);
  }

  lemma Take(b: string, p: nat)
    requires p <= |b| && NoNul(b)
    ensures var t := GetToken(b, p);
            && (t.ret == '\0' <==> Tokens(b, p) == [])
            && (t.ret != '\0' ==> Tokens(b, p) == [TokOf(b, t)] + Tokens(b, t.p))
            && (t.ret == 'a' <==> Tokens(b, p) != [] && Tokens(b, p)[0].W?)
  {
  }

  lemma Assoc(x: seq<Tok>, y: seq<Tok>, z: seq<Tok>)
    ensures x + y + z == x + (y + z)
  {
  }

  lemma Head(t: Tok, ts: seq<Tok>)
    ensures ([t] + ts)[0] == t && ([t] + ts)[1..] == ts && [t] + ts != []
  {
  }

  // ---- the grammar

  datatype R = R(mode: Mode, file: string)

  datatype Arg = Arg(w: string, rs: seq<R>)

  /** line ::= pipe '&'* [';' line] */
  datatype Line = Line(first: PipeS, backs: nat, next: More)
  datatype More = NoMore | Then(line: Line)

  /** pipe ::= exec ['|' pipe] */
  datatype PipeS = PipeS(first: ExecS, next: Rest)
  datatype Rest = NoRest | Into(pipe: PipeS)

  /** exec ::= redir* (word redir*)* | '(' line ')' redir* */
  datatype ExecS = Simple(rs: seq<R>, args: seq<Arg>) | Block(line: Line, rs: seq<R>)

  function ModeChar(m: Mode): char {
    if m == In then '<' else if m == Out then '>' else '+'
  }

  function RToks(rs: seq<R>): seq<Tok> {
    if rs == [] then [] else [Op(ModeChar(rs[0].mode)), W(rs[0].file)] + RToks(rs[1..])
  }

  function ArgToks(args: seq<Arg>): seq<Tok> {
    if args == [] then [] else [W(args[0].w)] + RToks(args[0].rs) + ArgToks(args[1..])
  }

  function Amps(n: nat): seq<Tok> {
    if n == 0 then [] else [Op('&')] + Amps(n - 1)
  }

  function LineToks(l: Line): seq<Tok> {
    PipeToks(l.first) + Amps(l.backs) + match l.next case NoMore => [] case Then(m) => [Op(';')] + LineToks(m)
  }

  function PipeToks(p: PipeS): seq<Tok> {
    ExecToks(p.first) + match p.next case NoRest => [] case Into(q) => [Op('|')] + PipeToks(q)
  }

  function ExecToks(e: ExecS): seq<Tok> {
    match e
    case Simple(rs, args) => RToks(rs) + ArgToks(args)
    case Block(l, rs) => [Op('(')] + LineToks(l) + [Op(')')] + RToks(rs)
  }

  /** No simple command has more words than `argv` holds. */
  predicate LineFits(l: Line) {
    PipeFits(l.first) && match l.next case NoMore => true case Then(m) => LineFits(m)
  }

  predicate PipeFits(p: PipeS) {
    ExecFits(p.first) && match p.next case NoRest => true case Into(q) => PipeFits(q)
  }

  predicate ExecFits(e: ExecS) {
    match e case Simple(_, args) => |args| < MAXARGS case Block(l, _) => LineFits(l)
  }

  // ---- the tree of a line

  /** Redirections take effect around the command in the order written, the last one outermost. */
  function Redirected(c: Tree, rs: seq<R>): Tree
    decreases |rs|
  {
    if rs == [] then c else TRedir(Redirected(c, rs[..|rs| - 1]), rs[|rs| - 1].file, rs[|rs| - 1].mode)
  }

  function ArgWords(args: seq<Arg>): (ws: seq<string>)
    ensures |ws| == |args| && forall k :: 0 <= k < |ws| ==> ws[k] == args[k].w
  {
    seq(|args|, k requires 0 <= k < |args| => args[k].w)
  }

  function ArgRs(args: seq<Arg>): seq<R> {
    if args == [] then [] else args[0].rs + ArgRs(args[1..])
  }

  function Backed(c: Tree, n: nat): Tree {
    if n == 0 then c else TBack(Backed(c, n - 1))
  }

  function LineTree(l: Line): Tree {
    var c := Backed(PipeTree(l.first), l.backs);
    match l.next case NoMore => c case Then(m) => TList(c, LineTree(m))
  }

  function PipeTree(p: PipeS): Tree {
    match p.next case NoRest => ExecTree(p.first) case Into(q) => TPipe(ExecTree(p.first), PipeTree(q))
  }

  function ExecTree(e: ExecS): Tree {
    match e
    case Simple(rs, args) => Redirected(TExec(ArgWords(args)), rs + ArgRs(args))
    case Block(l, rs) => Redirected(LineTree(l), rs)
  }

  // ---- redirections

  function RsOf(b: string, rs: seq<Redirection>): (r: seq<R>)
    ensures |r| == |rs| && forall k :: 0 <= k < |r| ==> r[k] == R(rs[k].mode, ShellRoundTrip.Word(b, rs[k].file))
  {
    seq(|rs|, k requires 0 <= k < |rs| => R(rs[k].mode, ShellRoundTrip.Word(b, rs[k].file)))
  }

  lemma {:induction false} RedirectedMore(c: Tree, r: R, rs: seq<R>)
    ensures Redirected(TRedir(c, r.file, r.mode), rs) == Redirected(c, [r] + rs)
    decreases |rs|
  {
    if rs == [] {
      assert [r] + rs == [r] && [r][..0] == [];
    } else {
      RedirectedMore(c, r, rs[..|rs| - 1]);
      assert ([r] + rs)[..|rs|] == [r] + rs[..|rs| - 1];
    }
  }

  /** The nodes that the parser builds are those of the redirections in their order. */
  lemma {:induction false} WrapTree(b: string, c: Cmd, rs: seq<Redirection>)
    ensures TreeOf(b, Wrap(c, rs)) == Redirected(TreeOf(b, c), RsOf(b, rs))
    decreases |rs|
  {
    if rs != [] {
      WrapTree(b, Redir(c, rs[0].file, rs[0].mode), rs[1..]);
      RedirectedMore(TreeOf(b, c), RsOf(b, rs)[0], RsOf(b, rs[1..]));
      assert RsOf(b, rs) == [RsOf(b, rs)[0]] + RsOf(b, rs[1..]);
    }
  }

  predicate StartsRedir(ts: seq<Tok>) {
    StartsWith(ts, '<') || StartsWith(ts, '>') || StartsWith(ts, '+')
  }

  /** One redirection in front. */
  lemma RedirStep(b: string, p: nat)
    requires p <= |b| && NoNul(b)
    ensures var t := GetToken(b, p); var ts := Tokens(b, p);
            if !StartsRedir(ts) then ParseRedirs(b, p) == Ok([], SkipSpace(b, p)) && Tokens(b, SkipSpace(b, p)) == ts
            else
              && t.p <= |b| && p < t.p && ts[0] == Op(ModeChar(ModeOf(t.ret))) && Tokens(b, t.p) == ts[1..]
              && var f := GetToken(b, t.p);
                 if f.ret != 'a' then ParseRedirs(b, p) == Panic && (|ts| < 2 || !ts[1].W?)
                 else
                   && |ts| >= 2 && ts[1] == W(ShellRoundTrip.Word(b, Span(f.q, f.eq))) && f.p <= |b| && p < f.p && Tokens(b, f.p) == ts[2..]
                   && var rest := ParseRedirs(b, f.p);
                      ParseRedirs(b, p) == if rest.Panic? then Panic else Ok([Redirection(Span(f.q, f.eq), ModeOf(t.ret))] + rest.v, rest.p)
  {
    RedirUnfold(b, p);
    Take(b, p);
    hide Tokens, GetToken, SkipSpace, ParseRedirs;
    if StartsRedir(Tokens(b, p)) {
      var t := GetToken(b, p);
      RedirKind(b, p);
      Head(TokOf(b, t), Tokens(b, t.p));
      Take(b, t.p);
      var f := GetToken(b, t.p);
      if f.ret == 'a' {
        Head(TokOf(b, f), Tokens(b, f.p));
      }
    }
  }

  lemma RedirUnfold(b: string, p: nat)
    requires p <= |b| && NoNul(b)
    ensures var t := GetToken(b, p);
            if !StartsRedir(Tokens(b, p)) then ParseRedirs(b, p) == Ok([], SkipSpace(b, p)) && Tokens(b, SkipSpace(b, p)) == Tokens(b, p)
            else
              && p < t.p <= |b|
              && var f := GetToken(b, t.p);
                 if f.ret != 'a' then ParseRedirs(b, p) == Panic
                 else
                   && p < f.p <= |b|
                   && var rest := ParseRedirs(b, f.p);
                      ParseRedirs(b, p) == if rest.Panic? then Panic else Ok([Redirection(Span(f.q, f.eq), ModeOf(t.ret))] + rest.v, rest.p)
  {
    Look(b, p);
    hide Tokens, GetToken, SkipSpace;
  }

  lemma RedirKind(b: string, p: nat)
    requires p <= |b| && NoNul(b) && StartsRedir(Tokens(b, p))
    ensures var t := GetToken(b, p); t.ret != '\0' && t.ret != 'a' && t.ret == ModeChar(ModeOf(t.ret)) && TokOf(b, t) == Op(t.ret)
  {
  }

  lemma RsCons(b: string, x: Redirection, rs: seq<Redirection>)
    ensures RsOf(b, [x] + rs) == [R(x.mode, ShellRoundTrip.Word(b, x.file))] + RsOf(b, rs)
  {
  }

  lemma RToksCons(r: R, rs: seq<R>)
    ensures RToks([r] + rs) == [Op(ModeChar(r.mode)), W(r.file)] + RToks(rs)
  {
    assert ([r] + rs)[1..] == rs;
  }

  lemma {:induction false} RedirsSound(b: string, p: nat)
    requires p <= |b| && NoNul(b) && ParseRedirs(b, p).Ok?
    ensures var r := ParseRedirs(b, p); Tokens(b, p) == RToks(RsOf(b, r.v)) + Tokens(b, r.p)
    decreases |b| - p
  {
    RedirStep(b, p);
    NoArgs(b);
    hide Tokens, GetToken, ParseRedirs, SkipSpace, ModeChar, ModeOf, RToks, RsOf, StartsRedir, ShellRoundTrip.Word;
    var ts := Tokens(b, p);
    if StartsRedir(ts) {
      var t := GetToken(b, p);
      var f := GetToken(b, t.p);
      RedirsSound(b, f.p);
      var x, rest := Redirection(Span(f.q, f.eq), ModeOf(t.ret)), ParseRedirs(b, f.p);
      RsCons(b, x, rest.v);
      RToksCons(R(x.mode, ShellRoundTrip.Word(b, x.file)), RsOf(b, rest.v));
      TwoChain(ts, RToks(RsOf(b, rest.v)), Tokens(b, rest.p));
    }
  }

  lemma TwoChain(ts: seq<Tok>, x: seq<Tok>, us: seq<Tok>)
    requires |ts| >= 2 && ts[2..] == x + us
    ensures ts == [ts[0], ts[1]] + x + us
  {
  }

  lemma ModeChars(m: Mode, n: Mode)
    ensures ModeChar(m) == ModeChar(n) ==> m == n
    ensures ModeChar(m) == '<' || ModeChar(m) == '>' || ModeChar(m) == '+'
  {
  }

  lemma RedirFirst(b: string, p: nat)
    requires p <= |b| && NoNul(b) && StartsRedir(Tokens(b, p)) && |Tokens(b, p)| >= 2 && Tokens(b, p)[1].W?
    ensures var t, ts := GetToken(b, p), Tokens(b, p);
            && t.p <= |b| && ts[0] == Op(ModeChar(ModeOf(t.ret)))
            && var f := GetToken(b, t.p);
               && f.p <= |b| && p < f.p && ts[1] == W(ShellRoundTrip.Word(b, Span(f.q, f.eq))) && Tokens(b, f.p) == ts[2..]
               && var rest := ParseRedirs(b, f.p);
                  ParseRedirs(b, p) == if rest.Panic? then Panic else Ok([Redirection(Span(f.q, f.eq), ModeOf(t.ret))] + rest.v, rest.p)
  {
    RedirStep(b, p);
  }

  lemma RedirNone(b: string, p: nat)
    requires p <= |b| && NoNul(b) && !StartsRedir(Tokens(b, p))
    ensures ParseRedirs(b, p) == Ok([], SkipSpace(b, p)) && Tokens(b, SkipSpace(b, p)) == Tokens(b, p)
  {
    RedirStep(b, p);
  }

  lemma {:induction false} RedirsComplete(b: string, p: nat, rs: seq<R>, us: seq<Tok>)
    requires p <= |b| && NoNul(b) && Tokens(b, p) == RToks(rs) + us && !StartsRedir(us)
    ensures var r := ParseRedirs(b, p); r.Ok? && RsOf(b, r.v) == rs && Tokens(b, r.p) == us
    decreases |rs|
  {
    NoArgs(b);
    FirstRedir(rs, us);
    hide Tokens, GetToken, ParseRedirs, SkipSpace, ModeChar, ModeOf, StartsRedir, RToks, RsOf, NoNul, ShellRoundTrip.Word;
    if rs == [] {
      RedirNone(b, p);
    } else {
      RedirFirst(b, p);
      var t := GetToken(b, p);
      var f := GetToken(b, t.p);
      ModeChars(rs[0].mode, ModeOf(t.ret));
      RedirsComplete(b, f.p, rs[1..], us);
      RsCons(b, Redirection(Span(f.q, f.eq), ModeOf(t.ret)), ParseRedirs(b, f.p).v);
      assert rs == [R(rs[0].mode, rs[0].file)] + rs[1..];
    }
  }

  lemma FirstRedir(rs: seq<R>, us: seq<Tok>)
    ensures rs == [] ==> RToks(rs) + us == us
    ensures rs != [] ==>
              var ts := RToks(rs) + us;
              |ts| >= 2 && ts[0] == Op(ModeChar(rs[0].mode)) && ts[1] == W(rs[0].file) && ts[2..] == RToks(rs[1..]) + us && StartsRedir(ts)
  {
    if rs != [] {
      Assoc([Op(ModeChar(rs[0].mode)), W(rs[0].file)], RToks(rs[1..]), us);
    }
  }

  // ---- the words of a simple command

  /** What may follow a simple command. */
  predicate EndsExec(ts: seq<Tok>) {
    ts == [] || StartsWith(ts, '|') || StartsWith(ts, ')') || StartsWith(ts, '&') || StartsWith(ts, ';')
  }

  lemma ArgStep(b: string, p: nat, argc: nat)
    requires p <= |b| && NoNul(b) && argc < MAXARGS
    ensures var t, ts, a := GetToken(b, p), Tokens(b, p), ParseArgs(b, p, argc);
            if EndsExec(ts) then a.Ok? && a.v == Args([], []) && a.p <= |b| && Tokens(b, a.p) == ts
            else if t.ret != 'a' || argc + 1 >= MAXARGS then a == Panic && ts != [] && (!ts[0].W? || argc + 1 >= MAXARGS)
            else
              && ts != [] && ts[0] == W(ShellRoundTrip.Word(b, Span(t.q, t.eq))) && t.p <= |b| && p < t.p && Tokens(b, t.p) == ts[1..]
              && var r := ParseRedirs(b, t.p);
                 if r.Panic? then a == Panic
                 else
                   && r.p <= |b|
                   && var rest := ParseArgs(b, r.p, argc + 1);
                      a == if rest.Panic? then Panic else Ok(Args([Span(t.q, t.eq)] + rest.v.argv, r.v + rest.v.redirs), rest.p)
  {
    Look(b, p);
    Take(b, p);
    var t := GetToken(b, p);
    if t.ret == '\0' {
      AtTheEnd(b, p);
    }
    hide Tokens, GetToken, SkipSpace, ParseRedirs;
  }

  lemma AtTheEnd(b: string, p: nat)
    requires p <= |b| && NoNul(b) && GetToken(b, p).ret == '\0'
    ensures GetToken(b, p).p == |b| && Tokens(b, |b|) == []
  {
  }

  lemma {:induction false} ArgsSound(b: string, p: nat, argc: nat) returns (args: seq<Arg>)
    requires p <= |b| && NoNul(b) && argc < MAXARGS && ParseArgs(b, p, argc).Ok?
    ensures var a := ParseArgs(b, p, argc);
            && a.p <= |b| && Tokens(b, p) == ArgToks(args) + Tokens(b, a.p) && |args| == |a.v.argv|
            && ArgWords(args) == Words(b, a.v.argv) && ArgRs(args) == RsOf(b, a.v.redirs)
    decreases |b| - p
  {
    ArgStep(b, p, argc);
    hide Tokens, GetToken, ParseRedirs, ParseArgs, SkipSpace, EndsExec;
    var ts := Tokens(b, p);
    if EndsExec(ts) {
      args := [];
      assert RsOf(b, []) == [] && Words(b, []) == [];
    } else {
      var t := GetToken(b, p);
      var r := ParseRedirs(b, t.p);
      RedirsSound(b, t.p);
      var rest := ArgsSound(b, r.p, argc + 1);
      var w := ShellRoundTrip.Word(b, Span(t.q, t.eq));
      args := [Arg(w, RsOf(b, r.v))] + rest;
      ArgsCons(b, Span(t.q, t.eq), r.v, ParseArgs(b, r.p, argc + 1).v, rest);
      hide ArgToks, RToks, ArgWords, ArgRs;
      ArgChain(ts, w, RToks(RsOf(b, r.v)), Tokens(b, r.p), ArgToks(rest), Tokens(b, ParseArgs(b, r.p, argc + 1).p));
    }
  }

  lemma ArgChain(ts: seq<Tok>, w: string, x: seq<Tok>, us: seq<Tok>, y: seq<Tok>, vs: seq<Tok>)
    requires ts != [] && ts[0] == W(w) && ts[1..] == x + us && us == y + vs
    ensures ts == [W(w)] + x + y + vs
  {
    assert ts == [ts[0]] + ts[1..];
  }

  lemma ArgsCons(b: string, w: Span, rs: seq<Redirection>, a: Args, args: seq<Arg>)
    requires ArgWords(args) == Words(b, a.argv) && ArgRs(args) == RsOf(b, a.redirs)
    ensures var all := [Arg(ShellRoundTrip.Word(b, w), RsOf(b, rs))] + args;
            && ArgToks(all) == [W(ShellRoundTrip.Word(b, w))] + RToks(RsOf(b, rs)) + ArgToks(args)
            && ArgWords(all) == Words(b, [w] + a.argv) && ArgRs(all) == RsOf(b, rs + a.redirs)
  {
    hide RToks, ShellRoundTrip.Word, ArgToks, ArgRs, ArgWords, Words, RsOf;
    var x := Arg(ShellRoundTrip.Word(b, w), RsOf(b, rs));
    ArgToksCons(x, args);
    ArgRsCons(x, args);
    ArgWordsCons(x, args);
    WordsOf(b, w, a.argv);
    RsJoin(b, rs, a.redirs);
  }

  lemma ArgToksCons(x: Arg, args: seq<Arg>)
    ensures ArgToks([x] + args) == [W(x.w)] + RToks(x.rs) + ArgToks(args)
  {
    assert ([x] + args)[1..] == args && ([x] + args)[0] == x;
  }

  lemma ArgRsCons(x: Arg, args: seq<Arg>)
    ensures ArgRs([x] + args) == x.rs + ArgRs(args)
  {
    assert ([x] + args)[1..] == args && ([x] + args)[0] == x;
  }

  lemma ArgWordsCons(x: Arg, args: seq<Arg>)
    ensures ArgWords([x] + args) == [x.w] + ArgWords(args)
  {
  }

  lemma WordsOf(b: string, w: Span, ws: seq<Span>)
    ensures Words(b, [w] + ws) == [ShellRoundTrip.Word(b, w)] + Words(b, ws)
  {
    hide ShellRoundTrip.Word;
  }

  /** Words do not start like a redirection, nor does what ends a command. */
  lemma ArgsNoRedir(args: seq<Arg>, us: seq<Tok>)
    requires EndsExec(us)
    ensures !StartsRedir(ArgToks(args) + us) && !StartsWith(ArgToks(args) + us, '(')
    ensures args == [] ==> ArgToks(args) + us == us
    ensures args != [] ==>
              && ArgToks(args) + us != [] && (ArgToks(args) + us)[0] == W(args[0].w) && !EndsExec(ArgToks(args) + us)
              && (ArgToks(args) + us)[1..] == RToks(args[0].rs) + (ArgToks(args[1..]) + us)
  {
    if args != [] {
      var x, y := RToks(args[0].rs), ArgToks(args[1..]);
      hide RToks, ArgToks;
      ArgAssoc(W(args[0].w), x, y, us);
    }
  }

  lemma ArgAssoc(w: Tok, x: seq<Tok>, y: seq<Tok>, us: seq<Tok>)
    ensures var ts := [w] + x + y + us; ts != [] && ts[0] == w && ts[1..] == x + (y + us)
  {
  }

  lemma NoArgs(b: string)
    ensures RToks([]) == [] && (forall us :: RToks([]) + us == us) && RsOf(b, []) == [] && Words(b, []) == [] && ArgWords([]) == [] && ArgRs([]) == []
  {
  }

  lemma ArgNone(b: string, p: nat, argc: nat)
    requires p <= |b| && NoNul(b) && argc < MAXARGS && EndsExec(Tokens(b, p))
    ensures var a := ParseArgs(b, p, argc); a.Ok? && a.v == Args([], []) && a.p <= |b| && Tokens(b, a.p) == Tokens(b, p)
  {
    ArgStep(b, p, argc);
  }

  lemma ArgFirst(b: string, p: nat, argc: nat)
    requires p <= |b| && NoNul(b) && argc + 1 < MAXARGS && Tokens(b, p) != [] && Tokens(b, p)[0].W?
    requires var t := GetToken(b, p); ParseRedirs(b, t.p).Ok?
    ensures var t, ts := GetToken(b, p), Tokens(b, p);
            && ts[0] == W(ShellRoundTrip.Word(b, Span(t.q, t.eq))) && p < t.p && Tokens(b, t.p) == ts[1..]
            && var r := ParseRedirs(b, t.p);
               var rest := ParseArgs(b, r.p, argc + 1);
               ParseArgs(b, p, argc) == if rest.Panic? then Panic else Ok(Args([Span(t.q, t.eq)] + rest.v.argv, r.v + rest.v.redirs), rest.p)
  {
    ArgStep(b, p, argc);
    Take(b, p);
    hide Tokens, GetToken, ParseRedirs, ParseArgs;
  }

  lemma WordFirst(b: string, p: nat)
    requires p <= |b| && NoNul(b) && Tokens(b, p) != [] && Tokens(b, p)[0].W?
    ensures var t := GetToken(b, p);
            t.p <= |b| && p < t.p && Tokens(b, p)[0] == W(ShellRoundTrip.Word(b, Span(t.q, t.eq))) && Tokens(b, t.p) == Tokens(b, p)[1..]
  {
    Take(b, p);
    hide Tokens, GetToken;
  }

  lemma {:induction false} ArgsComplete(b: string, p: nat, argc: nat, args: seq<Arg>, us: seq<Tok>)
    requires p <= |b| && NoNul(b) && argc + |args| < MAXARGS && Tokens(b, p) == ArgToks(args) + us && EndsExec(us)
    ensures var a := ParseArgs(b, p, argc);
            a.Ok? && Words(b, a.v.argv) == ArgWords(args) && RsOf(b, a.v.redirs) == ArgRs(args) && a.p <= |b| && Tokens(b, a.p) == us
    decreases |args|
  {
    NoArgs(b);
    hide Tokens, GetToken, ParseRedirs, ParseArgs, SkipSpace, EndsExec, ArgToks, RToks, StartsRedir, StartsWith, ArgRs, RsOf, Words, ArgWords, ShellRoundTrip.Word;
    ArgsNoRedir(args, us);
    if args == [] {
      ArgNone(b, p, argc);
    } else {
      var t := GetToken(b, p);
      WordFirst(b, p);
      ArgsNoRedir(args[1..], us);
      RedirsComplete(b, t.p, args[0].rs, ArgToks(args[1..]) + us);
      var r := ParseRedirs(b, t.p);
      ArgsComplete(b, r.p, argc + 1, args[1..], us);
      ArgFirst(b, p, argc);
      ArgsCons(b, Span(t.q, t.eq), r.v, ParseArgs(b, r.p, argc + 1).v, args[1..]);
      assert args == [Arg(args[0].w, args[0].rs)] + args[1..];
    }
  }

  // ---- commands, pipes and lines

  lemma SymbolStep(b: string, p: nat, c: char)
    requires p <= |b| && NoNul(b) && StartsWith(Tokens(b, p), c) && IsSymbol(c)
    ensures var t := GetToken(b, p); p < t.p <= |b| && Tokens(b, t.p) == Tokens(b, p)[1..] && Tokens(b, p) == [Op(c)] + Tokens(b, t.p)
  {
    Take(b, p);
  }

  lemma ExecStep(b: string, p: nat)
    requires p <= |b| && NoNul(b) && !StartsWith(Tokens(b, p), '(')
    ensures ParseExec(b, p) ==
            var r := ParseRedirs(b, p);
            if r.Panic? then Panic
            else
              var a := ParseArgs(b, r.p, 0);
              if a.Panic? then Panic else Ok(Wrap(Exec(a.v.argv), r.v + a.v.redirs), a.p)
  {
    Look(b, p);
    RedirsSkip(b, p);
    hide Tokens, GetToken, SkipSpace, ParseRedirs, ParseArgs, ParseBlock, Wrap;
  }

  lemma BlockStep(b: string, p: nat)
    requires p <= |b| && NoNul(b) && StartsWith(Tokens(b, p), '(')
    ensures GetToken(b, p).p <= |b|
    ensures ParseExec(b, p) ==
            var c := ParseLine(b, GetToken(b, p).p);
            if c.Panic? || !StartsWith(Tokens(b, c.p), ')') then Panic
            else
              var r := ParseRedirs(b, GetToken(b, c.p).p);
              if r.Panic? then Panic else Ok(Wrap(c.v, r.v), r.p)
  {
    Look(b, p);
    var c := ParseLine(b, GetToken(b, p).p);
    if c.Ok? {
      Look(b, c.p);
    }
    hide Tokens, GetToken, SkipSpace, ParseRedirs, ParseArgs, ParseLine, Wrap;
  }

  lemma PipeStep(b: string, p: nat)
    requires p <= |b| && NoNul(b)
    ensures ParsePipe(b, p).Ok? ==> ParseExec(b, p).Ok?
    ensures var c := ParseExec(b, p);
            c.Ok? ==>
              if StartsWith(Tokens(b, c.p), '|') then
                var d := ParsePipe(b, GetToken(b, c.p).p);
                ParsePipe(b, p) == if d.Panic? then Panic else Ok(Pipe(c.v, d.v), d.p)
              else ParsePipe(b, p).Ok? && ParsePipe(b, p).v == c.v && ParsePipe(b, p).p <= |b| && Tokens(b, ParsePipe(b, p).p) == Tokens(b, c.p)
  {
    var c := ParseExec(b, p);
    if c.Ok? {
      Look(b, c.p);
    }
    hide Tokens, GetToken, SkipSpace, ParseExec;
  }

  lemma BackStep(b: string, p: nat, c: Cmd)
    requires p <= |b| && NoNul(b)
    ensures if StartsWith(Tokens(b, p), '&') then ParseBacks(b, p, c) == ParseBacks(b, GetToken(b, p).p, Back(c))
            else ParseBacks(b, p, c).v == c && Tokens(b, ParseBacks(b, p, c).p) == Tokens(b, p)
  {
    Look(b, p);
    hide Tokens, GetToken, SkipSpace;
  }

  lemma LineStep(b: string, p: nat)
    requires p <= |b| && NoNul(b)
    ensures ParseLine(b, p).Ok? ==> ParsePipe(b, p).Ok?
    ensures var c := ParsePipe(b, p);
            c.Ok? ==>
              var k := ParseBacks(b, c.p, c.v);
              if StartsWith(Tokens(b, k.p), ';') then
                var d := ParseLine(b, GetToken(b, k.p).p);
                ParseLine(b, p) == if d.Panic? then Panic else Ok(List(k.v, d.v), d.p)
              else ParseLine(b, p).Ok? && ParseLine(b, p).v == k.v && ParseLine(b, p).p <= |b| && Tokens(b, ParseLine(b, p).p) == Tokens(b, k.p)
  {
    var c := ParsePipe(b, p);
    if c.Ok? {
      Look(b, ParseBacks(b, c.p, c.v).p);
    }
    hide Tokens, GetToken, SkipSpace, ParsePipe, ParseBacks;
  }

  lemma {:induction false} BackedOut(c: Tree, n: nat)
    ensures Backed(TBack(c), n) == TBack(Backed(c, n))
  {
    if n > 0 {
      BackedOut(c, n - 1);
    }
  }

  lemma NoBacks(c: Tree, ts: seq<Tok>)
    ensures Backed(c, 0) == c && Amps(0) + ts == ts
  {
  }

  lemma BackTree(b: string, c: Cmd)
    ensures TreeOf(b, Back(c)) == TBack(TreeOf(b, c))
  {
  }

  lemma OneMoreBack(c: Tree, n: nat)
    ensures Backed(c, n + 1) == TBack(Backed(c, n)) && Amps(n + 1) == [Op('&')] + Amps(n)
  {
  }

  lemma {:induction false} BacksSound(b: string, p: nat, c: Cmd) returns (n: nat)
    requires p <= |b| && NoNul(b)
    ensures var k := ParseBacks(b, p, c);
            Tokens(b, p) == Amps(n) + Tokens(b, k.p) && TreeOf(b, k.v) == Backed(TreeOf(b, c), n) && !StartsWith(Tokens(b, k.p), '&')
    decreases |b| - p
  {
    BackStep(b, p, c);
    NoBacks(TreeOf(b, c), Tokens(b, p));
    BackTree(b, c);
    hide Tokens, GetToken, ParseBacks, SkipSpace, Backed, StartsWith, Amps, TreeOf, NoNul;
    if StartsWith(Tokens(b, p), '&') {
      SymbolStep(b, p, '&');
      n := BacksSound(b, GetToken(b, p).p, Back(c));
      BackedOut(TreeOf(b, c), n);
      OneMoreBack(TreeOf(b, c), n);
      Assoc([Op('&')], Amps(n), Tokens(b, ParseBacks(b, p, c).p));
      n := n + 1;
    } else {
      n := 0;
    }
  }

  lemma {:induction false} BacksComplete(b: string, p: nat, c: Cmd, n: nat, us: seq<Tok>)
    requires p <= |b| && NoNul(b) && Tokens(b, p) == Amps(n) + us && !StartsWith(us, '&')
    ensures var k := ParseBacks(b, p, c); TreeOf(b, k.v) == Backed(TreeOf(b, c), n) && Tokens(b, k.p) == us
    decreases n
  {
    BackStep(b, p, c);
    NoBacks(TreeOf(b, c), us);
    BackTree(b, c);
    if n > 0 {
      OneMoreBack(TreeOf(b, c), n - 1);
    }
    hide Tokens, GetToken, ParseBacks, SkipSpace, Backed, Amps, TreeOf, NoNul;
    if n > 0 {
      Assoc([Op('&')], Amps(n - 1), us);
      Head(Op('&'), Amps(n - 1) + us);
      SymbolStep(b, p, '&');
      BacksComplete(b, GetToken(b, p).p, Back(c), n - 1, us);
      BackedOut(TreeOf(b, c), n - 1);
    }
  }

  // ---- the parser builds only lines of the grammar

  lemma {:induction false} ExecSound(b: string, p: nat) returns (e: ExecS)
    requires p <= |b| && NoNul(b) && ParseExec(b, p).Ok?
    ensures var r := ParseExec(b, p);
            r.p <= |b| && Tokens(b, p) == ExecToks(e) + Tokens(b, r.p) && TreeOf(b, r.v) == ExecTree(e) && ExecFits(e)
    decreases |b| - p, 0
  {
    hide Tokens, GetToken, ParseRedirs, ParseArgs, ParseExec, ParseLine, SkipSpace, Wrap, RsOf, Words, ArgWords, ArgRs, RToks, ArgToks, LineToks;
    var ts := Tokens(b, p);
    if StartsWith(ts, '(') {
      BlockStep(b, p);
      SymbolStep(b, p, '(');
      var q := GetToken(b, p).p;
      var l := LineSound(b, q);
      var c := ParseLine(b, q);
      SymbolStep(b, c.p, ')');
      var u := GetToken(b, c.p).p;
      RedirsSound(b, u);
      var r := ParseRedirs(b, u);
      WrapTree(b, c.v, r.v);
      e := Block(l, RsOf(b, r.v));
      BlockAssoc([Op('(')], LineToks(l), [Op(')')], RToks(RsOf(b, r.v)), Tokens(b, r.p));
    } else {
      ExecStep(b, p);
      RedirsSound(b, p);
      var r := ParseRedirs(b, p);
      var args := ArgsSound(b, r.p, 0);
      var a := ParseArgs(b, r.p, 0);
      WrapTree(b, Exec(a.v.argv), r.v + a.v.redirs);
      RsJoin(b, r.v, a.v.redirs);
      e := Simple(RsOf(b, r.v), args);
      Assoc(RToks(RsOf(b, r.v)), ArgToks(args), Tokens(b, a.p));
    }
  }

  lemma RsJoin(b: string, rs: seq<Redirection>, qs: seq<Redirection>)
    ensures RsOf(b, rs + qs) == RsOf(b, rs) + RsOf(b, qs)
  {
  }

  lemma BlockAssoc(x: seq<Tok>, y: seq<Tok>, z: seq<Tok>, u: seq<Tok>, v: seq<Tok>)
    ensures x + y + z + u + v == x + (y + (z + (u + v)))
  {
  }

  lemma {:induction false} PipeSound(b: string, p: nat) returns (x: PipeS)
    requires p <= |b| && NoNul(b) && ParsePipe(b, p).Ok?
    ensures var r := ParsePipe(b, p);
            r.p <= |b| && Tokens(b, p) == PipeToks(x) + Tokens(b, r.p) && TreeOf(b, r.v) == PipeTree(x) && PipeFits(x)
    decreases |b| - p, 1
  {
    hide Tokens, GetToken, ParseExec, ParsePipe, SkipSpace, ExecToks;
    PipeStep(b, p);
    var e := ExecSound(b, p);
    var c := ParseExec(b, p);
    if StartsWith(Tokens(b, c.p), '|') {
      SymbolStep(b, c.p, '|');
      ExecGrows(b, p);
      var y := PipeSound(b, GetToken(b, c.p).p);
      x := PipeS(e, Into(y));
      BlockAssoc(ExecToks(e), [Op('|')], PipeToks(y), [], Tokens(b, ParsePipe(b, p).p));
      JoinAssoc(ExecToks(e), [Op('|')], PipeToks(y), Tokens(b, ParsePipe(b, p).p));
    } else {
      x := PipeS(e, NoRest);
      assert ExecToks(e) + [] == ExecToks(e);
    }
  }

  lemma ExecGrows(b: string, p: nat)
    requires p <= |b| && NoNul(b) && ParseExec(b, p).Ok?
    ensures p <= ParseExec(b, p).p <= |b|
  {
  }

  lemma JoinAssoc(x: seq<Tok>, y: seq<Tok>, z: seq<Tok>, u: seq<Tok>)
    ensures x + (y + z) + u == x + (y + (z + u))
  {
  }

  lemma {:induction false} LineSound(b: string, p: nat) returns (l: Line)
    requires p <= |b| && NoNul(b) && ParseLine(b, p).Ok?
    ensures var r := ParseLine(b, p);
            r.p <= |b| && Tokens(b, p) == LineToks(l) + Tokens(b, r.p) && TreeOf(b, r.v) == LineTree(l) && LineFits(l)
    decreases |b| - p, 2
  {
    hide Tokens, GetToken, ParsePipe, ParseBacks, ParseLine, SkipSpace, PipeToks, Amps, Backed;
    LineStep(b, p);
    var x := PipeSound(b, p);
    var c := ParsePipe(b, p);
    PipeGrows(b, p);
    var n := BacksSound(b, c.p, c.v);
    var k := ParseBacks(b, c.p, c.v);
    BacksGrow(b, c.p, c.v);
    if StartsWith(Tokens(b, k.p), ';') {
      SymbolStep(b, k.p, ';');
      var m := LineSound(b, GetToken(b, k.p).p);
      l := Line(x, n, Then(m));
      LineAssoc(PipeToks(x), Amps(n), [Op(';')], LineToks(m), Tokens(b, ParseLine(b, p).p));
    } else {
      l := Line(x, n, NoMore);
      LineAssoc(PipeToks(x), Amps(n), [], [], Tokens(b, ParseLine(b, p).p));
    }
  }

  lemma PipeGrows(b: string, p: nat)
    requires p <= |b| && NoNul(b) && ParsePipe(b, p).Ok?
    ensures p <= ParsePipe(b, p).p <= |b|
  {
  }

  lemma BacksGrow(b: string, p: nat, c: Cmd)
    requires p <= |b| && NoNul(b)
    ensures p <= ParseBacks(b, p, c).p <= |b|
  {
  }

  lemma LineAssoc(x: seq<Tok>, y: seq<Tok>, z: seq<Tok>, u: seq<Tok>, v: seq<Tok>)
    ensures x + y + (z + u) + v == x + (y + (z + (u + v)))
    ensures x + y + [] + v == x + (y + v)
  {
  }

  // ---- and all of them

  predicate EndsPipe(ts: seq<Tok>) {
    ts == [] || StartsWith(ts, ')') || StartsWith(ts, '&') || StartsWith(ts, ';')
  }

  predicate EndsLine(ts: seq<Tok>) {
    ts == [] || StartsWith(ts, ')')
  }

  lemma {:induction false} ExecComplete(b: string, p: nat, e: ExecS, us: seq<Tok>)
    requires p <= |b| && NoNul(b) && Tokens(b, p) == ExecToks(e) + us && ExecFits(e) && EndsExec(us)
    ensures var r := ParseExec(b, p); r.Ok? && TreeOf(b, r.v) == ExecTree(e) && r.p <= |b| && Tokens(b, r.p) == us
    decreases e
  {
    hide Tokens, GetToken, ParseRedirs, ParseArgs, ParseExec, ParseLine, SkipSpace, Wrap, RsOf, Words, ArgWords, ArgRs, RToks, ArgToks, LineToks, EndsExec, StartsRedir;
    EndsNoRedir(us);
    match e
    case Simple(rs, args) =>
      Assoc(RToks(rs), ArgToks(args), us);
      ArgsNoRedir(args, us);
      RedirsNoBlock(rs, ArgToks(args) + us);
      ExecStep(b, p);
      RedirsComplete(b, p, rs, ArgToks(args) + us);
      var r := ParseRedirs(b, p);
      ArgsComplete(b, r.p, 0, args, us);
      var a := ParseArgs(b, r.p, 0);
      WrapTree(b, Exec(a.v.argv), r.v + a.v.redirs);
      RsJoin(b, r.v, a.v.redirs);
    case Block(l, rs) =>
      BlockAssoc([Op('(')], LineToks(l), [Op(')')], RToks(rs), us);
      Head(Op('('), LineToks(l) + ([Op(')')] + (RToks(rs) + us)));
      Head(Op(')'), RToks(rs) + us);
      BlockStep(b, p);
      SymbolStep(b, p, '(');
      var q := GetToken(b, p).p;
      LineComplete(b, q, l, [Op(')')] + (RToks(rs) + us));
      var c := ParseLine(b, q);
      SymbolStep(b, c.p, ')');
      var u := GetToken(b, c.p).p;
      RedirsComplete(b, u, rs, us);
      WrapTree(b, c.v, ParseRedirs(b, u).v);
  }

  lemma EndsNoRedir(us: seq<Tok>)
    requires EndsExec(us)
    ensures !StartsRedir(us)
  {
  }

  lemma RedirsNoBlock(rs: seq<R>, ts: seq<Tok>)
    requires !StartsWith(ts, '(')
    ensures !StartsWith(RToks(rs) + ts, '(')
  {
    FirstRedir(rs, ts);
    if rs != [] {
      ModeChars(rs[0].mode, rs[0].mode);
    }
  }

  lemma {:induction false} PipeComplete(b: string, p: nat, x: PipeS, us: seq<Tok>)
    requires p <= |b| && NoNul(b) && Tokens(b, p) == PipeToks(x) + us && PipeFits(x) && EndsPipe(us)
    ensures var r := ParsePipe(b, p); r.Ok? && TreeOf(b, r.v) == PipeTree(x) && r.p <= |b| && Tokens(b, r.p) == us
    decreases x
  {
    hide Tokens, GetToken, ParseExec, ParsePipe, SkipSpace, ExecToks, ExecTree;
    match x.next
    case NoRest =>
      assert ExecToks(x.first) + [] == ExecToks(x.first);
      ExecComplete(b, p, x.first, us);
      PipeStep(b, p);
    case Into(y) =>
      JoinAssoc(ExecToks(x.first), [Op('|')], PipeToks(y), us);
      Head(Op('|'), PipeToks(y) + us);
      ExecComplete(b, p, x.first, [Op('|')] + (PipeToks(y) + us));
      PipeStep(b, p);
      var c := ParseExec(b, p);
      SymbolStep(b, c.p, '|');
      PipeComplete(b, GetToken(b, c.p).p, y, us);
  }

  lemma {:induction false} LineComplete(b: string, p: nat, l: Line, us: seq<Tok>)
    requires p <= |b| && NoNul(b) && Tokens(b, p) == LineToks(l) + us && LineFits(l) && EndsLine(us)
    ensures var r := ParseLine(b, p); r.Ok? && TreeOf(b, r.v) == LineTree(l) && r.p <= |b| && Tokens(b, r.p) == us
    decreases l
  {
    hide Tokens, GetToken, ParsePipe, ParseBacks, ParseLine, SkipSpace, PipeToks, PipeTree, Amps, Backed;
    var vs := match l.next case NoMore => us case Then(m) => [Op(';')] + (LineToks(m) + us);
    match l.next {
      case NoMore => LineAssoc(PipeToks(l.first), Amps(l.backs), [], [], us);
      case Then(m) =>
        LineAssoc(PipeToks(l.first), Amps(l.backs), [Op(';')], LineToks(m), us);
        Head(Op(';'), LineToks(m) + us);
    }
    AmpsEnd(l.backs, vs);
    PipeComplete(b, p, l.first, Amps(l.backs) + vs);
    LineStep(b, p);
    var c := ParsePipe(b, p);
    BacksComplete(b, c.p, c.v, l.backs, vs);
    var k := ParseBacks(b, c.p, c.v);
    BacksGrow(b, c.p, c.v);
    if l.next.Then? {
      SymbolStep(b, k.p, ';');
      LineComplete(b, GetToken(b, k.p).p, l.next.line, us);
    }
  }

  lemma AmpsEnd(n: nat, us: seq<Tok>)
    requires us == [] || StartsWith(us, ')') || StartsWith(us, ';')
    ensures EndsPipe(Amps(n) + us)
  {
    if n == 0 {
      assert [] + us == us;
    } else {
      Assoc([Op('&')], Amps(n - 1), us);
    }
  }

  /** The whole of `parsecmd`: it accepts a text exactly when its tokens are those of
      a line of the grammar with at most nine words in each simple command, and
      then builds the tree of that line. */
  lemma ParsesIff(b: string)
    requires NoNul(b)
    ensures ParseCmd(b).Ok? <==> exists l :: LineFits(l) && LineToks(l) == Tokens(b, 0)
    ensures forall l :: LineFits(l) && LineToks(l) == Tokens(b, 0) ==> ParseCmd(b).Ok? && TreeOf(b, ParseCmd(b).v) == LineTree(l)
  {
    hide Tokens, ParseLine, LineToks, LineFits, LineTree;
    var r := ParseLine(b, 0);
    if r.Ok? {
      Look(b, r.p);
      if Tokens(b, r.p) == [] {
        var l := LineSound(b, 0);
        assert LineToks(l) + [] == LineToks(l);
      }
    }
    forall l | LineFits(l) && LineToks(l) == Tokens(b, 0) ensures ParseCmd(b).Ok? && TreeOf(b, ParseCmd(b).v) == LineTree(l) {
      assert LineToks(l) + [] == LineToks(l);
      LineComplete(b, 0, l, []);
      Look(b, ParseLine(b, 0).p);
    }
  }

  // ---- printing

  predicate TokOk(t: Tok) {
    match t
    case W(w) => IsWord(w)
    case Op(c) => c == '+' || IsSymbol(c)
  }

  predicate ToksOk(ts: seq<Tok>) {
    forall k :: 0 <= k < |ts| ==> TokOk(ts[k])
  }

  function TokText(t: Tok): string {
    match t
    case W(w) => w
    case Op(c) => if c == '+' then ">>" else [c]
  }

  function Render(ts: seq<Tok>): string {
    if ts == [] then "" else " " + TokText(ts[0]) + Render(ts[1..])
  }

  /** A rendered token is that token, and the next one starts behind it. */
  lemma RenderedToken(b: string, p: nat, t: Tok)
    requires NoNul(b) && TokOk(t) && Sits(b, p, " " + TokText(t))
    requires var q := p + 1 + |TokText(t)|; q < |b| ==> b[q] == ' '
    ensures var q, u := p + 1 + |TokText(t)|, GetToken(b, p);
            q <= |b| && u.ret != '\0' && TokOf(b, u) == t && u.p == SkipSpace(b, q)
  {
    hide GetToken, Sits, IsWord, SkipSpace, NoNul, IsSymbol;
    AfterBlank(b, p, TokText(t));
    if t.W? {
      RenderedWord(b, p, t.w);
    } else {
      RenderedSymbol(b, p, t.c);
    }
  }

  lemma AfterBlank(b: string, p: nat, t: string)
    requires Sits(b, p, " " + t)
    ensures p < |b| && b[p] == ' ' && Sits(b, p + 1, t) && p + 1 + |t| <= |b|
  {
    SitsSplit(b, p, " ", t);
    CharAt(b, p, " ", 0);
  }

  lemma RenderedWord(b: string, p: nat, w: string)
    requires NoNul(b) && IsWord(w) && p < |b| && b[p] == ' ' && Sits(b, p + 1, w)
    requires var q := p + 1 + |w|; q < |b| ==> b[q] == ' '
    ensures var q, u := p + 1 + |w|, GetToken(b, p);
            q <= |b| && u.ret == 'a' && TokOf(b, u) == W(w) && u.p == SkipSpace(b, q)
  {
    BlankIsSpace();
    hide IsSpace, IsSymbol, GetToken, IsWord, SkipSpace, NoNul, Sits;
    WordToken(b, p + 1, w);
    AfterSpace(b, p);
  }

  lemma BlankIsSpace()
    ensures IsSpace(' ')
  {
  }

  lemma AfterSpace(b: string, p: nat)
    requires NoNul(b) && p < |b| && b[p] == ' '
    ensures GetToken(b, p) == GetToken(b, p + 1)
  {
    assert SkipSpace(b, p) == SkipSpace(b, p + 1);
    hide Lex, SkipSpace, WordEnd;
  }

  lemma RenderedSymbol(b: string, p: nat, c: char)
    requires NoNul(b) && TokOk(Op(c)) && p < |b| && b[p] == ' ' && Sits(b, p + 1, TokText(Op(c)))
    requires var q := p + 1 + |TokText(Op(c))|; q < |b| ==> b[q] == ' '
    ensures var q, u := p + 1 + |TokText(Op(c))|, GetToken(b, p);
            q <= |b| && u.ret == c && c != '\0' && TokOf(b, u) == Op(c) && u.p == SkipSpace(b, q)
  {
    AfterSpace(b, p);
    CharAt(b, p + 1, TokText(Op(c)), 0);
    if c == '+' {
      CharAt(b, p + 1, TokText(Op(c)), 1);
      BothArrows(b, p + 1);
    } else if c == '>' {
      BothArrows(b, p + 1);
    } else {
      SymbolToken(b, p + 1);
    }
  }

  lemma BothArrows(b: string, p: nat)
    requires NoNul(b) && p < |b| && b[p] == '>'
    ensures p + 1 < |b| && b[p + 1] == '>' ==> GetToken(b, p).ret == '+' && GetToken(b, p).p == SkipSpace(b, p + 2)
    ensures !(p + 1 < |b| && b[p + 1] == '>') ==> GetToken(b, p).ret == '>' && GetToken(b, p).p == SkipSpace(b, p + 1)
  {
    assert SkipSpace(b, p) == p;
    hide SkipSpace, WordEnd;
  }

  lemma {:induction false} RenderTokens(b: string, p: nat, ts: seq<Tok>)
    requires NoNul(b) && ToksOk(ts) && Sits(b, p, Render(ts)) && p + |Render(ts)| == |b|
    ensures Tokens(b, p) == ts
    decreases |ts|
  {
    hide GetToken, TokOk, TokText, TokOf, SkipSpace, NoNul;
    if ts == [] {
      AtTheEndOf(b);
    } else {
      var q := p + 1 + |TokText(ts[0])|;
      SitsSplit(b, p, " " + TokText(ts[0]), Render(ts[1..]));
      if ts[1..] != [] {
        SitsSplit(b, q, " ", TokText(ts[1]) + Render(ts[2..]));
        assert Render(ts[1..]) == " " + (TokText(ts[1]) + Render(ts[2..]));
        CharAt(b, q, " ", 0);
      }
      RenderedToken(b, p, ts[0]);
      RenderTokens(b, q, ts[1..]);
      Look(b, q);
      Take(b, p);
      assert ts == [ts[0]] + ts[1..];
    }
  }

  lemma AtTheEndOf(b: string)
    requires NoNul(b)
    ensures Tokens(b, |b|) == []
  {
  }

  lemma {:induction false} RenderNoNul(ts: seq<Tok>)
    requires ToksOk(ts)
    ensures NoNul(Render(ts))
    decreases |ts|
  {
    if ts != [] {
      RenderNoNul(ts[1..]);
      assert TokOk(ts[0]);
    }
  }

  /** Any line of the grammar, printed without needless parentheses and with
      redirections wherever they may stand, parses to its tree. */
  lemma LineRoundTrip(l: Line)
    requires LineFits(l) && ToksOk(LineToks(l))
    ensures var b := Render(LineToks(l)); NoNul(b) && ParseCmd(b).Ok? && TreeOf(b, ParseCmd(b).v) == LineTree(l)
  {
    hide LineFits, LineToks, LineTree, Tokens, ParseCmd, Render, ToksOk;
    var ts := LineToks(l);
    RenderNoNul(ts);
    SitsAll(Render(ts));
    RenderTokens(Render(ts), 0, ts);
    ParsesIff(Render(ts));
  }

  // ---- the plainest line for a tree

  function Size(c: Tree): nat {
    match c
    case TExec(_) => 1
    case TRedir(d, _, _) => 1 + Size(d)
    case TPipe(l, r) => 1 + Size(l) + Size(r)
    case TList(l, r) => 1 + Size(l) + Size(r)
    case TBack(d) => 1 + Size(d)
  }

  function Front(c: Tree): (d: Tree)
    ensures Size(d) <= Size(c) && (c.TBack? ==> Size(d) < Size(c)) && (!c.TBack? ==> d == c)
  {
    if c.TBack? then Front(c.sub) else c
  }

  function Count(c: Tree): nat {
    if c.TBack? then Count(c.sub) + 1 else 0
  }

  function Base(c: Tree): (d: Tree)
    ensures Size(d) <= Size(c) && (c.TRedir? ==> Size(d) < Size(c)) && !d.TRedir?
  {
    if c.TRedir? then Base(c.sub) else c
  }

  function RsIn(c: Tree): seq<R> {
    if c.TRedir? then RsIn(c.sub) + [R(c.mode, c.file)] else []
  }

  /** The words, with all redirections behind the last one. */
  function ArgsOf(ws: seq<string>, rs: seq<R>): (args: seq<Arg>)
    ensures |args| == |ws|
  {
    if ws == [] then [] else if |ws| == 1 then [Arg(ws[0], rs)] else [Arg(ws[0], [])] + ArgsOf(ws[1..], rs)
  }

  function LineOf(c: Tree): Line
    decreases Size(c), 2
  {
    if c.TList? then Line(PipeOf(Front(c.l)), Count(c.l), Then(LineOf(c.r))) else Line(PipeOf(Front(c)), Count(c), NoMore)
  }

  function PipeOf(c: Tree): PipeS
    decreases Size(c), if c.TList? || c.TBack? then 4 else 1
  {
    if c.TPipe? then PipeS(ExecOf(c.l), Into(PipeOf(c.r))) else PipeS(ExecOf(c), NoRest)
  }

  /** Parentheses only around what is no simple command. */
  function ExecOf(c: Tree): ExecS
    decreases Size(c), if c.TExec? || c.TRedir? then 0 else 3
  {
    var d := Base(c);
    if d.TExec? then if d.words == [] then Simple(RsIn(c), []) else Simple([], ArgsOf(d.words, RsIn(c)))
    else Block(LineOf(d), RsIn(c))
  }

  lemma {:induction false} RedirectedBase(c: Tree)
    ensures Redirected(Base(c), RsIn(c)) == c
    decreases c
  {
    if c.TRedir? {
      RedirectedBase(c.sub);
      var rs := RsIn(c);
      assert rs[..|rs| - 1] == RsIn(c.sub);
    }
  }

  lemma {:induction false} BackedFront(c: Tree)
    ensures Backed(Front(c), Count(c)) == c
    decreases c
  {
    if c.TBack? {
      BackedFront(c.sub);
    }
  }

  lemma {:induction false} ArgsOfWords(ws: seq<string>, rs: seq<R>)
    ensures ArgWords(ArgsOf(ws, rs)) == ws && (ws != [] ==> ArgRs(ArgsOf(ws, rs)) == rs)
    decreases |ws|
  {
    if |ws| == 1 {
      assert [Arg(ws[0], rs)][1..] == [] && rs + [] == rs;
      assert ArgRs([]) == [];
    } else if ws != [] {
      ArgsOfWords(ws[1..], rs);
      var args := ArgsOf(ws, rs);
      assert args[1..] == ArgsOf(ws[1..], rs);
      assert [] + rs == rs;
      forall k | 0 <= k < |ws| ensures args[k].w == ws[k] {
        assert k > 0 ==> args[k].w == ArgWords(args[1..])[k - 1] == ws[1..][k - 1];
      }
    }
  }

  lemma {:induction false} LineOfTree(c: Tree)
    ensures LineTree(LineOf(c)) == c
    decreases Size(c), 2
  {
    if c.TList? {
      BackedFront(c.l);
      PipeOfTree(Front(c.l));
      LineOfTree(c.r);
    } else {
      BackedFront(c);
      PipeOfTree(Front(c));
    }
  }

  lemma {:induction false} PipeOfTree(c: Tree)
    ensures PipeTree(PipeOf(c)) == c
    decreases Size(c), if c.TList? || c.TBack? then 4 else 1
  {
    if c.TPipe? {
      ExecOfTree(c.l);
      PipeOfTree(c.r);
    } else {
      ExecOfTree(c);
    }
  }

  lemma {:induction false} ExecOfTree(c: Tree)
    ensures ExecTree(ExecOf(c)) == c
    decreases Size(c), if c.TExec? || c.TRedir? then 0 else 3
  {
    var d, rs := Base(c), RsIn(c);
    RedirectedBase(c);
    hide Redirected;
    if d.TExec? {
      ArgsOfWords(d.words, rs);
      assert [] + rs == rs && rs + [] == rs;
    } else {
      LineOfTree(d);
    }
  }

  lemma ToksJoin(x: seq<Tok>, y: seq<Tok>)
    ensures ToksOk(x + y) <==> ToksOk(x) && ToksOk(y)
  {
    if ToksOk(x + y) {
      forall k | 0 <= k < |x| ensures TokOk(x[k]) {
        assert (x + y)[k] == x[k];
      }
      forall k | 0 <= k < |y| ensures TokOk(y[k]) {
        assert (x + y)[|x| + k] == y[k];
      }
    }
  }

  lemma {:induction false} RToksOk(rs: seq<R>)
    requires forall k :: 0 <= k < |rs| ==> IsWord(rs[k].file)
    ensures ToksOk(RToks(rs))
    decreases |rs|
  {
    if rs != [] {
      RToksOk(rs[1..]);
      ToksJoin([Op(ModeChar(rs[0].mode)), W(rs[0].file)], RToks(rs[1..]));
    }
  }

  lemma {:induction false} ArgToksOk(ws: seq<string>, rs: seq<R>)
    requires (forall k :: 0 <= k < |ws| ==> IsWord(ws[k])) && (forall k :: 0 <= k < |rs| ==> IsWord(rs[k].file))
    ensures ToksOk(ArgToks(ArgsOf(ws, rs)))
    decreases |ws|
  {
    hide IsWord;
    if ws != [] {
      var args := ArgsOf(ws, rs);
      RToksOk(args[0].rs);
      if |ws| > 1 {
        ArgToksOk(ws[1..], rs);
        assert args[1..] == ArgsOf(ws[1..], rs);
      }
      assert args[0].w == ws[0];
      ToksJoin([W(args[0].w)], RToks(args[0].rs));
      ToksJoin([W(args[0].w)] + RToks(args[0].rs), ArgToks(args[1..]));
    }
  }

  lemma {:induction false} BasePrintable(c: Tree)
    requires Printable(c)
    ensures Printable(Base(c)) && forall k :: 0 <= k < |RsIn(c)| ==> IsWord(RsIn(c)[k].file)
    decreases c
  {
    if c.TRedir? {
      BasePrintable(c.sub);
    }
  }

  lemma {:induction false} FrontPrintable(c: Tree)
    requires Printable(c)
    ensures Printable(Front(c))
    decreases c
  {
    if c.TBack? {
      FrontPrintable(c.sub);
    }
  }

  lemma {:induction false} AmpsOk(n: nat)
    ensures ToksOk(Amps(n))
  {
    if n > 0 {
      AmpsOk(n - 1);
      ToksJoin([Op('&')], Amps(n - 1));
    }
  }

  lemma {:induction false} LineOfOk(c: Tree)
    requires Printable(c)
    ensures LineFits(LineOf(c)) && ToksOk(LineToks(LineOf(c)))
    decreases Size(c), 2
  {
    hide ToksOk, IsWord;
    var l := LineOf(c);
    var d := if c.TList? then c.l else c;
    FrontPrintable(d);
    PipeOfOk(Front(d));
    AmpsOk(Count(d));
    ToksJoin(PipeToks(l.first), Amps(l.backs));
    if c.TList? {
      LineOfOk(c.r);
      SymbolOk(';');
      ToksJoin([Op(';')], LineToks(l.next.line));
      ToksJoin(PipeToks(l.first) + Amps(l.backs), [Op(';')] + LineToks(l.next.line));
    } else {
      assert PipeToks(l.first) + Amps(l.backs) + [] == PipeToks(l.first) + Amps(l.backs);
    }
  }

  lemma SymbolOk(c: char)
    requires IsSymbol(c)
    ensures ToksOk([Op(c)])
  {
  }

  lemma {:induction false} PipeOfOk(c: Tree)
    requires Printable(c)
    ensures PipeFits(PipeOf(c)) && ToksOk(PipeToks(PipeOf(c)))
    decreases Size(c), if c.TList? || c.TBack? then 4 else 1
  {
    hide ToksOk, IsWord;
    var x := PipeOf(c);
    if c.TPipe? {
      ExecOfOk(c.l);
      PipeOfOk(c.r);
      SymbolOk('|');
      ToksJoin([Op('|')], PipeToks(PipeOf(c.r)));
      ToksJoin(ExecToks(x.first), [Op('|')] + PipeToks(PipeOf(c.r)));
    } else {
      ExecOfOk(c);
      assert ExecToks(x.first) + [] == ExecToks(x.first);
    }
  }

  lemma {:induction false} ExecOfOk(c: Tree)
    requires Printable(c)
    ensures ExecFits(ExecOf(c)) && ToksOk(ExecToks(ExecOf(c)))
    decreases Size(c), if c.TExec? || c.TRedir? then 0 else 3
  {
    hide ToksOk, IsWord;
    var d, rs := Base(c), RsIn(c);
    BasePrintable(c);
    RToksOk(rs);
    if d.TExec? {
      ArgToksOk(d.words, rs);
      if d.words == [] {
        assert RToks(rs) + ArgToks([]) == RToks(rs);
      } else {
        assert RToks([]) + ArgToks(ArgsOf(d.words, rs)) == ArgToks(ArgsOf(d.words, rs));
      }
    } else {
      LineOfOk(d);
      SymbolOk('(');
      SymbolOk(')');
      var x := LineToks(LineOf(d));
      ToksJoin([Op('(')], x);
      ToksJoin([Op('(')] + x, [Op(')')]);
      ToksJoin([Op('(')] + x + [Op(')')], RToks(rs));
    }
  }

  /** So does every command tree, printed with parentheses only around what is no
      simple command, pipe or list in its place. */
  lemma PlainRoundTrip(c: Tree)
    requires Printable(c)
    ensures var b := Render(LineToks(LineOf(c))); NoNul(b) && ParseCmd(b).Ok? && TreeOf(b, ParseCmd(b).v) == c
  {
    LineOfOk(c);
    LineOfTree(c);
    LineRoundTrip(LineOf(c));
  }
}
