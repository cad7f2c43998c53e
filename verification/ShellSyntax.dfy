/** The command language of user/sh.c: tokens, the recursive-descent grammar as
    functions of a string and a position, and the command trees they build. */
module ShellSyntax {
  const MAXARGS: nat := 10

  predicate IsSpace(c: char) {
    c == ' ' || c == '\t' || c == '\r' || c == '\n' || c as int == 11
  }

  predicate IsSymbol(c: char) {
    c == '<' || c == '|' || c == '>' || c == '&' || c == ';' || c == '(' || c == ')'
  }

  predicate IsWordChar(c: char) {
    !IsSpace(c) && !IsSymbol(c) && c != '\0'
  }

  /** A C string up to its end. */
  predicate NoNul(b: string) {
    forall k :: 0 <= k < |b| ==> b[k] != '\0'
  }

  /** `*s`, with the terminator at the end. */
  function At(b: string, p: nat): char {
    if p < |b| then b[p] else '\0'
  }

  function SkipSpace(b: string, p: nat): (r: nat)
    requires p <= |b|
    ensures p <= r <= |b| && (r < |b| ==> !IsSpace(b[r])) && forall k :: p <= k < r ==> IsSpace(b[k])
    decreases |b| - p
  {
    if p < |b| && IsSpace(b[p]) then SkipSpace(b, p + 1) else p
  }

  function WordEnd(b: string, p: nat): (r: nat)
    requires p <= |b|
    ensures p <= r <= |b| && (r < |b| ==> IsSpace(b[r]) || IsSymbol(b[r])) && forall k :: p <= k < r ==> !IsSpace(b[k]) && !IsSymbol(b[k])
    decreases |b| - p
  {
    if p < |b| && !IsSpace(b[p]) && !IsSymbol(b[p]) then WordEnd(b, p + 1) else p
  }

  /** A word of the input, as the pair of pointers q and eq. */
  datatype Span = Span(q: nat, eq: nat)

  datatype Token = Token(ret: char, q: nat, eq: nat, p: nat)

  /** The kind and end of the token at `s`, where no whitespace is. */
  function Lex(b: string, s: nat): (char, nat)
    requires s <= |b|
  {
    var c := At(b, s);
    if c == '\0' then ('\0', s)
    else if c == '>' then if At(b, s + 1) == '>' then ('+', s + 2) else ('>', s + 1)
    else if IsSymbol(c) then (c, s + 1)
    else ('a', WordEnd(b, s))
  }

  /** `gettoken`. */
  function GetToken(b: string, p: nat): (t: Token)
    requires p <= |b| && NoNul(b)
    ensures p <= t.q <= t.eq <= t.p <= |b| && (t.q < |b| ==> t.q < t.p) && (t.ret == '\0' <==> t.q == |b|)
    ensures t.ret == 'a' ==> SpanOk(b, Span(t.q, t.eq))
  {
    var s := SkipSpace(b, p);
    var (ret, e) := Lex(b, s);
    Token(ret, s, e, SkipSpace(b, e))
  }

  /** A span is a whole word: what follows it is no part of any word. */
  predicate SpanOk(b: string, w: Span) {
    && w.q < w.eq <= |b|
    && (forall k :: w.q <= k < w.eq ==> IsWordChar(b[k]))
    && (w.eq < |b| ==> !IsWordChar(b[w.eq]))
  }

  // ---- commands

  datatype Mode = In | Out | Append

  datatype Redirection = Redirection(file: Span, mode: Mode)

  datatype Cmd =
    | Exec(argv: seq<Span>)
    | Redir(cmd: Cmd, file: Span, mode: Mode)
    | Pipe(left: Cmd, right: Cmd)
    | List(left: Cmd, right: Cmd)
    | Back(cmd: Cmd)

  predicate SpansOk(b: string, ws: seq<Span>) {
    forall k :: 0 <= k < |ws| ==> SpanOk(b, ws[k])
  }

  predicate RedirsOk(b: string, rs: seq<Redirection>) {
    forall k :: 0 <= k < |rs| ==> SpanOk(b, rs[k].file)
  }

  /** Every word of a command is a whole word of the input, and no `argv` overflows. */
  predicate CmdOk(b: string, c: Cmd) {
    match c
    case Exec(ws) => SpansOk(b, ws) && |ws| < MAXARGS
    case Redir(d, f, _) => CmdOk(b, d) && SpanOk(b, f)
    case Pipe(l, r) => CmdOk(b, l) && CmdOk(b, r)
    case List(l, r) => CmdOk(b, l) && CmdOk(b, r)
    case Back(d) => CmdOk(b, d)
  }

  /** The redirections around a command, the first one innermost. */
  function Wrap(c: Cmd, rs: seq<Redirection>): Cmd
    decreases |rs|
  {
    if rs == [] then c else Wrap(Redir(c, rs[0].file, rs[0].mode), rs[1..])
  }

  lemma {:induction false} WrapOk(b: string, c: Cmd, rs: seq<Redirection>)
    requires CmdOk(b, c) && RedirsOk(b, rs)
    ensures CmdOk(b, Wrap(c, rs))
    decreases |rs|
  {
    if rs != [] {
      WrapOk(b, Redir(c, rs[0].file, rs[0].mode), rs[1..]);
    }
  }

  lemma {:induction false} WrapMore(c: Cmd, rs: seq<Redirection>, r: Redirection)
    ensures Wrap(c, rs + [r]) == Redir(Wrap(c, rs), r.file, r.mode)
    decreases |rs|
  {
    if rs == [] {
      assert [r][1..] == [] && (rs + [r]) == [r];
    } else {
      assert (rs + [r])[1..] == rs[1..] + [r];
      WrapMore(Redir(c, rs[0].file, rs[0].mode), rs[1..], r);
    }
  }

  // ---- the grammar

  /** A parse that ended before position `p`, or `panic`. */
  datatype Result<T> = Ok(v: T, p: nat) | Panic

  function ModeOf(tok: char): Mode {
    if tok == '<' then In else if tok == '>' then Out else Append
  }

  /** `parseredirs`. */
  function ParseRedirs(b: string, p: nat): (r: Result<seq<Redirection>>)
    requires p <= |b| && NoNul(b)
    ensures r.Ok? ==> p <= r.p <= |b| && RedirsOk(b, r.v) && !(At(b, r.p) == '<' || At(b, r.p) == '>') && SkipSpace(b, r.p) == r.p
    decreases |b| - p
  {
    var s := SkipSpace(b, p);
    if At(b, s) == '<' || At(b, s) == '>' then
      var t := GetToken(b, s);
      var f := GetToken(b, t.p);
      if f.ret != 'a' then Panic
      else
        var rest := ParseRedirs(b, f.p);
        if rest.Panic? then Panic else Ok([Redirection(Span(f.q, f.eq), ModeOf(t.ret))] + rest.v, rest.p)
    else Ok([], s)
  }

  datatype Args = Args(argv: seq<Span>, redirs: seq<Redirection>)

  predicate EndsArgs(c: char) {
    c == '|' || c == ')' || c == '&' || c == ';'
  }

  /** The loop of `parseexec` when `argc` words have been read. */
  function ParseArgs(b: string, p: nat, argc: nat): (r: Result<Args>)
    requires p <= |b| && NoNul(b) && argc < MAXARGS
    ensures r.Ok? ==> p <= r.p <= |b| && SpansOk(b, r.v.argv) && RedirsOk(b, r.v.redirs) && argc + |r.v.argv| < MAXARGS
    decreases |b| - p
  {
    var s := SkipSpace(b, p);
    if EndsArgs(At(b, s)) then Ok(Args([], []), s)
    else
      var t := GetToken(b, s);
      if t.ret == '\0' then Ok(Args([], []), t.p)
      else if t.ret != 'a' || argc + 1 >= MAXARGS then Panic
      else
        var r := ParseRedirs(b, t.p);
        if r.Panic? then Panic
        else
          var rest := ParseArgs(b, r.p, argc + 1);
          if rest.Panic? then Panic
          else Ok(Args([Span(t.q, t.eq)] + rest.v.argv, r.v + rest.v.redirs), rest.p)
  }

  function ParseExec(b: string, p: nat): (r: Result<Cmd>)
    requires p <= |b| && NoNul(b)
    ensures r.Ok? ==> p <= r.p <= |b| && CmdOk(b, r.v)
    decreases |b| - p, 1
  {
    var s := SkipSpace(b, p);
    if At(b, s) == '(' then ParseBlock(b, s)
    else
      var r := ParseRedirs(b, s);
      if r.Panic? then Panic
      else
        var a := ParseArgs(b, r.p, 0);
        if a.Panic? then Panic
        else
          WrapOk(b, Exec(a.v.argv), r.v + a.v.redirs);
          Ok(Wrap(Exec(a.v.argv), r.v + a.v.redirs), a.p)
  }

  function ParseBlock(b: string, p: nat): (r: Result<Cmd>)
    requires p < |b| && NoNul(b) && b[p] == '('
    ensures r.Ok? ==> p <= r.p <= |b| && CmdOk(b, r.v)
    decreases |b| - p, 0
  {
    var t := GetToken(b, p);
    var c := ParseLine(b, t.p);
    if c.Panic? then Panic
    else
      var s := SkipSpace(b, c.p);
      if At(b, s) != ')' then Panic
      else
        var r := ParseRedirs(b, GetToken(b, s).p);
        if r.Panic? then Panic
        else
          WrapOk(b, c.v, r.v);
          Ok(Wrap(c.v, r.v), r.p)
  }

  function ParsePipe(b: string, p: nat): (r: Result<Cmd>)
    requires p <= |b| && NoNul(b)
    ensures r.Ok? ==> p <= r.p <= |b| && CmdOk(b, r.v)
    decreases |b| - p, 2
  {
    var c := ParseExec(b, p);
    if c.Panic? then Panic
    else
      var s := SkipSpace(b, c.p);
      if At(b, s) == '|' then
        var d := ParsePipe(b, GetToken(b, s).p);
        if d.Panic? then Panic else Ok(Pipe(c.v, d.v), d.p)
      else Ok(c.v, s)
  }

  /** The loop of `parseline` over '&'. */
  function ParseBacks(b: string, p: nat, c: Cmd): (r: Result<Cmd>)
    requires p <= |b| && NoNul(b)
    ensures r.Ok? && p <= r.p <= |b| && (CmdOk(b, c) ==> CmdOk(b, r.v))
    decreases |b| - p
  {
    var s := SkipSpace(b, p);
    if At(b, s) == '&' then ParseBacks(b, GetToken(b, s).p, Back(c)) else Ok(c, s)
  }

  function ParseLine(b: string, p: nat): (r: Result<Cmd>)
    requires p <= |b| && NoNul(b)
    ensures r.Ok? ==> p <= r.p <= |b| && CmdOk(b, r.v)
    decreases |b| - p, 3
  {
    var c := ParsePipe(b, p);
    if c.Panic? then Panic
    else
      var k := ParseBacks(b, c.p, c.v);
      var s := SkipSpace(b, k.p);
      if At(b, s) == ';' then
        var d := ParseLine(b, GetToken(b, s).p);
        if d.Panic? then Panic else Ok(List(k.v, d.v), d.p)
      else Ok(k.v, s)
  }

  /** `parsecmd` up to `nulterminate`. */
  function ParseCmd(b: string): (r: Result<Cmd>)
    requires NoNul(b)
    ensures r.Ok? ==> CmdOk(b, r.v)
  {
    var c := ParseLine(b, 0);
    if c.Panic? || SkipSpace(b, c.p) != |b| then Panic else Ok(c.v, |b|)
  }
}
