/** The parser of user/sh.c as it runs: a cursor moves through the input, which
    is cut into strings in place once the whole command has been read. */
module Shell {
  import opened ShellSyntax

  function SpansOf(c: Cmd): set<Span> {
    match c
    case Exec(ws) => set k | 0 <= k < |ws| :: ws[k]
    case Redir(d, f, _) => SpansOf(d) + {f}
    case Pipe(l, r) => SpansOf(l) + SpansOf(r)
    case List(l, r) => SpansOf(l) + SpansOf(r)
    case Back(d) => SpansOf(d)
  }

  lemma {:induction false} SpansAreOk(b: string, c: Cmd)
    requires CmdOk(b, c)
    ensures forall w :: w in SpansOf(c) ==> SpanOk(b, w)
    decreases c
  {
    match c
    case Exec(ws) =>
    case Redir(d, _, _) => SpansAreOk(b, d);
    case Pipe(l, r) =>
      SpansAreOk(b, l);
      SpansAreOk(b, r);
    case List(l, r) =>
      SpansAreOk(b, l);
      SpansAreOk(b, r);
    case Back(d) => SpansAreOk(b, d);
  }

  /** The positions that `nulterminate` writes. */
  function Cuts(c: Cmd): set<nat> {
    set w | w in SpansOf(c) :: w.eq
  }

  /** No word of a command is cut by the end of another. */
  lemma CutsSpareWords(b: string, c: Cmd, w: Span, k: nat)
    requires CmdOk(b, c) && w in SpansOf(c) && w.q <= k < w.eq
    ensures k !in Cuts(c)
  {
    SpansAreOk(b, c);
  }

  class Parser {
    const s: array<char>
    const es: nat
    var ps: nat

    ghost predicate Valid()
      reads this, s
    {
      && es < s.Length && s[es] == '\0' && NoNul(s[..es]) && ps <= es
    }

    ghost function Text(): string
      reads this, s
      requires es <= s.Length
    {
      s[..es]
    }

    /** The start of `parsecmd`: the input is what comes before the first NUL. */
    constructor (input: array<char>)
      requires exists k :: 0 <= k < input.Length && input[k] == '\0'
      ensures Valid() && s == input && ps == 0
    {
      var k := 0;
      while input[k] != '\0'
        invariant 0 <= k < input.Length && (forall j :: 0 <= j < k ==> input[j] != '\0')
        invariant exists j :: k <= j < input.Length && input[j] == '\0'
        decreases input.Length - k
      {
        k := k + 1;
      }
      s := input;
      es := k;
      ps := 0;
    }

    /** The loop over whitespace. */
    method Skip(p0: nat) returns (p: nat)
      requires Valid() && p0 <= es
      ensures p == SkipSpace(Text(), p0)
    {
      hide NoNul, IsSpace;
      ghost var b := Text();
      p := p0;
      while p < es && IsSpace(s[p])
        invariant p0 <= p <= es && SkipSpace(b, p) == SkipSpace(b, p0)
      {
        p := p + 1;
      }
    }

    /** The switch of `gettoken` at position `q`. */
    method LexAt(q: nat) returns (ret: char, p: nat)
      requires Valid() && q <= es
      ensures (ret, p) == Lex(Text(), q)
    {
      hide IsSpace;
      ghost var b := Text();
      p := q;
      ret := s[p];
      if s[p] == '\0' {
      } else if s[p] == '>' {
        p := p + 1;
        if s[p] == '>' {
          ret := '+';
          p := p + 1;
        }
      } else if IsSymbol(s[p]) {
        p := p + 1;
      } else {
        ret := 'a';
        while p < es && !IsSpace(s[p]) && !IsSymbol(s[p])
          invariant q <= p <= es && WordEnd(b, p) == WordEnd(b, q)
        {
          p := p + 1;
        }
      }
    }

    method Gettoken() returns (ret: char, q: nat, eq: nat)
      requires Valid()
      modifies this`ps
      ensures Valid() && Token(ret, q, eq, ps) == GetToken(Text(), old(ps))
    {
      hide Lex, SpanOk;
      q := Skip(ps);
      ret, eq := LexAt(q);
      ghost var t := GetToken(Text(), ps);
      ps := Skip(eq);
    }

    method Peek(toks: string) returns (r: bool)
      requires Valid()
      modifies this`ps
      ensures Valid() && ps == SkipSpace(Text(), old(ps)) && r == (At(Text(), ps) != '\0' && At(Text(), ps) in toks)
    {
      ps := Skip(ps);
      r := s[ps] != '\0' && s[ps] in toks;
    }

    /** `parseredirs`; `ok` is false where the source calls `panic`. */
    method ParseRedirs() returns (ok: bool, rs: seq<Redirection>)
      requires Valid()
      modifies this`ps
      ensures Valid() && ShellSyntax.ParseRedirs(Text(), old(ps)) == if ok then Ok(rs, ps) else Panic
    {
      hide IsSpace, IsSymbol, IsWordChar, SpanOk, RedirsOk, NoNul, SkipSpace, GetToken, ShellSyntax.ParseRedirs;
      ghost var b, p0 := Text(), ps;
      ok, rs := true, [];
      var more := Peek("<>");
      NoRedirsYet(b, p0);
      while more
        invariant Valid() && Text() == b && ps == SkipSpace(b, ps) && more == (At(b, ps) == '<' || At(b, ps) == '>')
        invariant ShellSyntax.ParseRedirs(b, p0) == Before(rs, ShellSyntax.ParseRedirs(b, ps))
        decreases es - ps
      {
        ghost var p1 := ps;
        OneRedir(b, p1);
        var tok, _, _ := Gettoken();
        var ret, q, eq := Gettoken();
        if ret != 'a' {
          return false, [];
        }
        BeforeSnoc(rs, Redirection(Span(q, eq), ModeOf(tok)), ShellSyntax.ParseRedirs(b, ps));
        rs := rs + [Redirection(Span(q, eq), ModeOf(tok))];
        NoRedirsYet(b, ps);
        more := Peek("<>");
      }
      RedirsDone(b, ps, rs);
    }

    static lemma NoRedirsYet(b: string, p: nat)
      requires p <= |b| && NoNul(b)
      ensures ShellSyntax.ParseRedirs(b, SkipSpace(b, p)) == ShellSyntax.ParseRedirs(b, p)
      ensures SkipSpace(b, SkipSpace(b, p)) == SkipSpace(b, p)
      ensures forall r :: Before([], r) == r
    {
      forall r ensures Before([], r) == r {
        assert r.Ok? ==> [] + r.v == r.v;
      }
    }

    static lemma RedirsDone(b: string, p: nat, rs: seq<Redirection>)
      requires p <= |b| && NoNul(b) && SkipSpace(b, p) == p && At(b, p) != '<' && At(b, p) != '>'
      ensures Before(rs, ShellSyntax.ParseRedirs(b, p)) == Ok(rs, p)
    {
      assert rs + [] == rs;
    }

    /** One round of the loop of `parseredirs`. */
    static lemma OneRedir(b: string, p: nat)
      requires p <= |b| && NoNul(b) && SkipSpace(b, p) == p && (At(b, p) == '<' || At(b, p) == '>')
      ensures var t := GetToken(b, p);
              var f := GetToken(b, t.p);
              && p < t.p <= |b| && p < f.p <= |b|
              && ShellSyntax.ParseRedirs(b, p) ==
                 if f.ret != 'a' then Panic else Before([Redirection(Span(f.q, f.eq), ModeOf(t.ret))], ShellSyntax.ParseRedirs(b, f.p))
    {
      hide GetToken;
    }

    /** A list of redirections in front of those still to be parsed. */
    static function Before(rs: seq<Redirection>, r: Result<seq<Redirection>>): Result<seq<Redirection>> {
      if r.Panic? then Panic else Ok(rs + r.v, r.p)
    }

    static lemma BeforeSnoc(rs: seq<Redirection>, x: Redirection, r: Result<seq<Redirection>>)
      ensures Before(rs + [x], r) == Before(rs, Before([x], r))
    {
      if r.Ok? {
        assert rs + [x] + r.v == rs + ([x] + r.v);
      }
    }

    /** What the loop of `parseexec` has collected, in front of what is still to be parsed. */
    static function After(argv: seq<Span>, rs: seq<Redirection>, r: Result<Args>): Result<Args> {
      if r.Panic? then Panic else Ok(Args(argv + r.v.argv, rs + r.v.redirs), r.p)
    }

    static lemma AfterSnoc(argv: seq<Span>, rs: seq<Redirection>, w: Span, qs: seq<Redirection>, r: Result<Args>)
      ensures After(argv + [w], rs + qs, r) == After(argv, rs, After([w], qs, r))
    {
      if r.Ok? {
        assert argv + [w] + r.v.argv == argv + ([w] + r.v.argv);
        assert rs + qs + r.v.redirs == rs + (qs + r.v.redirs);
      }
    }

    static lemma AfterNone(rs: seq<Redirection>, r: Result<Args>)
      ensures After([], rs, r) == if r.Panic? then Panic else Ok(Args(r.v.argv, rs + r.v.redirs), r.p)
    {
      assert r.Ok? ==> [] + r.v.argv == r.v.argv;
    }

    static lemma AfterDone(argv: seq<Span>, rs: seq<Redirection>, p: nat)
      ensures After(argv, rs, Ok(Args([], []), p)) == Ok(Args(argv, rs), p)
    {
      assert argv + [] == argv && rs + [] == rs;
    }

    /** One round of the loop of `parseexec`. */
    static lemma OneArg(b: string, p: nat, argc: nat)
      requires p <= |b| && NoNul(b) && argc < MAXARGS && SkipSpace(b, p) == p
      ensures var t := GetToken(b, p);
              ParseArgs(b, p, argc) ==
              if EndsArgs(At(b, p)) then Ok(Args([], []), p)
              else if t.ret == '\0' then Ok(Args([], []), t.p)
              else if t.ret != 'a' || argc + 1 >= MAXARGS then Panic
              else
                var r := ShellSyntax.ParseRedirs(b, t.p);
                if r.Panic? then Panic else After([Span(t.q, t.eq)], r.v, ParseArgs(b, r.p, argc + 1))
    {
      hide GetToken, ShellSyntax.ParseRedirs;
    }

    static lemma ArgsSkip(b: string, p: nat, argc: nat)
      requires p <= |b| && NoNul(b) && argc < MAXARGS
      ensures SkipSpace(b, SkipSpace(b, p)) == SkipSpace(b, p)
      ensures ParseArgs(b, SkipSpace(b, p), argc) == ParseArgs(b, p, argc)
    {
      hide GetToken, ShellSyntax.ParseRedirs;
    }

    static lemma EndOfArgs(c: char)
      ensures (c != '\0' && c in "|)&;") == EndsArgs(c)
    {
    }

    /** The words of a simple command; `argv` never overflows. */
    method ParseWords(rs0: seq<Redirection>) returns (ok: bool, words: seq<Span>, rs: seq<Redirection>)
      requires Valid()
      modifies this`ps
      ensures Valid() && After([], rs0, ParseArgs(Text(), old(ps), 0)) == if ok then Ok(Args(words, rs), ps) else Panic
    {
      hide IsSpace, IsSymbol, IsWordChar, SpanOk, SpansOk, RedirsOk, NoNul, SkipSpace, GetToken, ShellSyntax.ParseRedirs, ParseArgs, EndsArgs;
      ghost var b, p0 := Text(), ps;
      var argv := new Span[MAXARGS](k => Span(0, 0));
      var argc := 0;
      rs, words := rs0, [];
      ArgsSkip(b, p0, 0);
      var stop := Peek("|)&;");
      EndOfArgs(At(b, ps));
      while !stop
        invariant Valid() && Text() == b && ps == SkipSpace(b, ps) && stop == EndsArgs(At(b, ps))
        invariant argc < MAXARGS && argv.Length == MAXARGS && words == argv[..argc] && |words| == argc && fresh(argv)
        invariant After([], rs0, ParseArgs(b, p0, 0)) == After(words, rs, ParseArgs(b, ps, argc))
        decreases es - ps
      {
        OneArg(b, ps, argc);
        var tok, q, eq := Gettoken();
        if tok == '\0' {
          AfterDone(words, rs, ps);
          return true, words, rs;
        }
        if tok != 'a' {
          return false, [], [];
        }
        argv[argc] := Span(q, eq);
        argc := argc + 1;
        if argc >= MAXARGS {
          return false, [], [];
        }
        var more, qs := ParseRedirs();
        if !more {
          return false, [], [];
        }
        AfterSnoc(words, rs, Span(q, eq), qs, ParseArgs(b, ps, argc));
        assert argv[..argc] == words + [Span(q, eq)];
        words := argv[..argc];
        rs := rs + qs;
        ArgsSkip(b, ps, argc);
        stop := Peek("|)&;");
        EndOfArgs(At(b, ps));
      }
      argv[argc] := Span(0, 0);
      OneArg(b, ps, argc);
      AfterDone(words, rs, ps);
      ok := true;
    }

    method ParseExec() returns (ok: bool, c: Cmd)
      requires Valid()
      modifies this`ps
      ensures Valid() && ShellSyntax.ParseExec(Text(), old(ps)) == if ok then Ok(c, ps) else Panic
      decreases es - ps, 1
    {
      hide IsSpace, IsSymbol, IsWordChar, SpanOk, SpansOk, RedirsOk, NoNul, SkipSpace, GetToken, ShellSyntax.ParseRedirs, ParseArgs, ShellSyntax.ParseBlock, CmdOk;
      ghost var b := Text();
      c := Exec([]);
      var block := Peek("(");
      if block {
        ok, c := ParseBlock();
        return;
      }
      var more, rs := ParseRedirs();
      if !more {
        return false, c;
      }
      var words;
      AfterNone(rs, ParseArgs(b, ps, 0));
      ok, words, rs := ParseWords(rs);
      if ok {
        c := Wrap(Exec(words), rs);
      }
    }

    method ParseBlock() returns (ok: bool, c: Cmd)
      requires Valid() && ps < es && s[ps] == '('
      modifies this`ps
      ensures Valid() && ShellSyntax.ParseBlock(Text(), old(ps)) == if ok then Ok(c, ps) else Panic
      decreases es - ps, 0
    {
      hide IsSpace, IsWordChar, SpanOk, SpansOk, RedirsOk, NoNul, SkipSpace, GetToken, ShellSyntax.ParseRedirs, ShellSyntax.ParseLine, CmdOk, Wrap;
      var _, _, _ := Gettoken();
      ok, c := ParseLine();
      if !ok {
        return;
      }
      var close := Peek(")");
      if !close {
        return false, c;
      }
      var _, _, _ := Gettoken();
      var more, rs := ParseRedirs();
      if !more {
        return false, c;
      }
      c := Wrap(c, rs);
    }

    method ParsePipe() returns (ok: bool, c: Cmd)
      requires Valid()
      modifies this`ps
      ensures Valid() && ShellSyntax.ParsePipe(Text(), old(ps)) == if ok then Ok(c, ps) else Panic
      decreases es - ps, 2
    {
      hide IsSpace, IsWordChar, SpanOk, NoNul, SkipSpace, GetToken, ShellSyntax.ParseExec, CmdOk;
      ok, c := ParseExec();
      if !ok {
        return;
      }
      var bar := Peek("|");
      if bar {
        var _, _, _ := Gettoken();
        var d;
        ok, d := ParsePipe();
        c := Pipe(c, d);
      }
    }

    method ParseLine() returns (ok: bool, c: Cmd)
      requires Valid()
      modifies this`ps
      ensures Valid() && ShellSyntax.ParseLine(Text(), old(ps)) == if ok then Ok(c, ps) else Panic
      decreases es - ps, 3
    {
      hide IsSpace, IsWordChar, SpanOk, NoNul, SkipSpace, GetToken, ShellSyntax.ParsePipe, ParseBacks, CmdOk;
      ghost var b, p0 := Text(), ps;
      ok, c := ParsePipe();
      if !ok {
        return;
      }
      ghost var p1, c1 := ps, c;
      BacksSkip(b, p1, c1);
      var amp := Peek("&");
      while amp
        invariant Valid() && Text() == b && p0 <= ps == SkipSpace(b, ps) && amp == (At(b, ps) == '&')
        invariant ParseBacks(b, p1, c1) == ParseBacks(b, ps, c)
        decreases es - ps
      {
        OneBack(b, ps, c);
        var _, _, _ := Gettoken();
        c := Back(c);
        BacksSkip(b, ps, c);
        amp := Peek("&");
      }
      NoBack(b, ps, c);
      var semi := Peek(";");
      if semi {
        var _, _, _ := Gettoken();
        var d;
        ok, d := ParseLine();
        c := List(c, d);
      }
    }

    static lemma BacksSkip(b: string, p: nat, c: Cmd)
      requires p <= |b| && NoNul(b)
      ensures ParseBacks(b, SkipSpace(b, p), c) == ParseBacks(b, p, c) && SkipSpace(b, SkipSpace(b, p)) == SkipSpace(b, p)
    {
      hide GetToken;
    }

    static lemma OneBack(b: string, p: nat, c: Cmd)
      requires p <= |b| && NoNul(b) && SkipSpace(b, p) == p && At(b, p) == '&'
      ensures p < GetToken(b, p).p && ParseBacks(b, p, c) == ParseBacks(b, GetToken(b, p).p, Back(c))
    {
      hide GetToken;
    }

    static lemma NoBack(b: string, p: nat, c: Cmd)
      requires p <= |b| && NoNul(b) && SkipSpace(b, p) == p && At(b, p) != '&'
      ensures ParseBacks(b, p, c) == Ok(c, p)
    {
    }

    /** `nulterminate` writes the terminators and nothing else. */
    method Nulterminate(c: Cmd)
      requires forall w :: w in SpansOf(c) ==> w.eq < s.Length
      modifies s
      ensures forall k :: 0 <= k < s.Length ==> s[k] == if k in Cuts(c) then '\0' else old(s[k])
      decreases c
    {
      match c
      case Exec(ws) =>
        var i := 0;
        while i < |ws|
          invariant 0 <= i <= |ws|
          invariant forall k :: 0 <= k < s.Length ==> s[k] == if (exists j :: 0 <= j < i && ws[j].eq == k) then '\0' else old(s[k])
        {
          assert ws[i] in SpansOf(c);
          s[ws[i].eq] := '\0';
          i := i + 1;
        }
        forall k | 0 <= k < s.Length ensures k in Cuts(c) <==> exists j :: 0 <= j < |ws| && ws[j].eq == k {
          forall j | 0 <= j < |ws| ensures ws[j] in SpansOf(c) {
          }
        }
      case Redir(d, f, _) =>
        Nulterminate(d);
        s[f.eq] := '\0';
      case Pipe(l, r) =>
        Nulterminate(l);
        Nulterminate(r);
      case List(l, r) =>
        Nulterminate(l);
        Nulterminate(r);
      case Back(d) =>
        Nulterminate(d);
    }

    /** The NUL-terminated string at position `q` of the buffer is `t`. */
    static predicate StringAt(a: seq<char>, q: nat, t: string) {
      q + |t| < |a| && a[q..q + |t|] == t && a[q + |t|] == '\0' && NoNul(t)
    }

    /** `parsecmd`: the command that the grammar gives, or a panic; afterwards every
        word of it is a string of its own in the buffer. */
    method ParseCmd() returns (ok: bool, c: Cmd)
      requires Valid() && ps == 0
      modifies this`ps, s
      ensures ShellSyntax.ParseCmd(old(Text())) == if ok then Ok(c, es) else Panic
      ensures ok ==> forall w :: w in SpansOf(c) ==> w.q < w.eq <= es && StringAt(s[..], w.q, old(Text())[w.q..w.eq])
      ensures !ok ==> s[..] == old(s[..])
    {
      ghost var b := Text();
      ok, c := ParseLine();
      if !ok {
        return;
      }
      var _ := Peek("");
      if ps != es {
        return false, c;
      }
      SpansAreOk(b, c);
      ghost var a0 := s[..];
      Nulterminate(c);
      AllTerminated(a0, s[..], b, c);
    }

    static lemma AllTerminated(a0: seq<char>, a: seq<char>, b: string, c: Cmd)
      requires CmdOk(b, c) && NoNul(b) && |b| < |a0| == |a| && a0[..|b|] == b
      requires forall k :: 0 <= k < |a| ==> a[k] == if k in Cuts(c) then '\0' else a0[k]
      ensures forall w :: w in SpansOf(c) ==> w.q < w.eq <= |b| && StringAt(a, w.q, b[w.q..w.eq])
    {
      SpansAreOk(b, c);
      forall w | w in SpansOf(c) ensures w.q < w.eq <= |b| && StringAt(a, w.q, b[w.q..w.eq]) {
        assert SpanOk(b, w);
        assert w.eq in Cuts(c);
        OneTerminated(a0, a, b, c, w);
      }
    }

    static lemma OneTerminated(a0: seq<char>, a: seq<char>, b: string, c: Cmd, w: Span)
      requires CmdOk(b, c) && NoNul(b) && |b| < |a0| == |a| && a0[..|b|] == b && w in SpansOf(c) && SpanOk(b, w) && w.eq in Cuts(c)
      requires forall k :: 0 <= k < |a| ==> a[k] == if k in Cuts(c) then '\0' else a0[k]
      ensures StringAt(a, w.q, b[w.q..w.eq])
    {
      hide CmdOk, Cuts, SpansOf, IsWordChar;
      forall k | w.q <= k < w.eq ensures a[k] == b[k] {
        CutsSpareWords(b, c, w, k);
        assert a0[k] == a0[..|b|][k];
      }
      assert a[w.q..w.eq] == b[w.q..w.eq];
    }
  }
}
