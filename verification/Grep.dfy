/** The pattern matcher and the line filter of user/grep.c. */
module Grep {
  // ---- what a pattern means

  /** A character of a pattern ('.' is any), or any number of them. */
  datatype Item = One(c: char) | Star(c: char)

  /** A pattern behind an optional '^'. */
  datatype Pattern = Pattern(items: seq<Item>, toEnd: bool)

  predicate Fits(c: char, t: char) {
    c == '.' || c == t
  }

  predicate NoNul(t: string) {
    forall k :: 0 <= k < |t| ==> t[k] != '\0'
  }

  /** How a pattern string is read: a '*' takes the character before it, whatever
      that is, and '$' is special as the last character only. */
  function Read(re: string): (p: Pattern)
    decreases |re|
  {
    if re == "" then Pattern([], false)
    else if |re| >= 2 && re[1] == '*' then
      var r := Read(re[2..]); Pattern([Star(re[0])] + r.items, r.toEnd)
    else if re == "$" then Pattern([], true)
    else
      var r := Read(re[1..]); Pattern([One(re[0])] + r.items, r.toEnd)
  }

  predicate ItemMatches(x: Item, w: string) {
    match x
    case One(c) => |w| == 1 && Fits(c, w[0])
    case Star(c) => forall k :: 0 <= k < |w| ==> Fits(c, w[k])
  }

  /** The string is a concatenation of strings that the items match, in order. */
  ghost predicate InLanguage(items: seq<Item>, w: string)
    decreases |items|
  {
    if items == [] then w == ""
    else exists k :: 0 <= k <= |w| && ItemMatches(items[0], w[..k]) && InLanguage(items[1..], w[k..])
  }

  /** Some prefix of the text, or all of it if the pattern ends in '$', is in the language. */
  ghost predicate PrefixMatches(p: Pattern, text: string) {
    exists j :: 0 <= j <= |text| && (p.toEnd ==> j == |text|) && InLanguage(p.items, text[..j])
  }

  // ---- the matcher

  function MatchHere(re: string, text: string): bool
    decreases |re|, |text| + 1
  {
    if re == "" then true
    else if |re| >= 2 && re[1] == '*' then MatchStar(re[0], re[2..], text)
    else if re == "$" then text == ""
    else text != "" && (re[0] == '.' || re[0] == text[0]) && MatchHere(re[1..], text[1..])
  }

  function MatchStar(c: char, re: string, text: string): bool
    decreases |re| + 1, |text|
  {
    MatchHere(re, text) || (text != "" && (text[0] == c || c == '.') && MatchStar(c, re, text[1..]))
  }

  function MatchFrom(re: string, text: string): bool
    decreases |text|
  {
    MatchHere(re, text) || (text != "" && MatchFrom(re, text[1..]))
  }

  /** `match`. */
  function Match(re: string, text: string): bool {
    if re != "" && re[0] == '^' then MatchHere(re[1..], text) else MatchFrom(re, text)
  }

  // ---- the matcher finds exactly what the pattern means

  lemma ConsItem(x: Item, items: seq<Item>, w: string, k: nat)
    requires k <= |w| && ItemMatches(x, w[..k]) && InLanguage(items, w[k..])
    ensures InLanguage([x] + items, w)
  {
    assert ([x] + items)[1..] == items;
  }

  lemma UnconsItem(x: Item, items: seq<Item>, w: string) returns (k: nat)
    requires InLanguage([x] + items, w)
    ensures k <= |w| && ItemMatches(x, w[..k]) && InLanguage(items, w[k..])
  {
    assert ([x] + items)[1..] == items;
    var k0 :| 0 <= k0 <= |w| && ItemMatches(([x] + items)[0], w[..k0]) && InLanguage(([x] + items)[1..], w[k0..]);
    k := k0;
  }

  lemma {:induction false} HereIsPrefix(re: string, text: string)
    ensures MatchHere(re, text) <==> PrefixMatches(Read(re), text)
    decreases |re|, |text| + 1
  {
    var p := Read(re);
    if re == "" {
      assert text[..0] == "" && InLanguage([], text[..0]);
    } else if |re| >= 2 && re[1] == '*' {
      StarIsPrefix(re[0], re[2..], text);
    } else if re == "$" {
      assert InLanguage([], text[..|text|]) <==> text == "";
    } else if text == "" {
      EmptyText(re[0], Read(re[1..]));
    } else {
      HereIsPrefix(re[1..], text[1..]);
      OneStep(re[0], Read(re[1..]), text);
    }
  }

  lemma EmptyText(c: char, p: Pattern)
    ensures !PrefixMatches(Pattern([One(c)] + p.items, p.toEnd), "")
  {
    forall j | 0 <= j <= |""| && InLanguage([One(c)] + p.items, ""[..j]) ensures false {
      var k := UnconsItem(One(c), p.items, ""[..j]);
    }
  }

  lemma OneStep(c: char, p: Pattern, text: string)
    requires text != ""
    ensures PrefixMatches(Pattern([One(c)] + p.items, p.toEnd), text) <==> Fits(c, text[0]) && PrefixMatches(p, text[1..])
  {
    var q := Pattern([One(c)] + p.items, p.toEnd);
    if PrefixMatches(q, text) {
      var j :| 0 <= j <= |text| && (q.toEnd ==> j == |text|) && InLanguage(q.items, text[..j]);
      var k := UnconsItem(One(c), p.items, text[..j]);
      assert text[..j][..k] == [text[0]];
      assert text[..j][k..] == text[1..][..j - 1];
    }
    if Fits(c, text[0]) && PrefixMatches(p, text[1..]) {
      var j :| 0 <= j <= |text[1..]| && (p.toEnd ==> j == |text[1..]|) && InLanguage(p.items, text[1..][..j]);
      assert text[..j + 1][..1] == [text[0]];
      assert text[..j + 1][1..] == text[1..][..j];
      ConsItem(One(c), p.items, text[..j + 1], 1);
    }
  }

  lemma {:induction false} StarIsPrefix(c: char, re: string, text: string)
    ensures MatchStar(c, re, text) <==> PrefixMatches(Pattern([Star(c)] + Read(re).items, Read(re).toEnd), text)
    decreases |re| + 1, |text|
  {
    HereIsPrefix(re, text);
    if text != "" {
      StarIsPrefix(c, re, text[1..]);
    }
    StarStep(c, Read(re), text);
  }

  lemma StarStep(c: char, p: Pattern, text: string)
    ensures var q := Pattern([Star(c)] + p.items, p.toEnd);
            PrefixMatches(q, text) <==> PrefixMatches(p, text) || (text != "" && Fits(c, text[0]) && PrefixMatches(q, text[1..]))
  {
    var q := Pattern([Star(c)] + p.items, p.toEnd);
    hide InLanguage, PrefixMatches;
    if PrefixMatches(q, text) {
      StarEats(c, p, text);
    }
    if PrefixMatches(p, text) {
      StarNone(c, p, text);
    }
    if text != "" && Fits(c, text[0]) && PrefixMatches(q, text[1..]) {
      StarMore(c, p, text);
    }
  }

  /** Slices of slices. */
  lemma Slices(s: string, a: nat, b: nat, k: nat)
    requires a <= k <= b <= |s|
    ensures s[a..b][..k - a] == s[a..k] && s[a..b][k - a..] == s[k..b]
    ensures s[..b][..k] == s[..k] && s[..b][k..] == s[k..b] && s[a..][..b - a] == s[a..b]
  {
  }

  lemma StarEats(c: char, p: Pattern, text: string)
    requires PrefixMatches(Pattern([Star(c)] + p.items, p.toEnd), text)
    ensures PrefixMatches(p, text) || (text != "" && Fits(c, text[0]) && PrefixMatches(Pattern([Star(c)] + p.items, p.toEnd), text[1..]))
  {
    hide InLanguage;
    var q := Pattern([Star(c)] + p.items, p.toEnd);
    var j :| 0 <= j <= |text| && (q.toEnd ==> j == |text|) && InLanguage(q.items, text[..j]);
    var k := UnconsItem(Star(c), p.items, text[..j]);
    if k == 0 {
      assert text[..j][0..] == text[..j];
    } else {
      assert text[..j][..k][0] == text[0];
      Slices(text, 1, j, k);
      FitsPart(c, text, k);
      ConsItem(Star(c), p.items, text[1..j], k - 1);
    }
  }

  lemma StarNone(c: char, p: Pattern, text: string)
    requires PrefixMatches(p, text)
    ensures PrefixMatches(Pattern([Star(c)] + p.items, p.toEnd), text)
  {
    hide InLanguage;
    var j :| 0 <= j <= |text| && (p.toEnd ==> j == |text|) && InLanguage(p.items, text[..j]);
    assert text[..j][0..] == text[..j];
    ConsItem(Star(c), p.items, text[..j], 0);
  }

  lemma StarMore(c: char, p: Pattern, text: string)
    requires text != "" && Fits(c, text[0]) && PrefixMatches(Pattern([Star(c)] + p.items, p.toEnd), text[1..])
    ensures PrefixMatches(Pattern([Star(c)] + p.items, p.toEnd), text)
  {
    hide InLanguage;
    var q := Pattern([Star(c)] + p.items, p.toEnd);
    var j :| 0 <= j <= |text[1..]| && (q.toEnd ==> j == |text[1..]|) && InLanguage(q.items, text[1..][..j]);
    var k := UnconsItem(Star(c), p.items, text[1..][..j]);
    Slices(text, 1, j + 1, k + 1);
    FitsMore(c, text, k + 1);
    ConsItem(Star(c), p.items, text[..j + 1], k + 1);
  }

  lemma FitsMore(c: char, text: string, k: nat)
    requires 1 <= k <= |text| && Fits(c, text[0]) && ItemMatches(Star(c), text[1..k])
    ensures ItemMatches(Star(c), text[..k])
  {
    assert text[..k] == [text[0]] + text[1..k];
  }

  lemma FitsPart(c: char, text: string, k: nat)
    requires 1 <= k <= |text| && ItemMatches(Star(c), text[..k])
    ensures ItemMatches(Star(c), text[1..k])
  {
    forall x | 0 <= x < k - 1 ensures Fits(c, text[1..k][x]) {
      assert text[1..k][x] == text[..k][x + 1];
    }
  }

  lemma {:induction false} FromIsSome(re: string, text: string)
    ensures MatchFrom(re, text) <==> exists i :: 0 <= i <= |text| && MatchHere(re, text[i..])
    decreases |text|
  {
    assert text[0..] == text;
    if text != "" {
      FromIsSome(re, text[1..]);
      forall i | 1 <= i <= |text| ensures text[i..] == text[1..][i - 1..] {
      }
      if MatchFrom(re, text[1..]) {
        var i :| 0 <= i <= |text[1..]| && MatchHere(re, text[1..][i..]);
        assert text[i + 1..] == text[1..][i..];
      }
      if i :| 0 <= i <= |text| && MatchHere(re, text[i..]) && !MatchHere(re, text) {
        assert text[i..] == text[1..][i - 1..];
      }
    }
  }

  /** The part [i, j) of the text is what the pattern stands for. */
  ghost predicate Occurs(p: Pattern, text: string, i: nat, j: nat) {
    i <= j <= |text| && (p.toEnd ==> j == |text|) && InLanguage(p.items, text[i..j])
  }

  lemma HereOccurs(re: string, text: string, i: nat) returns (j: nat)
    requires i <= |text| && MatchHere(re, text[i..])
    ensures Occurs(Read(re), text, i, j)
  {
    var p := Read(re);
    HereIsPrefix(re, text[i..]);
    var k :| 0 <= k <= |text[i..]| && (p.toEnd ==> k == |text[i..]|) && InLanguage(p.items, text[i..][..k]);
    assert text[i..][..k] == text[i..i + k];
    j := i + k;
  }

  lemma OccursHere(re: string, text: string, i: nat, j: nat)
    requires Occurs(Read(re), text, i, j)
    ensures i <= |text| && MatchHere(re, text[i..])
  {
    var p := Read(re);
    HereIsPrefix(re, text[i..]);
    assert text[i..][..j - i] == text[i..j];
    assert PrefixMatches(p, text[i..]);
  }

  predicate Anchored(re: string) {
    re != "" && re[0] == '^'
  }

  function Body(re: string): string {
    if Anchored(re) then re[1..] else re
  }

  /** Where a pattern occurs: only at the start if it begins with '^'. */
  ghost predicate Found(re: string, text: string, i: nat, j: nat) {
    (Anchored(re) ==> i == 0) && Occurs(Read(Body(re)), text, i, j)
  }

  /** match(re, text) is true exactly when some part of the text is in the language
      of the pattern: one at the start if it begins with '^', one at the end if it ends with '$'. */
  lemma MatchMeans(re: string, text: string)
    ensures Match(re, text) <==> exists i: nat, j: nat :: Found(re, text, i, j)
  {
    assert text[0..] == text;
    FromIsSome(re, text);
    if Match(re, text) {
      var i: nat := 0;
      if !Anchored(re) {
        i :| 0 <= i <= |text| && MatchHere(re, text[i..]);
      }
      var j := HereOccurs(Body(re), text, i);
      assert Found(re, text, i, j);
    }
    if i: nat, j: nat :| Found(re, text, i, j) {
      OccursHere(Body(re), text, i, j);
    }
  }

  // ---- the scanning loops

  method MatchM(re: string, text: string) returns (r: bool)
    ensures r == Match(re, text)
  {
    if re != "" && re[0] == '^' {
      r := MatchHereM(re[1..], text);
      return;
    }
    var t := 0;
    assert text[0..] == text;
    while true
      invariant 0 <= t <= |text| && MatchFrom(re, text) == MatchFrom(re, text[t..])
      decreases |text| - t
    {
      var here := MatchHereM(re, text[t..]);
      if here {
        return true;
      }
      if t == |text| {
        return false;
      }
      assert text[t..][1..] == text[t + 1..];
      t := t + 1;
    }
  }

  method MatchHereM(re: string, text: string) returns (r: bool)
    ensures r == MatchHere(re, text)
    decreases |re|, 1
  {
    if re == "" {
      return true;
    }
    if |re| >= 2 && re[1] == '*' {
      r := MatchStarM(re[0], re[2..], text);
      return;
    }
    if re == "$" {
      return text == "";
    }
    if text != "" && (re[0] == '.' || re[0] == text[0]) {
      r := MatchHereM(re[1..], text[1..]);
      return;
    }
    return false;
  }

  method MatchStarM(c: char, re: string, text: string) returns (r: bool)
    ensures r == MatchStar(c, re, text)
    decreases |re| + 1, 0
  {
    var t := 0;
    assert text[0..] == text;
    while true
      invariant 0 <= t <= |text| && MatchStar(c, re, text) == MatchStar(c, re, text[t..])
      decreases |text| - t
    {
      var here := MatchHereM(re, text[t..]);
      if here {
        return true;
      }
      if t == |text| || !(text[t] == c || c == '.') {
        return false;
      }
      assert text[t..][1..] == text[t + 1..];
      t := t + 1;
    }
  }

  // ---- the line filter

  const BUFSIZE: nat := 1024

  /** The position of the first newline, or the length of the string. */
  function LineEnd(s: string): (k: nat)
    ensures k <= |s| && (forall j :: 0 <= j < k ==> s[j] != '\n') && (k < |s| ==> s[k] == '\n')
  {
    if s == "" || s[0] == '\n' then 0 else 1 + LineEnd(s[1..])
  }

  /** The matching newline-terminated lines of the input, in order. */
  function Filter(re: string, s: string): string
    decreases |s|
  {
    var k := LineEnd(s);
    if k == |s| then "" else (if Match(re, s[..k]) then s[..k + 1] else "") + Filter(re, s[k + 1..])
  }

  /** Where the first line with more characters than the buffer holds begins. */
  function Cut(s: string): (c: nat)
    ensures c <= |s|
    decreases |s|
  {
    var k := LineEnd(s);
    if k >= BUFSIZE - 1 then 0
    else if k == |s| then |s|
    else k + 1 + Cut(s[k + 1..])
  }

  lemma LineEndIs(s: string, k: nat)
    requires k <= |s| && (forall j :: 0 <= j < k ==> s[j] != '\n') && (k < |s| ==> s[k] == '\n')
    ensures LineEnd(s) == k
  {
  }

  lemma FilterLine(re: string, s: string, k: nat)
    requires k < |s| && (forall j :: 0 <= j < k ==> s[j] != '\n') && s[k] == '\n'
    ensures Filter(re, s) == (if Match(re, s[..k]) then s[..k + 1] else "") + Filter(re, s[k + 1..])
  {
    hide Match;
    LineEndIs(s, k);
  }

  /** A prefix of whole lines is filtered on its own. */
  lemma {:induction false} FilterSplit(re: string, s: string, t: string)
    requires s == "" || s[|s| - 1] == '\n'
    ensures Filter(re, s + t) == Filter(re, s) + Filter(re, t)
    decreases |s|
  {
    hide Match, Filter;
    if s == "" {
      assert s + t == t;
      FilterNone(re);
      assert "" + Filter(re, t) == Filter(re, t);
    } else {
      var k := LineEnd(s);
      FilterLine(re, s, k);
      FilterLine(re, s + t, k);
      assert (s + t)[..k] == s[..k] && (s + t)[..k + 1] == s[..k + 1];
      assert (s + t)[k + 1..] == s[k + 1..] + t;
      FilterSplit(re, s[k + 1..], t);
    }
  }

  lemma FilterNone(re: string)
    ensures Filter(re, "") == ""
  {
  }

  lemma {:induction false} CutSplit(s: string, t: string)
    requires s == "" || s[|s| - 1] == '\n'
    requires Cut(s) == |s|
    ensures Cut(s + t) == |s| + Cut(t)
    decreases |s|
  {
    if s == "" {
      assert s + t == t;
    } else {
      var k := LineEnd(s);
      LineEndIs(s + t, k);
      assert (s + t)[k + 1..] == s[k + 1..] + t;
      CutSplit(s[k + 1..], t);
    }
  }

  /** No newline at all. */
  predicate NoLine(s: string) {
    forall k :: 0 <= k < |s| ==> s[k] != '\n'
  }

  predicate HasNewline(s: string, p: nat, q: nat) {
    exists j :: p <= j < q && j < |s| && s[j] == '\n'
  }

  /** Every line that ends in a newline has at most 1022 other characters. */
  predicate AllShort(s: string) {
    forall q :: BUFSIZE - 1 <= q < |s| && s[q] == '\n' ==> HasNewline(s, q - (BUFSIZE - 1), q)
  }

  /** If no line is longer than 1022 characters nothing is cut off. */
  lemma {:induction false} ShortLines(re: string, s: string)
    requires AllShort(s)
    ensures Filter(re, s[..Cut(s)]) == Filter(re, s)
    decreases |s|
  {
    hide Match, Filter, Cut;
    var k := LineEnd(s);
    CutStep(s);
    if k == |s| {
      FilterPartial(re, s[..Cut(s)]);
      FilterPartial(re, s);
    } else {
      assert s[k] == '\n';
      var t := s[k + 1..];
      ShortRest(s, k);
      ShortLines(re, t);
      FilterSplit(re, s[..k + 1], t[..Cut(t)]);
      FilterSplit(re, s[..k + 1], t);
      assert s[..k + 1] + t[..Cut(t)] == s[..Cut(s)] && s[..k + 1] + t == s;
    }
  }

  lemma CutStep(s: string)
    ensures var k := LineEnd(s);
            Cut(s) == if k >= BUFSIZE - 1 then 0 else if k == |s| then |s| else k + 1 + Cut(s[k + 1..])
  {
    hide LineEnd;
  }

  lemma FilterPartial(re: string, s: string)
    requires NoLine(s)
    ensures Filter(re, s) == ""
  {
    LineEndIs(s, |s|);
  }

  lemma ShortRest(s: string, k: nat)
    requires AllShort(s) && k < |s|
    ensures AllShort(s[k + 1..])
  {
    var t := s[k + 1..];
    forall q | BUFSIZE - 1 <= q < |t| && t[q] == '\n' ensures HasNewline(t, q - (BUFSIZE - 1), q) {
      assert s[q + k + 1] == '\n';
      var j :| q + k + 1 - (BUFSIZE - 1) <= j < q + k + 1 && j < |s| && s[j] == '\n';
      assert t[j - k - 1] == '\n';
    }
  }

  lemma {:induction false} CutEndsLine(s: string)
    ensures Cut(s) == 0 || Cut(s) == |s| || s[Cut(s) - 1] == '\n'
    decreases |s|
  {
    hide Cut;
    CutStep(s);
    var k := LineEnd(s);
    if k < BUFSIZE - 1 && k < |s| {
      CutEndsLine(s[k + 1..]);
    }
  }

  /** What is cut off are the matching lines from the first overlong one on. */
  lemma CutOff(re: string, s: string)
    ensures Filter(re, s) == Filter(re, s[..Cut(s)]) + Filter(re, s[Cut(s)..])
  {
    hide Filter, Cut;
    CutEndsLine(s);
    assert s[..Cut(s)] + s[Cut(s)..] == s;
    if Cut(s) == |s| {
      FilterNone(re);
      assert s[..Cut(s)] == s && s[Cut(s)..] == "";
    } else {
      FilterSplit(re, s[..Cut(s)], s[Cut(s)..]);
    }
  }

  /** For all patterns the filter prints all that matches exactly when no line of
      the input has more than 1022 characters before its newline. */
  lemma PrintsAllIff(s: string)
    ensures (forall re :: Filter(re, s[..Cut(s)]) == Filter(re, s)) <==> AllShort(s)
  {
    hide Filter, Cut;
    if AllShort(s) {
      forall re ensures Filter(re, s[..Cut(s)]) == Filter(re, s) {
        ShortLines(re, s);
      }
    } else {
      var q :| BUFSIZE - 1 <= q < |s| && s[q] == '\n' && !HasNewline(s, q - (BUFSIZE - 1), q);
      CutBefore(s, q);
      CutOff("", s);
      var t := s[Cut(s)..];
      assert t[q - Cut(s)] == '\n';
      EmptyPrints(t, q - Cut(s));
      assert |Filter("", s)| > |Filter("", s[..Cut(s)])|;
    }
  }

  /** A line of 1023 characters that the pattern matches is not printed. */
  lemma OverlongLost()
    ensures var s := seq(BUFSIZE - 1, i => 'a') + "\n";
            !AllShort(s) && Filter("a", s) == s && Filter("a", s[..Cut(s)]) == ""
  {
    var s := seq(BUFSIZE - 1, i => 'a') + "\n";
    LineEndIs(s, BUFSIZE - 1);
    CutStep(s);
    FilterLine("a", s, BUFSIZE - 1);
    FilterNone("a");
    assert s[..BUFSIZE] == s && s[BUFSIZE..] == "" && s[..0] == "";
    assert MatchHere("a"[1..], s[..BUFSIZE - 1][1..]);
    assert MatchHere("a", s[..BUFSIZE - 1]);
    assert !HasNewline(s, 0, BUFSIZE - 1);
    assert s[BUFSIZE - 1] == '\n';
  }

  lemma {:induction false} CutBefore(s: string, q: nat)
    requires BUFSIZE - 1 <= q < |s| && s[q] == '\n' && !HasNewline(s, q - (BUFSIZE - 1), q)
    ensures Cut(s) <= q
    decreases |s|
  {
    hide Cut;
    CutStep(s);
    var k := LineEnd(s);
    if k < BUFSIZE - 1 {
      assert s[k] == '\n';
      var t, p := s[k + 1..], q - k - 1;
      assert k < q && k < q - (BUFSIZE - 1);
      forall j | p - (BUFSIZE - 1) <= j < p && 0 <= j < |t| ensures t[j] != '\n' {
        assert s[j + k + 1] == t[j];
      }
      CutBefore(t, p);
    }
  }

  /** The empty pattern matches every line. */
  lemma EmptyPrints(s: string, q: nat)
    requires q < |s| && s[q] == '\n'
    ensures |Filter("", s)| > 0
  {
    var k := LineEnd(s);
    FilterLine("", s, k);
    assert MatchHere("", s[..k]);
  }

  /** `grep` of a file that is free of NULs, whatever sizes `read` returns: the
      matching lines up to the first line that does not fit into the buffer. */
  method GrepFile(re: string, input: string, sizes: seq<nat>) returns (out: string)
    requires NoNul(input)
    ensures out == Filter(re, input[..Cut(input)])
  {
    hide Match, Filter, Cut, NoNul, Reads, NoLine;
    FilterNone(re);
    CutNone();
    assert input[..0] == "" == input[0..0];
    var buf := new char[BUFSIZE](k => '\0');
    var m: nat, pos: nat, turn: nat := 0, 0, 0;
    ghost var start: nat := 0;
    out := "";
    while true
      invariant start + m == pos <= |input| && m < BUFSIZE && fresh(buf) && buf.Length == BUFSIZE
      invariant buf[..m] == input[start..pos] && NoLine(input[start..pos])
      invariant out == Filter(re, input[..start]) && Cut(input[..start]) == start && (start == 0 || input[start - 1] == '\n')
      decreases |input| - pos
    {
      var n: nat := Reads(BUFSIZE - m - 1, |input| - pos, if turn < |sizes| then sizes[turn] else 0);
      turn := turn + 1;
      if n == 0 {
        break;
      }
      var o;
      m, o, start := Round(re, buf, input, m, pos, pos + n, start);
      pos := pos + n;
      out := out + o;
    }
    AtTheEnd(re, input, start, pos);
  }

  lemma {:induction false} ShortCut(s: string)
    requires |s| < BUFSIZE && (s == "" || s[|s| - 1] == '\n')
    ensures Cut(s) == |s|
    decreases |s|
  {
    if s != "" {
      var k := LineEnd(s);
      assert k < |s|;
      ShortCut(s[k + 1..]);
    }
  }

  /** What is known once the complete lines of the buffer have been handled. */
  lemma AfterLines(re: string, input: string, start: nat, pos: nat, p: nat)
    requires start <= pos <= |input| && pos - start < BUFSIZE && p <= pos - start
    requires (start == 0 || input[start - 1] == '\n') && Cut(input[..start]) == start
    requires p == 0 || input[start..pos][p - 1] == '\n'
    ensures Filter(re, input[..start + p]) == Filter(re, input[..start]) + Filter(re, input[start..pos][..p])
    ensures Cut(input[..start + p]) == start + p && (start + p == 0 || input[start + p - 1] == '\n')
  {
    hide Filter, Cut, Match;
    var seg := input[start..pos][..p];
    assert input[..start] + seg == input[..start + p];
    assert seg != "" ==> seg[|seg| - 1] == input[start..pos][p - 1];
    FilterSplit(re, input[..start], seg);
    ShortCut(seg);
    CutSplit(input[..start], seg);
  }

  lemma AtTheEnd(re: string, input: string, start: nat, pos: nat)
    requires start <= pos <= |input| && pos - start < BUFSIZE && (pos == |input| || pos - start == BUFSIZE - 1)
    requires (start == 0 || input[start - 1] == '\n') && Cut(input[..start]) == start
    requires NoLine(input[start..pos])
    ensures Filter(re, input[..start]) == Filter(re, input[..Cut(input)])
  {
    hide Filter, Cut, Match;
    var rest := input[start..];
    assert input[..start] + rest == input;
    CutSplit(input[..start], rest);
    var c := Cut(rest);
    assert input[..start] + rest[..c] == input[..Cut(input)];
    FilterSplit(re, input[..start], rest[..c]);
    assert input[start..pos] == rest[..pos - start];
    NothingLeft(re, rest, pos - start);
  }

  lemma NoLineAt(s: string, m: nat, k: nat)
    requires k < m <= |s| && NoLine(s[..m])
    ensures s[k] != '\n'
  {
    assert s[..m][k] == s[k];
  }

  /** Nothing is printed of what does not fit, or has no newline. */
  lemma NothingLeft(re: string, rest: string, m: nat)
    requires m <= |rest| && m < BUFSIZE && (m == |rest| || m == BUFSIZE - 1) && NoLine(rest[..m])
    ensures Filter(re, rest[..Cut(rest)]) == ""
  {
    hide Filter, Cut, Match, LineEnd;
    CutStep(rest);
    var k := LineEnd(rest);
    if k < m {
      NoLineAt(rest, m, k);
    }
    if m == |rest| {
      assert rest[..m] == rest;
      FilterPartial(re, rest);
      FilterNone(re);
      assert rest[..|rest|] == rest && rest[..0] == "";
    } else {
      assert k >= BUFSIZE - 1;
      FilterNone(re);
      assert rest[..0] == "";
    }
  }

  /** What happens to bytes that were read behind the left over ones, which are input[start..pos]. */
  method Round(re: string, buf: array<char>, input: string, m: nat, pos: nat, end: nat, ghost start: nat)
    returns (m': nat, o: string, ghost start': nat)
    requires NoNul(input) && start + m == pos <= end <= |input| && end - start < BUFSIZE == buf.Length && buf[..m] == input[start..pos]
    requires (start == 0 || input[start - 1] == '\n') && Cut(input[..start]) == start
    modifies buf
    ensures start <= start' && start' + m' == end && buf[..m'] == input[start'..end] && NoLine(input[start'..end])
    ensures Filter(re, input[..start']) == Filter(re, input[..start]) + o
    ensures Cut(input[..start']) == start' && (start' == 0 || input[start' - 1] == '\n')
  {
    hide Match, Filter, Cut, NoNul, NoLine;
    Fill(buf, m, input[pos..end]);
    Joined(input, start, pos, end);
    PartNoNul(input, start, end);
    var p;
    p, o := Complete(re, buf, end - pos + m, input[start..end]);
    AfterLines(re, input, start, end, p);
    Tail(input, start, end, p);
    m' := end - pos + m - p;
    start' := start + p;
  }

  /** The complete lines of the buffer are handled and what is left over moves to its start. */
  method Complete(re: string, buf: array<char>, m: nat, ghost seg: string) returns (p: nat, o: string)
    requires m < buf.Length && buf[..m] == seg && NoNul(seg)
    modifies buf
    ensures p <= m && o == Filter(re, seg[..p]) && (p == 0 || seg[p - 1] == '\n')
    ensures buf[..m - p] == seg[p..] && NoLine(seg[p..])
  {
    hide Match, Filter, NoNul, NoLine;
    buf[m] := '\0';
    assert buf[..m] == seg;
    p, o := Lines(re, buf, m);
    ghost var b := buf[..m];
    assert b == seg;
    assert buf[..p] == b[..p] && buf[p..m] == b[p..];
    MoveDown(buf, p, m);
  }

  lemma Joined(s: string, p: nat, q: nat, r: nat)
    requires p <= q <= r <= |s|
    ensures s[p..q] + s[q..r] == s[p..r]
  {
  }

  lemma Tail(s: string, start: nat, end: nat, p: nat)
    requires start + p <= end <= |s|
    ensures s[start..end][p..] == s[start + p..end]
  {
  }

  lemma CutNone()
    ensures Cut("") == 0 && NoLine("")
  {
  }

  lemma PartNoNul(s: string, p: nat, q: nat)
    requires NoNul(s) && p <= q <= |s|
    ensures NoNul(s[p..q])
  {
  }

  /** `read` into `space` bytes of room: some bytes unless there are none or no room. */
  function Reads(space: nat, left: nat, wish: nat): (n: nat)
    ensures n <= space && n <= left && (n == 0 <==> space == 0 || left == 0)
  {
    var most := if space < left then space else left;
    if 0 < wish < most then wish else most
  }

  method Fill(buf: array<char>, m: nat, d: string)
    requires m + |d| <= buf.Length
    modifies buf
    ensures buf[..m] == old(buf[..m]) && buf[m..m + |d|] == d && buf[..m + |d|] == old(buf[..m]) + d
  {
    var k := 0;
    while k < |d|
      invariant 0 <= k <= |d| && buf[..m] == old(buf[..m]) && buf[m..m + k] == d[..k]
    {
      buf[m + k] := d[k];
      k := k + 1;
    }
    assert buf[..m + |d|] == buf[..m] + buf[m..m + |d|];
  }

  /** `memmove(buf, p, m - p)`. */
  method MoveDown(buf: array<char>, p: nat, m: nat)
    requires p <= m <= buf.Length
    modifies buf
    ensures buf[..m - p] == old(buf[p..m])
  {
    var k := 0;
    while k < m - p
      invariant 0 <= k <= m - p && buf[..k] == old(buf[p..p + k]) && buf[k + p..] == old(buf[k + p..])
    {
      buf[k] := buf[k + p];
      k := k + 1;
    }
  }

  /** The inner loop of `grep`: `p` is left at the start of the unfinished last line. */
  method Lines(re: string, buf: array<char>, m: nat) returns (p: nat, out: string)
    requires m < buf.Length && NoNul(buf[..m]) && buf[m] == '\0'
    modifies buf
    ensures buf[..] == old(buf[..]) && p <= m && (p == 0 || buf[p - 1] == '\n') && NoLine(buf[p..m])
    ensures out == Filter(re, buf[..p])
  {
    hide Match, Filter, NoNul;
    p, out := 0, "";
    FilterNone(re);
    ghost var b := buf[..];
    while true
      invariant p <= m && buf[..] == b && (p == 0 || b[p - 1] == '\n') && out == Filter(re, b[..p])
      decreases m - p
    {
      var q := FindNewline(buf, p, m);
      if q == m {
        return;
      }
      buf[q] := '\0';
      assert buf[p..q] == b[p..q];
      var hit := MatchM(re, buf[p..q]);
      buf[q] := '\n';
      assert buf[..] == b;
      LineAdded(re, b[..p], b[p..q]);
      assert b[..q + 1] == b[..p] + (b[p..q] + "\n") && b[p..q + 1] == b[p..q] + "\n";
      if hit {
        out := out + buf[p..q + 1];
      }
      p := q + 1;
    }
  }

  /** `strchr(p, '\n')`, or `m` where the source gets a null pointer. */
  method FindNewline(buf: array<char>, p: nat, m: nat) returns (q: nat)
    requires p <= m <= buf.Length
    ensures p <= q <= m && (forall k :: p <= k < q ==> buf[k] != '\n') && (q < m ==> buf[q] == '\n')
  {
    q := p;
    while q < m && buf[q] != '\n'
      invariant p <= q <= m && forall k :: p <= k < q ==> buf[k] != '\n'
    {
      q := q + 1;
    }
  }

  lemma LineAdded(re: string, s: string, line: string)
    requires (s == "" || s[|s| - 1] == '\n') && forall k :: 0 <= k < |line| ==> line[k] != '\n'
    ensures Filter(re, s + (line + "\n")) == Filter(re, s) + if Match(re, line) then line + "\n" else ""
  {
    FilterSplit(re, s, line + "\n");
    LineEndIs(line + "\n", |line|);
    assert (line + "\n")[..|line|] == line && (line + "\n")[|line| + 1..] == "";
    assert (line + "\n")[..|line| + 1] == line + "\n";
  }
}
