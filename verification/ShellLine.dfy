/** Ordinary command lines (user/sh.c): words, redirections, pipes, lists and background jobs as
    one types them, with parentheses only around groups, and what parsing makes of them. */
module ShellLine {
  import opened ShellGrammar
  import opened ShellRoundTrip
  import Shell

  // ----- what is typed -----

  /** A word, or a redirection, of a simple command. */
  datatype Item = Arg(w: string) | To(r: Rd<string>)

  /** A simple command, or a group in parentheses with redirections behind it. */
  datatype Part = Plain(items: seq<Item>) | Group(body: Sentence, redirs: seq<Rd<string>>)

  /** A pipeline, the "&" behind it, and what comes after a ";". */
  datatype Sentence = Sentence(pipe: seq<Part>, backs: nat, rest: More)
  datatype More = End | Then(next: Sentence)

  function RdTokens(rs: seq<Rd<string>>): (ts: seq<string>) {
    if rs == [] then [] else [Sign(rs[0].mode), rs[0].file] + RdTokens(rs[1..])
  }

  function ItemTokens(items: seq<Item>): (ts: seq<string>) {
    if items == [] then []
    else (if items[0].Arg? then [items[0].w] else [Sign(items[0].r.mode), items[0].r.file]) + ItemTokens(items[1..])
  }

  function PartTokens(p: Part): (ts: seq<string>)
    decreases p, 0
  {
    match p
    case Plain(items) => ItemTokens(items)
    case Group(body, redirs) => ["("] + (LineTokens(body) + ([")"] + RdTokens(redirs)))
  }

  function PipeTokens(ps: seq<Part>): (ts: seq<string>)
    decreases ps, 1
  {
    if ps == [] then [] else PartTokens(ps[0]) + if |ps| == 1 then [] else ["|"] + PipeTokens(ps[1..])
  }

  function Amps(n: nat): (ts: seq<string>) { seq(n, i => "&") }

  function LineTokens(l: Sentence): (ts: seq<string>)
    decreases l, 2
  {
    PipeTokens(l.pipe) + (Amps(l.backs) + match l.rest case End => [] case Then(r) => [";"] + LineTokens(r))
  }

  // ----- what it means -----

  function ArgWords(items: seq<Item>): (ws: seq<string>) {
    if items == [] then [] else (if items[0].Arg? then [items[0].w] else []) + ArgWords(items[1..])
  }

  function Rds(items: seq<Item>): (rs: seq<Rd<string>>) {
    if items == [] then [] else (if items[0].To? then [items[0].r] else []) + Rds(items[1..])
  }

  /** A command with redirections around it: peeled from the outside, they are the last one, the
      one before it, and so on, and at the core is the command. */
  function Around<W>(cmd: Cmd<W>, rs: seq<Rd<W>>): (c: Cmd<W>)
    decreases |rs|
  {
    if rs == [] then cmd
    else
      var last := rs[|rs| - 1];
      Redir(Around(cmd, rs[..|rs| - 1]), last.file, last.mode)
  }

  function PartMeans(p: Part): (c: Cmd<string>)
    decreases p, 0
  {
    match p
    case Plain(items) => Around(Exec(ArgWords(items)), Rds(items))
    case Group(body, redirs) => Around(LineMeans(body), redirs)
  }

  /** The pipeline groups to the right. */
  function PipeMeans(ps: seq<Part>): (c: Cmd<string>)
    decreases ps, 1
  {
    if ps == [] then Exec([])
    else if |ps| == 1 then PartMeans(ps[0]) else Pipe(PartMeans(ps[0]), PipeMeans(ps[1..]))
  }

  function InBack<W>(c: Cmd<W>, n: nat): (d: Cmd<W>) { if n == 0 then c else Back(InBack(c, n - 1)) }

  function LineMeans(l: Sentence): (c: Cmd<string>)
    decreases l, 2
  {
    var c := InBack(PipeMeans(l.pipe), l.backs);
    match l.rest case End => c case Then(r) => List(c, LineMeans(r))
  }

  // ----- lines that can be typed -----

  predicate RdsFine(rs: seq<Rd<string>>) { forall k :: 0 <= k < |rs| ==> WellFormed(rs[k].file) }

  predicate ItemsFine(items: seq<Item>) {
    forall k :: 0 <= k < |items| ==> if items[k].Arg? then WellFormed(items[k].w) else WellFormed(items[k].r.file)
  }

  predicate PartFine(p: Part)
    decreases p, 0
  {
    match p
    case Plain(items) => ItemsFine(items) && |ArgWords(items)| < MAXARGS
    case Group(body, redirs) => LineFine(body) && RdsFine(redirs)
  }

  predicate PipeFine(ps: seq<Part>)
    decreases ps, 1
  {
    |ps| > 0 && PartFine(ps[0]) && (|ps| > 1 ==> PipeFine(ps[1..]))
  }

  predicate LineFine(l: Sentence)
    decreases l, 2
  {
    PipeFine(l.pipe) && match l.rest case End => true case Then(r) => LineFine(r)
  }

  // ----- tokens in the line -----

  predicate IsToken(t: string) {
    WellFormed(t) || t == "<" || t == ">" || t == ">>" || t == "|" || t == "&" || t == ";" || t == "(" || t == ")"
  }

  predicate AllTokens(ts: seq<string>) { forall k :: 0 <= k < |ts| ==> IsToken(ts[k]) }

  function Kind(t: string): (c: char)
    requires IsToken(t)
  {
    if WellFormed(t) then 'a' else if t == ">>" then '+' else t[0]
  }

  /** Whether a token can follow another with nothing between. */
  predicate MayTouch(a: string, b: string) {
    !(WellFormed(a) && WellFormed(b)) && !(a == ">" && b != "" && b[0] == '>')
  }

  predicate White(g: string) { forall k :: 0 <= k < |g| ==> IsWs(g[k]) }

  /** The white space before each token and at the end: any, and some where two tokens would
      otherwise run together. */
  predicate Gaps(ts: seq<string>, g: seq<string>)
    ensures Gaps(ts, g) ==> |g| == |ts| + 1
  {
    && |g| == |ts| + 1 && (forall k :: 0 <= k < |g| ==> White(g[k]))
    && (forall k :: 0 < k < |ts| ==> g[k] != "" || MayTouch(ts[k - 1], ts[k]))
  }

  /** The line: the tokens with their white space. */
  function Flat(ts: seq<string>, g: seq<string>): (s: string)
    requires |g| == |ts| + 1
  {
    g[0] + if ts == [] then "" else ts[0] + Flat(ts[1..], g[1..])
  }

  /** Where token k begins. */
  function Pos(ts: seq<string>, g: seq<string>, k: nat): (i: nat)
    requires |g| == |ts| + 1 && k <= |ts|
  {
    |g[0]| + if k == 0 then 0 else |ts[0]| + Pos(ts[1..], g[1..], k - 1)
  }

  lemma {:induction false} PosNext(ts: seq<string>, g: seq<string>, k: nat)
    requires |g| == |ts| + 1 && k < |ts|
    ensures Pos(ts, g, k + 1) == Pos(ts, g, k) + |ts[k]| + |g[k + 1]|
    decreases k
  {
    if k > 0 { PosNext(ts[1..], g[1..], k - 1); }
  }

  /** Up to token k and from it on, the line reads as the tokens and the gaps. */
  lemma {:induction false} FlatAt(ts: seq<string>, g: seq<string>, k: nat)
    requires |g| == |ts| + 1 && k <= |ts|
    ensures |g[k]| <= Pos(ts, g, k) <= |Flat(ts, g)|
    ensures Flat(ts, g)[Pos(ts, g, k) - |g[k]|..] == Flat(ts[k..], g[k..])
    decreases k
  {
    if k == 0 {
      assert ts[0..] == ts && g[0..] == g;
    } else {
      FlatAt(ts[1..], g[1..], k - 1);
      assert ts[1..][k - 1..] == ts[k..] && g[1..][k - 1..] == g[k..] && g[1..][k - 1] == g[k];
      var tail := Flat(ts[1..], g[1..]);
      assert Flat(ts, g) == g[0] + (ts[0] + tail);
      hide Flat;
      Behind(g[0], ts[0], tail, Pos(ts[1..], g[1..], k - 1) - |g[k]|);
    }
  }

  lemma Behind(a: string, b: string, c: string, p: nat)
    requires p <= |c|
    ensures (a + (b + c))[|a| + |b| + p..] == c[p..]
  {
  }

  lemma {:induction false} FlatNoNul(ts: seq<string>, g: seq<string>)
    requires AllTokens(ts) && |g| == |ts| + 1 && forall k :: 0 <= k < |g| ==> White(g[k])
    ensures NUL !in Flat(ts, g)
  {
    assert White(g[0]);
    if ts != [] {
      assert IsToken(ts[0]);
      assert forall k :: 0 <= k < |ts[0]| ==> ts[0][k] != NUL;
      FlatNoNul(ts[1..], g[1..]);
    }
  }

  /** A line of tokens. */
  ghost predicate Typed(s: string, ts: seq<string>, g: seq<string>)
    ensures Typed(s, ts, g) ==> |g| == |ts| + 1
  {
    Gaps(ts, g) && AllTokens(ts) && s == Flat(ts, g)
  }

  lemma TokenAt(s: string, ts: seq<string>, g: seq<string>, k: nat)
    requires Typed(s, ts, g) && k < |ts|
    ensures var i, e := Pos(ts, g, k), Pos(ts, g, k) + |ts[k]|;
            && i < e <= Pos(ts, g, k + 1) == e + |g[k + 1]| <= |s| && At(s, i, ts[k])
            && (forall j :: e <= j < e + |g[k + 1]| ==> IsWs(s[j]))
  {
    hide Pos;
    var i := Pos(ts, g, k);
    FlatAt(ts, g, k);
    PosNext(ts, g, k);
    FlatAt(ts, g, k + 1);
    assert IsToken(ts[k]) && White(g[k + 1]);
    FlatTwo(ts[k..], g[k..]);
    FlatOne(ts[k + 1..], g[k + 1..]);
    Cut(s, i - |g[k]|, g[k], ts[k]);
    var e := i + |ts[k]|;
    assert s[e..][..|g[k + 1]|] == g[k + 1];
    forall j | e <= j < e + |g[k + 1]| ensures IsWs(s[j]) { assert s[j] == s[e..][j - e]; }
  }

  lemma FlatOne(ts: seq<string>, g: seq<string>)
    requires |g| == |ts| + 1
    ensures |Flat(ts, g)| >= |g[0]| && Flat(ts, g)[..|g[0]|] == g[0]
  {
  }

  lemma FlatTwo(ts: seq<string>, g: seq<string>)
    requires |g| == |ts| + 1 && ts != []
    ensures |Flat(ts, g)| >= |g[0]| + |ts[0]| && Flat(ts, g)[|g[0]|..|g[0]| + |ts[0]|] == ts[0]
  {
    assert Flat(ts, g) == g[0] + (ts[0] + Flat(ts[1..], g[1..]));
  }

  /** What stands at an offset in a suffix. */
  lemma Cut(s: string, a: nat, g: string, t: string)
    requires a <= |s| && |s[a..]| >= |g| + |t| && s[a..][|g|..|g| + |t|] == t
    ensures At(s, a + |g|, t)
  {
    assert s[a..][|g|..|g| + |t|] == s[a + |g|..a + |g| + |t|];
  }

  /** The character behind a token does not belong to it. */
  predicate Over(s: string, e: nat, t: string) {
    (WellFormed(t) ==> !IsWord(Ch(s, e))) && (t == ">" ==> Ch(s, e) != '>')
  }

  lemma TokenOver(s: string, ts: seq<string>, g: seq<string>, k: nat)
    requires Typed(s, ts, g) && k < |ts|
    ensures Over(s, Pos(ts, g, k) + |ts[k]|, ts[k])
  {
    hide Flat, Pos;
    TokenAt(s, ts, g, k);
    if g[k + 1] == "" {
      Solid(s, ts, g, k + 1);
      if k + 1 < |ts| {
        assert MayTouch(ts[k + 1 - 1], ts[k + 1]) && IsToken(ts[k + 1]);
        TokenStart(ts[k + 1]);
      }
    }
  }

  lemma TokenStart(t: string)
    requires IsToken(t)
    ensures |t| > 0 && !IsWs(t[0]) && t[0] != NUL && (IsSym(t[0]) <==> !WellFormed(t))
  {
  }

  /** At a token, and at the end of the line, the cursor stays. */
  lemma Solid(s: string, ts: seq<string>, g: seq<string>, k: nat)
    requires Typed(s, ts, g) && k <= |ts|
    ensures var i := Pos(ts, g, k);
            && i <= |s| && Skip(s, i) == i && (k == |ts| <==> i == |s|)
            && Ch(s, i) == (if k < |ts| then ts[k][0] else NUL)
            && (k < |ts| ==> s[i] != NUL && !IsWs(s[i]))
  {
    hide Pos;
    if k < |ts| {
      TokenAt(s, ts, g, k);
      assert IsToken(ts[k]);
      TokenStart(ts[k]);
      AtChar(s, Pos(ts, g, k), ts[k]);
    } else {
      FlatAt(ts, g, k);
      assert ts[k..] == [] && g[k..] == [g[k]];
      assert Flat([], [g[k]]) == g[k];
      assert |s[Pos(ts, g, k) - |g[k]|..]| == |g[k]|;
    }
  }

  lemma {:induction false} SkipGap(s: string, a: nat, b: nat)
    requires a <= b <= |s| && Skip(s, b) == b && forall j :: a <= j < b ==> IsWs(s[j])
    ensures Skip(s, a) == b
    decreases b - a
  {
    if a < b { SkipGap(s, a + 1, b); }
  }

  /** Each token is lexed whole, up to the next one. */
  lemma LexToken(s: string, ts: seq<string>, g: seq<string>, k: nat)
    requires Typed(s, ts, g) && k < |ts|
    ensures var i := Pos(ts, g, k);
            && i <= |s| && IsToken(ts[k])
            && Lex(s, i) == Token(Kind(ts[k]), i, i + |ts[k]|, Pos(ts, g, k + 1))
            && At(s, i, ts[k])
            && (WellFormed(ts[k]) ==> WordSpan(s, Span(i, i + |ts[k]|)) && s[i..i + |ts[k]|] == ts[k])
  {
    hide Lex, Flat, Skip, WordSpan, Pos;
    var i := Pos(ts, g, k);
    var e := i + |ts[k]|;
    assert IsToken(ts[k]);
    TokenAt(s, ts, g, k);
    TokenOver(s, ts, g, k);
    Solid(s, ts, g, k);
    Solid(s, ts, g, k + 1);
    SkipGap(s, e, e + |g[k + 1]|);
    FlatNoNul(ts, g);
    if WellFormed(ts[k]) {
      LexWord(s, i, ts[k]);
      WordHere(s, i, ts[k]);
    } else {
      LexSymbol(s, i, ts[k]);
    }
  }

  lemma WordHere(s: string, i: nat, w: string)
    requires At(s, i, w) && WellFormed(w) && Over(s, i + |w|, w)
    ensures WordSpan(s, Span(i, i + |w|))
  {
    forall k | i <= k < i + |w| ensures IsWord(s[k]) { assert s[k] == s[i..i + |w|][k - i]; }
  }

  /** A symbol. */
  lemma LexSymbol(s: string, i: nat, t: string)
    requires At(s, i, t) && IsToken(t) && !WellFormed(t) && Over(s, i + |t|, t) && Skip(s, i) == i
    ensures Lex(s, i) == Token(Kind(t), i, i + |t|, Skip(s, i + |t|))
  {
    hide Skip;
    AtChar(s, i, t);
    TokenStart(t);
    if t == ">>" { assert s[i..i + 2][1] == '>'; }
  }

  lemma PeekToken(s: string, ts: seq<string>, g: seq<string>, k: nat, toks: string)
    requires Typed(s, ts, g) && k <= |ts|
    ensures Pos(ts, g, k) <= |s|
    ensures Peek(s, Pos(ts, g, k), toks) <==> k < |ts| && ts[k] != "" && ts[k][0] in toks
  {
    hide Flat, Skip;
    Solid(s, ts, g, k);
    if k < |ts| { assert IsToken(ts[k]); TokenStart(ts[k]); }
  }

  /** The tokens xs, from token k on. */
  predicate Has(ts: seq<string>, k: nat, xs: seq<string>)
    ensures Has(ts, k, xs) ==> k + |xs| <= |ts|
  {
    k + |xs| <= |ts| && ts[k..k + |xs|] == xs
  }

  lemma HasParts(ts: seq<string>, k: nat, a: seq<string>, b: seq<string>)
    requires Has(ts, k, a + b)
    ensures Has(ts, k, a) && Has(ts, k + |a|, b)
  {
    assert (a + b)[..|a|] == a && (a + b)[|a|..] == b;
    assert ts[k..k + |a + b|][..|a|] == ts[k..k + |a|] && ts[k..k + |a + b|][|a|..] == ts[k + |a|..k + |a + b|];
  }

  lemma HasFirst(ts: seq<string>, k: nat, xs: seq<string>)
    requires Has(ts, k, xs) && |xs| > 0
    ensures k < |ts| && ts[k] == xs[0] && Has(ts, k + 1, xs[1..])
  {
    assert ts[k..k + |xs|][0] == ts[k];
    assert ts[k + 1..k + |xs|] == ts[k..k + |xs|][1..];
  }

  /** What may stand behind a command: the end, or one of these. */
  predicate EndsAt(ts: seq<string>, k: nat) {
    k == |ts| || (k < |ts| && (ts[k] == "|" || ts[k] == "&" || ts[k] == ";" || ts[k] == ")"))
  }

  // ----- redirections -----

  /** Recorded words with these texts. */
  predicate SpansAre(s: string, argv: seq<Span>, ws: seq<string>) {
    |argv| == |ws| && forall k :: 0 <= k < |ws| ==> WordSpan(s, argv[k]) && s[argv[k].q..argv[k].e] == ws[k]
  }

  predicate RdsAre(s: string, rs: seq<Rd<Span>>, want: seq<Rd<string>>) {
    |rs| == |want|
    && forall k :: 0 <= k < |want| ==>
         WordSpan(s, rs[k].file) && s[rs[k].file.q..rs[k].file.e] == want[k].file && rs[k].mode == want[k].mode
  }

  lemma RdsMore(s: string, r: Rd<Span>, rs: seq<Rd<Span>>, want: seq<Rd<string>>)
    requires |want| > 0 && RdsAre(s, rs, want[1..]) && WordSpan(s, r.file)
    requires s[r.file.q..r.file.e] == want[0].file && r.mode == want[0].mode
    ensures RdsAre(s, [r] + rs, want)
  {
    hide WordSpan;
  }

  lemma RdsJoin(s: string, a: seq<Rd<Span>>, x: seq<Rd<string>>, b: seq<Rd<Span>>, y: seq<Rd<string>>)
    requires RdsAre(s, a, x) && RdsAre(s, b, y)
    ensures RdsAre(s, a + b, x + y)
  {
    hide WordSpan;
  }

  lemma ModeOfSign(m: Mode)
    ensures IsToken(Sign(m)) && !WellFormed(Sign(m)) && ModeOf(Kind(Sign(m))) == m
    ensures Sign(m)[0] in "<>"
  {
    assert IsSym(Sign(m)[0]) && !IsWord(Sign(m)[0]);
  }

  lemma {:induction false} RedirsBack(s: string, ts: seq<string>, g: seq<string>, k: nat, rs: seq<Rd<string>>)
    requires Typed(s, ts, g) && Has(ts, k, RdTokens(rs)) && RdsFine(rs)
    requires var e := k + |RdTokens(rs)|; e == |ts| || (e < |ts| && ts[e] != "" && ts[e][0] !in "<>")
    ensures Pos(ts, g, k) <= |s|
    ensures var r := ParseRedirs(s, Pos(ts, g, k));
            r.Redirs? && r.i == Pos(ts, g, k + |RdTokens(rs)|) && RdsAre(s, r.rs, rs)
    decreases |rs|
  {
    hide Flat, Skip, Lex, ParseRedirs, Peek, WordSpan, Typed, Sign, WellFormed, IsToken, RdsAre, Pos, Has, ModeOf;
    Solid(s, ts, g, k);
    PeekToken(s, ts, g, k, "<>");
    if rs == [] {
      RedirsNow(s, Pos(ts, g, k));
      NoRds(s);
    } else {
      var m, f := rs[0].mode, rs[0].file;
      assert RdTokens(rs) == [Sign(m), f] + RdTokens(rs[1..]);
      HasParts(ts, k, [Sign(m), f], RdTokens(rs[1..]));
      HasFirst(ts, k, [Sign(m), f]);
      HasFirst(ts, k + 1, [f]);
      ModeOfSign(m);
      LexToken(s, ts, g, k);
      LexToken(s, ts, g, k + 1);
      RedirsBack(s, ts, g, k + 2, rs[1..]);
      RedirsThen(s, Pos(ts, g, k));
      var u := Lex(s, Pos(ts, g, k + 1));
      RdsMore(s, Rd(Span(u.q, u.e), m), ParseRedirs(s, u.next).rs, rs);
    }
  }

  lemma NoRds(s: string)
    ensures RdsAre(s, [], [])
  {
  }

  lemma RedirsNow(s: string, i: nat)
    requires i <= |s| && Skip(s, i) == i && !Peek(s, i, "<>")
    ensures ParseRedirs(s, i) == Redirs([], i)
  {
    hide Skip, Peek;
  }

  /** One turn of parseredirs. */
  lemma RedirsThen(s: string, i: nat)
    requires i <= |s| && Skip(s, i) == i && Peek(s, i, "<>")
    requires var u := Lex(s, Lex(s, i).next); u.kind == 'a' && ParseRedirs(s, u.next).Redirs?
    ensures var t := Lex(s, i);
            var u := Lex(s, t.next);
            var r := ParseRedirs(s, u.next);
            ParseRedirs(s, i) == Redirs([Rd(Span(u.q, u.e), ModeOf(t.kind))] + r.rs, r.i)
  {
    hide Lex, Skip, Peek;
  }

  // ----- simple commands -----

  /** The redirections items begin with, and what follows them. */
  function Lead(items: seq<Item>): (rs: seq<Rd<string>>) {
    if items == [] || items[0].Arg? then [] else [items[0].r] + Lead(items[1..])
  }

  function Rest(items: seq<Item>): (r: seq<Item>)
    ensures |r| <= |items| && (r == [] || r[0].Arg?)
  {
    if items == [] || items[0].Arg? then items else Rest(items[1..])
  }

  lemma {:induction false} LeadRest(items: seq<Item>)
    requires ItemsFine(items)
    ensures ItemTokens(items) == RdTokens(Lead(items)) + ItemTokens(Rest(items))
    ensures ArgWords(items) == ArgWords(Rest(items)) && Rds(items) == Lead(items) + Rds(Rest(items))
    ensures RdsFine(Lead(items)) && ItemsFine(Rest(items))
  {
    hide Lead, Rest, ItemTokens, RdTokens, ArgWords, Rds, RdsFine, ItemsFine;
    if items != [] && items[0].To? {
      FineMore(items);
      LeadRest(items[1..]);
      LeadTo(items);
      FirstItem(items);
    } else {
      LeadNone(items);
    }
  }

  lemma FineMore(items: seq<Item>)
    requires ItemsFine(items) && items != [] && items[0].To?
    ensures ItemsFine(items[1..]) && WellFormed(items[0].r.file)
  {
    assert items[0].To?;
  }

  lemma LeadNone(items: seq<Item>)
    requires items == [] || items[0].Arg?
    ensures Lead(items) == [] && Rest(items) == items && RdTokens([]) == [] && RdsFine([])
  {
  }

  lemma LeadTo(items: seq<Item>)
    requires items != [] && items[0].To? && WellFormed(items[0].r.file) && RdsFine(Lead(items[1..]))
    ensures var l, r := Lead(items[1..]), items[0].r;
            && Lead(items) == [r] + l && Rest(items) == Rest(items[1..])
            && RdTokens([r] + l) == [Sign(r.mode), r.file] + RdTokens(l) && RdsFine([r] + l)
  {
    var l, r := Lead(items[1..]), items[0].r;
    assert ([r] + l)[1..] == l;
  }

  lemma FirstItem(items: seq<Item>)
    requires items != [] && items[0].To?
    ensures ItemTokens(items) == [Sign(items[0].r.mode), items[0].r.file] + ItemTokens(items[1..])
    ensures ArgWords(items) == ArgWords(items[1..]) && Rds(items) == [items[0].r] + Rds(items[1..])
  {
  }

  /** What stands behind the leading redirections is no redirection. */
  lemma NoMoreRedirs(ts: seq<string>, k: nat, items: seq<Item>)
    requires AllTokens(ts) && Has(ts, k, ItemTokens(items)) && EndsAt(ts, k + |ItemTokens(items)|)
    requires ItemsFine(items) && (items == [] || items[0].Arg?)
    ensures k == |ts| || (k < |ts| && ts[k] != "" && ts[k][0] !in "<>" && ts[k][0] !in "(")
    ensures items != []
            ==> k < |ts| && ts[k] == items[0].w && WellFormed(ts[k]) && Has(ts, k + 1, ItemTokens(items[1..]))
    ensures items == [] ==> EndsAt(ts, k)
  {
    if items != [] {
      assert ItemTokens(items) == [items[0].w] + ItemTokens(items[1..]);
      HasFirst(ts, k, ItemTokens(items));
      assert WellFormed(items[0].w);
      assert ItemTokens(items)[1..] == ItemTokens(items[1..]);
      assert IsWord(ts[k][0]);
    }
  }

  lemma {:induction false} WordsBack(s: string, ts: seq<string>, g: seq<string>, k: nat, items: seq<Item>, n: nat)
    requires Typed(s, ts, g) && Has(ts, k, ItemTokens(items)) && EndsAt(ts, k + |ItemTokens(items)|)
    requires ItemsFine(items) && (items == [] || items[0].Arg?) && n + |ArgWords(items)| < MAXARGS
    ensures Pos(ts, g, k) <= |s|
    ensures var a := ParseArgs(s, Pos(ts, g, k), n);
            && a.Args? && a.i == Pos(ts, g, k + |ItemTokens(items)|)
            && SpansAre(s, a.argv, ArgWords(items)) && RdsAre(s, a.rs, Rds(items))
    decreases |items|
  {
    hide Flat, Skip, Lex, ParseRedirs, ParseArgs, Peek, WordSpan, WellFormed, IsToken, SpansAre, RdsAre, ItemsFine,
         RdsFine,
         Typed, AllTokens, ItemTokens, RdTokens, ArgWords, Rds, Lead, Has, EndsAt, Pos, Kind;
    var i := Pos(ts, g, k);
    TypedTokens(s, ts, g);
    Solid(s, ts, g, k);
    NoMoreRedirs(ts, k, items);
    PeekToken(s, ts, g, k, "|)&;");
    if items == [] {
      NoItems(items);
      NoWords(s, ts, g, k, n);
    } else {
      var tail := items[1..];
      FineTail(items);
      LeadRest(tail);
      var rs, rest := Lead(tail), Rest(tail);
      HasParts(ts, k + 1, RdTokens(rs), ItemTokens(rest));
      var k2 := k + 1 + |RdTokens(rs)|;
      NoMoreRedirs(ts, k2, rest);
      LexToken(s, ts, g, k);
      RedirsBack(s, ts, g, k + 1, rs);
      WordsBack(s, ts, g, k2, rest, n + 1);
      NotAStop(ts[k]);
      ShellGrammar.ArgsStep(s, i, n);
      WordsJoin(s, ts[k], i, ParseArgs(s, Pos(ts, g, k2), n + 1).argv, ArgWords(rest));
      RdsJoin(s, ParseRedirs(s, Pos(ts, g, k + 1)).rs, rs, ParseArgs(s, Pos(ts, g, k2), n + 1).rs, Rds(rest));
    }
  }

  lemma NoItems(items: seq<Item>)
    requires items == []
    ensures ItemTokens(items) == [] && ArgWords(items) == [] && Rds(items) == []
  {
  }

  lemma FineTail(items: seq<Item>)
    requires ItemsFine(items) && items != [] && items[0].Arg?
    ensures ItemsFine(items[1..]) && ArgWords(items) == [items[0].w] + ArgWords(items[1..])
            && Rds(items) == Rds(items[1..])
    ensures |ItemTokens(items)| == 1 + |ItemTokens(items[1..])|
  {
  }

  lemma NotAStop(t: string)
    requires WellFormed(t)
    ensures |t| > 0 && t[0] !in "|)&;" && t[0] !in "(" && Kind(t) == 'a'
  {
    assert IsWord(t[0]);
  }

  lemma WordsJoin(s: string, w: string, i: nat, argv: seq<Span>, ws: seq<string>)
    requires i + |w| <= |s| && WordSpan(s, Span(i, i + |w|)) && s[i..i + |w|] == w && SpansAre(s, argv, ws)
    ensures SpansAre(s, [Span(i, i + |w|)] + argv, [w] + ws)
  {
    hide WordSpan;
  }

  /** At the end of a simple command there are no more arguments. */
  lemma NoWords(s: string, ts: seq<string>, g: seq<string>, k: nat, n: nat)
    requires Typed(s, ts, g) && k <= |ts| && EndsAt(ts, k) && n < MAXARGS
    ensures Pos(ts, g, k) <= |s|
    ensures ParseArgs(s, Pos(ts, g, k), n) == Args.Args([], [], Pos(ts, g, k))
    ensures SpansAre(s, [], []) && RdsAre(s, [], [])
  {
    hide Flat, ParseRedirs;
    Solid(s, ts, g, k);
    if k < |ts| {
      PeekToken(s, ts, g, k, "|)&;");
      ShellGrammar.NoArgs(s, Pos(ts, g, k), n);
    }
  }

  // ----- redirections around a command -----

  lemma {:induction false} WrapIsAround<W>(c: Cmd<W>, rs: seq<Rd<W>>)
    ensures Wrap(c, rs) == Around(c, rs)
    decreases |rs|
  {
    if rs != [] {
      var l := |rs| - 1;
      WrapLast(c, rs[..l], rs[l]);
      assert rs[..l] + [rs[l]] == rs;
      WrapIsAround(c, rs[..l]);
    }
  }

  lemma {:induction false} WrapLast<W>(c: Cmd<W>, rs: seq<Rd<W>>, r: Rd<W>)
    ensures Wrap(c, rs + [r]) == Redir(Wrap(c, rs), r.file, r.mode)
    decreases |rs|
  {
    if rs == [] {
      assert rs + [r] == [r] && [r][1..] == [];
    } else {
      assert (rs + [r])[0] == rs[0] && (rs + [r])[1..] == rs[1..] + [r];
      WrapLast(Redir(c, rs[0].file, rs[0].mode), rs[1..], r);
    }
  }

  lemma {:induction false} AroundText(s: string, c: Cmd<Span>, rs: seq<Rd<Span>>, want: seq<Rd<string>>)
    requires Good(s, c) && RdsAre(s, rs, want)
    ensures Good(s, Around(c, rs)) && Text(s, Around(c, rs)) == Around(Text(s, c), want)
    decreases |rs|
  {
    if rs != [] {
      var l := |rs| - 1;
      AroundText(s, c, rs[..l], want[..l]);
    }
  }

  lemma PlainBack(s: string, ts: seq<string>, g: seq<string>, k: nat, items: seq<Item>)
    requires Typed(s, ts, g) && Has(ts, k, ItemTokens(items)) && EndsAt(ts, k + |ItemTokens(items)|)
    requires ItemsFine(items) && |ArgWords(items)| < MAXARGS
    ensures Pos(ts, g, k) <= |s|
    ensures Yields(s, ParseExec(s, Pos(ts, g, k)), Around(Exec(ArgWords(items)), Rds(items)),
            Pos(ts, g, k + |ItemTokens(items)|))
  {
    hide Flat, Skip, Lex, ParseRedirs, ParseArgs, ParseExec, Peek, WordSpan, WellFormed, IsToken, ItemsFine, RdsFine,
         Wrap,
         Around, Good, Text, RdsAre, SpansAre, Typed, Sign;
    var i := Pos(ts, g, k);
    LeadRest(items);
    var rs, rest := Lead(items), Rest(items);
    HasParts(ts, k, RdTokens(rs), ItemTokens(rest));
    var k2 := k + |RdTokens(rs)|;
    TypedTokens(s, ts, g);
    NoMoreRedirs(ts, k2, rest);
    Solid(s, ts, g, k);
    RedirsBack(s, ts, g, k, rs);
    WordsBack(s, ts, g, k2, rest, 0);
    NoParen(s, ts, g, k, rs, k2);
    var r, a := ParseRedirs(s, i), ParseArgs(s, Pos(ts, g, k2), 0);
    ExecIs(s, i);
    RdsJoin(s, r.rs, rs, a.rs, Rds(rest));
    WrapIsAround(Exec(a.argv), r.rs + a.rs);
    ExecText(s, a.argv, ArgWords(items));
    AroundText(s, Exec(a.argv), r.rs + a.rs, Rds(items));
  }

  lemma TypedTokens(s: string, ts: seq<string>, g: seq<string>)
    requires Typed(s, ts, g)
    ensures AllTokens(ts)
  {
  }

  lemma NoParen(s: string, ts: seq<string>, g: seq<string>, k: nat, rs: seq<Rd<string>>, k2: nat)
    requires Typed(s, ts, g) && Has(ts, k, RdTokens(rs)) && k2 == k + |RdTokens(rs)|
    requires k2 == |ts| || (k2 < |ts| && ts[k2] != "" && ts[k2][0] !in "(")
    ensures Pos(ts, g, k) <= |s| && !Peek(s, Pos(ts, g, k), "(")
  {
    hide Flat, Peek;
    PeekToken(s, ts, g, k, "(");
    if rs != [] {
      HasFirst(ts, k, RdTokens(rs));
      ModeOfSign(rs[0].mode);
    }
  }

  lemma ExecIs(s: string, i: nat)
    requires i <= |s| && Skip(s, i) == i && !Peek(s, i, "(")
    requires ParseRedirs(s, i).Redirs? && ParseArgs(s, ParseRedirs(s, i).i, 0).Args?
    ensures var r := ParseRedirs(s, i);
            var a := ParseArgs(s, r.i, 0);
            ParseExec(s, i) == Ok(Wrap(Exec(a.argv), r.rs + a.rs), a.i)
  {
    hide Skip, Peek, ParseRedirs, ParseArgs, Wrap;
  }

  lemma ExecText(s: string, argv: seq<Span>, ws: seq<string>)
    requires SpansAre(s, argv, ws) && |ws| < MAXARGS
    ensures Good(s, Exec(argv)) && Text(s, Exec(argv)) == Exec(ws)
  {
    hide WordSpan;
    assert Good(s, Exec(argv));
    assert Text(s, Exec(argv)).argv == ws;
  }

  // ----- groups, pipelines and lines -----

  lemma PartBack(s: string, ts: seq<string>, g: seq<string>, k: nat, p: Part)
    requires Typed(s, ts, g) && Has(ts, k, PartTokens(p)) && EndsAt(ts, k + |PartTokens(p)|) && PartFine(p)
    ensures Pos(ts, g, k) <= |s|
    ensures Yields(s, ParseExec(s, Pos(ts, g, k)), PartMeans(p), Pos(ts, g, k + |PartTokens(p)|))
    decreases p, 0
  {
    hide Typed, Has, EndsAt, Pos, ParseExec, Yields, PartTokens, PartMeans, PartFine, LineTokens, LineMeans, LineFine,
         RdTokens, RdsFine, Around, ParseLine, ParseRedirs, RdsAre, LineEndsAt, ItemTokens, ItemsFine, ArgWords, Rds;
    match p
    case Plain(items) =>
      PlainIs(items);
      PlainBack(s, ts, g, k, items);
    case Group(body, redirs) =>
      GroupIs(body, redirs);
      var n := |LineTokens(body)|;
      GroupTokens(ts, k, body, redirs);
      CloseEnds(ts, k + 1 + n);
      TypedLine(s, ts, g, k + 1, body);
      EndNoRedir(ts, k + 2 + n + |RdTokens(redirs)|);
      RedirsBack(s, ts, g, k + 2 + n, redirs);
      GroupStep(s, ts, g, k, n, LineMeans(body), redirs);
  }

  lemma PlainIs(items: seq<Item>)
    ensures PartTokens(Plain(items)) == ItemTokens(items)
    ensures PartMeans(Plain(items)) == Around(Exec(ArgWords(items)), Rds(items))
    ensures PartFine(Plain(items)) ==> ItemsFine(items) && |ArgWords(items)| < MAXARGS
  {
  }

  lemma GroupIs(body: Sentence, redirs: seq<Rd<string>>)
    ensures PartMeans(Group(body, redirs)) == Around(LineMeans(body), redirs)
    ensures PartFine(Group(body, redirs)) ==> LineFine(body) && RdsFine(redirs)
  {
  }

  /** Where the pieces of a group are. */
  lemma GroupTokens(ts: seq<string>, k: nat, body: Sentence, redirs: seq<Rd<string>>)
    requires Has(ts, k, PartTokens(Group(body, redirs)))
    ensures var n := |LineTokens(body)|;
            && k + 1 + n < |ts| && ts[k] == "(" && ts[k + 1 + n] == ")"
            && Has(ts, k + 1, LineTokens(body)) && Has(ts, k + 2 + n, RdTokens(redirs))
            && |PartTokens(Group(body, redirs))| == 2 + n + |RdTokens(redirs)|
  {
    hide LineTokens, RdTokens, Has;
    var a, b := LineTokens(body), RdTokens(redirs);
    assert PartTokens(Group(body, redirs)) == ["("] + (a + ([")"] + b));
    HasHead(ts, k, "(", a + ([")"] + b));
    HasParts(ts, k + 1, a, [")"] + b);
    HasHead(ts, k + 1 + |a|, ")", b);
  }

  lemma CloseEnds(ts: seq<string>, k: nat)
    requires k < |ts| && ts[k] == ")"
    ensures LineEndsAt(ts, k)
  {
  }

  lemma EndNoRedir(ts: seq<string>, k: nat)
    requires EndsAt(ts, k)
    ensures k == |ts| || (k < |ts| && ts[k] != "" && ts[k][0] !in "<>")
  {
  }

  /** What may stand behind a line: the end, or a closing parenthesis. */
  predicate LineEndsAt(ts: seq<string>, k: nat) { k == |ts| || (k < |ts| && ts[k] == ")") }

  /** parseblock. */
  lemma GroupStep(s: string, ts: seq<string>, g: seq<string>, k: nat, n: nat, t: Cmd<string>, redirs: seq<Rd<string>>)
    requires Typed(s, ts, g) && k + 1 + n < |ts| && ts[k] == "(" && ts[k + 1 + n] == ")"
    requires k + 2 + n + |RdTokens(redirs)| <= |ts| && Pos(ts, g, k + 1) <= |s| && Pos(ts, g, k + 2 + n) <= |s|
    requires Yields(s, ParseLine(s, Pos(ts, g, k + 1)), t, Pos(ts, g, k + 1 + n))
    requires var r := ParseRedirs(s, Pos(ts, g, k + 2 + n));
             r.Redirs? && r.i == Pos(ts, g, k + 2 + n + |RdTokens(redirs)|) && RdsAre(s, r.rs, redirs)
    ensures Pos(ts, g, k) <= |s|
    ensures Yields(s, ParseExec(s, Pos(ts, g, k)), Around(t, redirs), Pos(ts, g, k + 2 + n + |RdTokens(redirs)|))
  {
    hide Typed, Pos, ParseExec, ParseLine, ParseRedirs, Lex, Skip, Peek, Wrap, Around, Good, Text, RdsAre, Flat,
         RdTokens;
    PeekToken(s, ts, g, k, "(");
    PeekToken(s, ts, g, k + 1 + n, ")");
    Solid(s, ts, g, k);
    Solid(s, ts, g, k + 1 + n);
    LexToken(s, ts, g, k);
    LexToken(s, ts, g, k + 1 + n);
    BlockIs(s, Pos(ts, g, k));
    var c, r := ParseLine(s, Pos(ts, g, k + 1)).cmd, ParseRedirs(s, Pos(ts, g, k + 2 + n));
    WrapIsAround(c, r.rs);
    AroundText(s, c, r.rs, redirs);
  }

  lemma BlockIs(s: string, i: nat)
    requires i <= |s| && Skip(s, i) == i && Peek(s, i, "(")
    requires var c := ParseLine(s, Lex(s, i).next);
             && c.Ok? && Skip(s, c.i) == c.i && Peek(s, c.i, ")") && ParseRedirs(s, Lex(s, c.i).next).Redirs?
    ensures var c := ParseLine(s, Lex(s, i).next);
            var r := ParseRedirs(s, Lex(s, c.i).next);
            ParseExec(s, i) == Ok(Wrap(c.cmd, r.rs), r.i)
  {
    hide Lex, Skip, Peek, ParseLine, ParseRedirs, Wrap;
    assert ParseExec(s, i) == ParseBlock(s, i);
  }

  /** What may stand behind a pipeline. */
  predicate PipeEndsAt(ts: seq<string>, k: nat) {
    k == |ts| || (k < |ts| && (ts[k] == "&" || ts[k] == ";" || ts[k] == ")"))
  }

  lemma TypedPipe(s: string, ts: seq<string>, g: seq<string>, k: nat, ps: seq<Part>)
    requires Typed(s, ts, g) && Has(ts, k, PipeTokens(ps)) && PipeEndsAt(ts, k + |PipeTokens(ps)|) && PipeFine(ps)
    ensures Pos(ts, g, k) <= |s|
    ensures Yields(s, ParsePipe(s, Pos(ts, g, k)), PipeMeans(ps), Pos(ts, g, k + |PipeTokens(ps)|))
    decreases ps, 1
  {
    hide Typed, Has, Pos, ParseExec, ParsePipe, Yields, PartTokens, PartMeans, PartFine, Lex, Skip;
    var n := |PartTokens(ps[0])|;
    if |ps| == 1 {
      assert PipeTokens(ps) == PartTokens(ps[0]) + [];
      assert PipeTokens(ps) == PartTokens(ps[0]);
      PartBack(s, ts, g, k, ps[0]);
      PipeStops(s, ts, g, k, n, PartMeans(ps[0]));
    } else {
      HasParts(ts, k, PartTokens(ps[0]), ["|"] + PipeTokens(ps[1..]));
      HasParts(ts, k + n, ["|"], PipeTokens(ps[1..]));
      HasFirst(ts, k + n, ["|"]);
      PartBack(s, ts, g, k, ps[0]);
      TypedPipe(s, ts, g, k + n + 1, ps[1..]);
      PipeGoes(s, ts, g, k, n, PartMeans(ps[0]), PipeMeans(ps[1..]), k + |PipeTokens(ps)|);
    }
  }

  lemma PipeStops(s: string, ts: seq<string>, g: seq<string>, k: nat, n: nat, t: Cmd<string>)
    requires Typed(s, ts, g) && k + n <= |ts| && PipeEndsAt(ts, k + n) && Pos(ts, g, k) <= |s|
    requires Yields(s, ParseExec(s, Pos(ts, g, k)), t, Pos(ts, g, k + n))
    ensures Yields(s, ParsePipe(s, Pos(ts, g, k)), t, Pos(ts, g, k + n))
  {
    hide Typed, Pos, ParseExec, ParsePipe, Good, Text, Skip, Peek, Flat;
    PeekToken(s, ts, g, k + n, "|");
    Solid(s, ts, g, k + n);
    PipeStep(s, Pos(ts, g, k));
  }

  lemma PipeGoes(s: string, ts: seq<string>, g: seq<string>, k: nat, n: nat, t: Cmd<string>, u: Cmd<string>, e: nat)
    requires Typed(s, ts, g) && k + n < e <= |ts| && ts[k + n] == "|" && Pos(ts, g, k) <= |s|
             && Pos(ts, g, k + n + 1) <= |s|
    requires Yields(s, ParseExec(s, Pos(ts, g, k)), t, Pos(ts, g, k + n))
    requires Yields(s, ParsePipe(s, Pos(ts, g, k + n + 1)), u, Pos(ts, g, e))
    ensures Yields(s, ParsePipe(s, Pos(ts, g, k)), Pipe(t, u), Pos(ts, g, e))
  {
    hide Typed, Pos, ParseExec, ParsePipe, Skip, Peek, Lex, Flat;
    PeekToken(s, ts, g, k + n, "|");
    Solid(s, ts, g, k + n);
    LexToken(s, ts, g, k + n);
    PipeStep(s, Pos(ts, g, k));
  }

  // ----- background jobs -----

  lemma {:induction false} InBackLast<W>(c: Cmd<W>, n: nat)
    ensures InBack(Back(c), n) == Back(InBack(c, n))
  {
    if n > 0 { InBackLast(c, n - 1); }
  }

  lemma {:induction false} BacksBack(s: string, ts: seq<string>, g: seq<string>, k: nat, n: nat, c: Cmd<Span>)
    requires Typed(s, ts, g) && Has(ts, k, Amps(n)) && LineOrListAt(ts, k + n)
    ensures Pos(ts, g, k) <= |s|
    ensures ParseBacks(s, c, Pos(ts, g, k)) == Ok(InBack(c, n), Pos(ts, g, k + n))
    decreases n
  {
    hide Typed, Pos, ParseBacks, Skip, Peek, Lex, Flat;
    PeekToken(s, ts, g, k, "&");
    Solid(s, ts, g, k);
    if n == 0 {
      NoBacks(s, c, Pos(ts, g, k));
    } else {
      HasFirst(ts, k, Amps(n));
      assert Amps(n)[1..] == Amps(n - 1);
      LexToken(s, ts, g, k);
      BacksBack(s, ts, g, k + 1, n - 1, Back(c));
      MoreBacks(s, c, Pos(ts, g, k));
      InBackLast(c, n - 1);
    }
  }

  lemma MoreBacks(s: string, c: Cmd<Span>, i: nat)
    requires i <= |s| && Skip(s, i) == i && Peek(s, i, "&")
    ensures ParseBacks(s, c, i) == ParseBacks(s, Back(c), Lex(s, i).next)
  {
    hide Skip, Peek, Lex;
  }

  /** What may stand behind the "&"s of a pipeline. */
  predicate LineOrListAt(ts: seq<string>, k: nat) { k == |ts| || (k < |ts| && (ts[k] == ";" || ts[k] == ")")) }

  lemma {:induction false} InBackText(s: string, c: Cmd<Span>, n: nat)
    requires Good(s, c)
    ensures Good(s, InBack(c, n)) && Text(s, InBack(c, n)) == InBack(Text(s, c), n)
  {
    if n > 0 { InBackText(s, c, n - 1); }
  }

  // ----- lines -----

  lemma TypedLine(s: string, ts: seq<string>, g: seq<string>, k: nat, l: Sentence)
    requires Typed(s, ts, g) && Has(ts, k, LineTokens(l)) && LineEndsAt(ts, k + |LineTokens(l)|) && LineFine(l)
    ensures Pos(ts, g, k) <= |s|
    ensures Yields(s, ParseLine(s, Pos(ts, g, k)), LineMeans(l), Pos(ts, g, k + |LineTokens(l)|))
    decreases l, 2
  {
    hide Typed, Has, Pos, ParsePipe, ParseLine, ParseBacks, Yields, PipeTokens, PipeMeans, PipeFine, LineTokens,
         LineMeans, LineFine, Amps, InBack, LineEndsAt, LineOrListAt, PipeEndsAt, Good, Text;
    LineIs(l);
    LineParts(ts, k, l);
    var n := |PipeTokens(l.pipe)|;
    var k2 := k + n + l.backs;
    LineBehind(ts, k2);
    AfterPipe(ts, k + n, l.backs);
    TypedPipe(s, ts, g, k, l.pipe);
    BacksBack(s, ts, g, k + n, l.backs, ParsePipe(s, Pos(ts, g, k)).cmd);
    if l.rest.End? {
      LineStops(s, ts, g, k, n, l.backs, PipeMeans(l.pipe));
    } else {
      TypedLine(s, ts, g, k2 + 1, l.rest.next);
      LineGoes(s, ts, g, k, n, l.backs, PipeMeans(l.pipe), LineMeans(l.rest.next), k + |LineTokens(l)|);
    }
  }

  lemma LineIs(l: Sentence)
    ensures LineFine(l) ==> PipeFine(l.pipe) && (l.rest.Then? ==> LineFine(l.rest.next))
    ensures var c := InBack(PipeMeans(l.pipe), l.backs);
            LineMeans(l) == if l.rest.End? then c else List(c, LineMeans(l.rest.next))
  {
  }

  lemma LineBehind(ts: seq<string>, k: nat)
    ensures LineEndsAt(ts, k) ==> LineOrListAt(ts, k)
    ensures k < |ts| && ts[k] == ";" ==> LineOrListAt(ts, k)
  {
  }

  /** Where the pieces of a line are. */
  lemma LineParts(ts: seq<string>, k: nat, l: Sentence)
    requires Has(ts, k, LineTokens(l))
    ensures var n := |PipeTokens(l.pipe)|;
            var k2 := k + n + l.backs;
            && k2 <= |ts| && Has(ts, k, PipeTokens(l.pipe)) && Has(ts, k + n, Amps(l.backs))
            && (l.rest.End? ==> |LineTokens(l)| == n + l.backs)
            && (l.rest.Then? ==> k2 < |ts| && ts[k2] == ";" && Has(ts, k2 + 1, LineTokens(l.rest.next)))
            && (l.rest.Then? ==> |LineTokens(l)| == n + l.backs + 1 + |LineTokens(l.rest.next)|)
  {
    hide PipeTokens, LineTokens, Has, Amps;
    var p, a := PipeTokens(l.pipe), Amps(l.backs);
    var tail := if l.rest.End? then [] else [";"] + LineTokens(l.rest.next);
    LineTokensAre(l);
    AmpsSize(l.backs);
    HasParts(ts, k, p, a + tail);
    HasParts(ts, k + |p|, a, tail);
    if l.rest.Then? { HasHead(ts, k + |p| + |a|, ";", LineTokens(l.rest.next)); }
  }

  lemma LineTokensAre(l: Sentence)
    ensures LineTokens(l) ==
            PipeTokens(l.pipe) + (Amps(l.backs) + if l.rest.End? then [] else [";"] + LineTokens(l.rest.next))
  {
    hide PipeTokens, Amps;
  }

  lemma HasHead(ts: seq<string>, k: nat, x: string, xs: seq<string>)
    requires Has(ts, k, [x] + xs)
    ensures k < |ts| && ts[k] == x && Has(ts, k + 1, xs)
  {
    HasFirst(ts, k, [x] + xs);
    assert ([x] + xs)[1..] == xs;
  }

  lemma AmpsSize(n: nat)
    ensures |Amps(n)| == n
  {
  }

  lemma AfterPipe(ts: seq<string>, k: nat, n: nat)
    requires Has(ts, k, Amps(n)) && LineOrListAt(ts, k + n)
    ensures PipeEndsAt(ts, k)
  {
    if n > 0 { HasFirst(ts, k, Amps(n)); }
  }

  lemma LineStops(s: string, ts: seq<string>, g: seq<string>, k: nat, n: nat, b: nat, t: Cmd<string>)
    requires Typed(s, ts, g) && k + n + b <= |ts| && LineEndsAt(ts, k + n + b) && Pos(ts, g, k) <= |s|
    requires Yields(s, ParsePipe(s, Pos(ts, g, k)), t, Pos(ts, g, k + n)) && Pos(ts, g, k + n) <= |s|
    requires ParseBacks(s, ParsePipe(s, Pos(ts, g, k)).cmd, Pos(ts, g, k + n)) ==
             Ok(InBack(ParsePipe(s, Pos(ts, g, k)).cmd, b), Pos(ts, g, k + n + b))
    ensures Yields(s, ParseLine(s, Pos(ts, g, k)), InBack(t, b), Pos(ts, g, k + n + b))
  {
    hide Typed, Pos, ParsePipe, ParseLine, ParseBacks, Skip, Peek, Flat, InBack, Good, Text;
    PeekToken(s, ts, g, k + n + b, ";");
    Solid(s, ts, g, k + n + b);
    LineStep(s, Pos(ts, g, k));
    InBackText(s, ParsePipe(s, Pos(ts, g, k)).cmd, b);
  }

  lemma LineGoes(s: string, ts: seq<string>, g: seq<string>, k: nat, n: nat, b: nat, t: Cmd<string>, u: Cmd<string>,
    e: nat)
    requires Typed(s, ts, g) && k + n + b < e <= |ts| && ts[k + n + b] == ";" && Pos(ts, g, k) <= |s|
    requires Yields(s, ParsePipe(s, Pos(ts, g, k)), t, Pos(ts, g, k + n)) && Pos(ts, g, k + n) <= |s|
    requires ParseBacks(s, ParsePipe(s, Pos(ts, g, k)).cmd, Pos(ts, g, k + n)) ==
             Ok(InBack(ParsePipe(s, Pos(ts, g, k)).cmd, b), Pos(ts, g, k + n + b))
    requires Pos(ts, g, k + n + b + 1) <= |s| && Yields(s, ParseLine(s, Pos(ts, g, k + n + b + 1)), u, Pos(ts, g, e))
    ensures Yields(s, ParseLine(s, Pos(ts, g, k)), List(InBack(t, b), u), Pos(ts, g, e))
  {
    hide Typed, Pos, ParsePipe, ParseLine, ParseBacks, Skip, Peek, Lex, Flat, InBack;
    PeekToken(s, ts, g, k + n + b, ";");
    Solid(s, ts, g, k + n + b);
    LexToken(s, ts, g, k + n + b);
    LineStep(s, Pos(ts, g, k));
    InBackText(s, ParsePipe(s, Pos(ts, g, k)).cmd, b);
  }

  // ----- whole command lines -----

  lemma {:induction false} RdsAllTokens(rs: seq<Rd<string>>)
    requires RdsFine(rs)
    ensures AllTokens(RdTokens(rs))
  {
    if rs != [] {
      RdsAllTokens(rs[1..]);
      ModeOfSign(rs[0].mode);
    }
  }

  lemma {:induction false} ItemsAllTokens(items: seq<Item>)
    requires ItemsFine(items)
    ensures AllTokens(ItemTokens(items))
  {
    if items != [] {
      ItemsAllTokens(items[1..]);
      if items[0].To? { ModeOfSign(items[0].r.mode); }
    }
  }

  lemma PartAllTokens(p: Part)
    requires PartFine(p)
    ensures AllTokens(PartTokens(p))
    decreases p, 0
  {
    match p
    case Plain(items) => ItemsAllTokens(items);
    case Group(body, redirs) => LineAllTokens(body); RdsAllTokens(redirs);
  }

  lemma PipeAllTokens(ps: seq<Part>)
    requires PipeFine(ps)
    ensures AllTokens(PipeTokens(ps))
    decreases ps, 1
  {
    PartAllTokens(ps[0]);
    if |ps| > 1 { PipeAllTokens(ps[1..]); }
  }

  lemma LineAllTokens(l: Sentence)
    requires LineFine(l)
    ensures AllTokens(LineTokens(l))
    decreases l, 2
  {
    PipeAllTokens(l.pipe);
    if l.rest.Then? { LineAllTokens(l.rest.next); }
  }

  /** Every command line one can type, with any white space around the tokens, is accepted to its
      end, and the tree is the one the line means: the words of each simple command in order, every
      redirection around it, pipes and lists to the right, "&" on the pipeline before it. */
  lemma CommandLine(l: Sentence, g: seq<string>)
    requires LineFine(l) && Gaps(LineTokens(l), g)
    ensures var s := Flat(LineTokens(l), g); NUL !in s && Yields(s, ParseCmd(s), LineMeans(l), |s|)
  {
    hide Flat, LineTokens, LineFine, LineMeans, AllTokens, Yields, Skip, ParseLine, Gaps, Pos;
    var ts := LineTokens(l);
    var s := Flat(ts, g);
    LineAllTokens(l);
    LineNoNul(ts, g);
    HasAll(ts);
    TypedLine(s, ts, g, 0, l);
    Solid(s, ts, g, |ts|);
    Solid(s, ts, g, 0);
    GapSkipped(s, ts, g);
    CmdIs(s, Pos(ts, g, 0), LineMeans(l));
  }

  lemma LineNoNul(ts: seq<string>, g: seq<string>)
    requires AllTokens(ts) && Gaps(ts, g)
    ensures NUL !in Flat(ts, g)
  {
    FlatNoNul(ts, g);
  }

  lemma GapSkipped(s: string, ts: seq<string>, g: seq<string>)
    requires Typed(s, ts, g)
    ensures Pos(ts, g, 0) <= |s| && Skip(s, 0) == Pos(ts, g, 0)
  {
    Solid(s, ts, g, 0);
    FlatOne(ts, g);
    assert White(g[0]);
    forall j | 0 <= j < |g[0]| ensures IsWs(s[j]) { assert s[j] == s[..|g[0]|][j]; }
    SkipGap(s, 0, |g[0]|);
  }

  lemma HasAll(ts: seq<string>)
    ensures Has(ts, 0, ts) && LineEndsAt(ts, |ts|)
  {
    assert ts[0..|ts|] == ts;
  }

  lemma CmdIs(s: string, i: nat, t: Cmd<string>)
    requires i <= |s| && Skip(s, 0) == i && Skip(s, i) == i && Yields(s, ParseLine(s, i), t, |s|)
    ensures Yields(s, ParseCmd(s), t, |s|)
  {
    hide ParseLine, Good, Text;
    SameFromHere(s, i);
  }

  /** White space before a command does not matter. */
  lemma SameFromHere(s: string, i: nat)
    requires i <= |s| && Skip(s, 0) == i && Skip(s, i) == i
    ensures ParseLine(s, 0) == ParseLine(s, i)
  {
    hide Skip, ParseBlock, ParseRedirs, ParseArgs, ParseBacks, Lex, Good, Text, Wrap;
    assert ParseExec(s, 0) == ParseExec(s, i);
    hide ParseExec, Peek;
    assert ParsePipe(s, 0) == ParsePipe(s, i);
  }

  // ----- simple commands, peeled -----

  /** The command under n redirections. */
  function Peel<W>(c: Cmd<W>, n: nat): (d: Cmd<W>) { if n == 0 || !c.Redir? then c else Peel(c.cmd, n - 1) }

  lemma {:induction false} PeelAround<W>(c: Cmd<W>, rs: seq<Rd<W>>, n: nat)
    requires n <= |rs|
    ensures Peel(Around(c, rs), n) == Around(c, rs[..|rs| - n])
    decreases n
  {
    if n == 0 {
      assert rs[..|rs|] == rs;
    } else {
      var a := rs[..|rs| - 1];
      PeelAround(c, a, n - 1);
      assert a[..|a| - (n - 1)] == rs[..|rs| - n];
    }
  }

  /** Under the redirections rs, the last one outermost, is the exec of exactly the words ws. */
  predicate Peels<W(==)>(t: Cmd<W>, ws: seq<W>, rs: seq<Rd<W>>) {
    && Peel(t, |rs|) == Exec(ws)
    && forall k :: 0 <= k < |rs| ==>
         var d := Peel(t, k);
         d.Redir? && Rd(d.file, d.mode) == rs[|rs| - 1 - k]
  }

  lemma AroundPeels<W>(ws: seq<W>, rs: seq<Rd<W>>)
    ensures Peels(Around(Exec(ws), rs), ws, rs)
  {
    var c := Exec(ws);
    PeelAround(c, rs, |rs|);
    forall k | 0 <= k < |rs|
      ensures var d := Peel(Around(c, rs), k); d.Redir? && Rd(d.file, d.mode) == rs[|rs| - 1 - k]
    {
      PeelAround(c, rs, k);
    }
  }

  /** A simple command, its words and redirections mixed in any order: peeling the parsed tree
      gives the redirections from the last typed to the first, and then the exec of exactly the
      words. */
  lemma SimpleCommand(items: seq<Item>, g: seq<string>)
    requires ItemsFine(items) && |ArgWords(items)| < MAXARGS && Gaps(ItemTokens(items), g)
    ensures var s := Flat(ItemTokens(items), g);
            && ParseCmd(s).Ok? && Good(s, ParseCmd(s).cmd)
            && Peels(Text(s, ParseCmd(s).cmd), ArgWords(items), Rds(items))
  {
    hide Flat, ItemTokens, LineTokens, LineMeans, ItemsFine, LineFine, ParseCmd, Good, Text, Rds, ArgWords, Gaps, Peels,
         Around;
    LineOfItems(items);
    CommandLine(Sentence([Plain(items)], 0, End), g);
    AroundPeels(ArgWords(items), Rds(items));
  }

  lemma LineOfItems(items: seq<Item>)
    requires ItemsFine(items) && |ArgWords(items)| < MAXARGS
    ensures var l := Sentence([Plain(items)], 0, End);
            && LineFine(l) && LineTokens(l) == ItemTokens(items)
            && LineMeans(l) == Around(Exec(ArgWords(items)), Rds(items))
  {
    var p := Plain(items);
    OnePart(p);
    OneLine([p]);
    assert PartTokens(p) == ItemTokens(items) && PartMeans(p) == Around(Exec(ArgWords(items)), Rds(items));
  }

  lemma OnePart(p: Part)
    requires PartFine(p)
    ensures PipeFine([p]) && PipeTokens([p]) == PartTokens(p) && PipeMeans([p]) == PartMeans(p)
  {
    var ps := [p];
    assert ps[0] == p && |ps| == 1;
    assert PipeTokens(ps) == PartTokens(p) + [];
  }

  lemma OneLine(ps: seq<Part>)
    requires PipeFine(ps)
    ensures var l := Sentence(ps, 0, End);
            LineFine(l) && LineTokens(l) == PipeTokens(ps) && LineMeans(l) == PipeMeans(ps)
  {
    hide PipeFine, PipeTokens, PipeMeans;
    var l := Sentence(ps, 0, End);
    assert Amps(0) == [];
    assert LineTokens(l) == PipeTokens(ps) + ([] + []);
  }

  /** parsecmd on a typed line. */
  method ParseTyped(l: Sentence, g: seq<string>) returns (r: Res, buf: array<char>)
    requires LineFine(l) && Gaps(LineTokens(l), g)
    ensures Yields(Flat(LineTokens(l), g), r, LineMeans(l), |Flat(LineTokens(l), g)|) && fresh(buf)
    ensures forall w :: w in Shell.Words(r.cmd) ==>
              && w.q < w.e <= |Flat(LineTokens(l), g)|
              && Shell.CString(buf[..], w.q, Flat(LineTokens(l), g)[w.q..w.e])
  {
    hide Flat, LineTokens, LineFine, LineMeans, ParseCmd, Shell.CString;
    CommandLine(l, g);
    r, buf := Shell.ParseCommand(Flat(LineTokens(l), g));
  }
}
