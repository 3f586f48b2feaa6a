/** Which lines the shell accepts (user/sh.c): those whose tokens are a command line in the sense of
    ShellLine, and no others. */
module ShellAccepts {
  import opened ShellGrammar
  import opened ShellRoundTrip
  import opened ShellLine

  // ----- the tokens of a line -----

  /** What gettoken finds, called again and again from i on. */
  function Tokens(s: string, i: nat): (ts: seq<string>)
    requires i <= |s|
    decreases |s| - i
  {
    var t := Lex(s, i);
    if t.kind == NUL then [] else [s[t.q..t.e]] + Tokens(s, t.next)
  }

  lemma SkipTwice(s: string, i: nat)
    requires i <= |s|
    ensures Skip(s, Skip(s, i)) == Skip(s, i) && Lex(s, Skip(s, i)) == Lex(s, i)
    ensures Tokens(s, Skip(s, i)) == Tokens(s, i)
  {
    var j := Skip(s, i);
    assert Skip(s, j) == j by { if j < |s| { assert !IsWs(s[j]); } }
  }

  /** A token's text and kind, and that it is taken whole. */
  lemma TokenIs(s: string, i: nat)
    requires i <= |s| && NUL !in s
    ensures var t := Lex(s, i);
            && t.q == Skip(s, i) && t.next == Skip(s, t.e) && (t.kind == NUL <==> t.q == |s|)
            && (t.kind != NUL ==>
                  var x := s[t.q..t.e];
                  IsToken(x) && Kind(x) == t.kind && x[0] == s[t.q] && ShellLine.Over(s, t.e, x))
  {
    hide Skip;
    var t := Lex(s, i);
    if t.q < |s| {
      assert s[t.q] in s;
      if t.kind == 'a' && !IsSym(s[t.q]) {
        hide Lex;
        SpanIsWord(s, Span(t.q, t.e));
      } else {
        SymbolIs(s, i);
      }
    }
  }

  lemma SymbolIs(s: string, i: nat)
    requires i <= |s| && Skip(s, i) < |s| && IsSym(s[Skip(s, i)])
    ensures var t := Lex(s, i);
            var x := s[t.q..t.e];
            t.q < t.e && IsToken(x) && !WellFormed(x) && Kind(x) == t.kind && (x == ">" ==> Ch(s, t.e) != '>')
  {
    hide Skip;
    var q := Skip(s, i);
    var t := Lex(s, i);
    if t.e == q + 2 {
      assert s[q..q + 2] == ">>";
      assert !IsWord('>');
    } else {
      assert s[q..q + 1] == [s[q]];
      NotAWord(s[q]);
    }
  }

  lemma NotAWord(c: char)
    requires IsSym(c)
    ensures IsToken([c]) && !WellFormed([c]) && Kind([c]) == c
  {
    assert [c][0] == c;
  }

  lemma TokensNext(s: string, i: nat)
    requires i <= |s| && Lex(s, i).kind != NUL
    ensures var t := Lex(s, i); Tokens(s, i) == [s[t.q..t.e]] + Tokens(s, t.next)
  {
    hide Lex;
  }

  lemma TokensPeek(s: string, i: nat, toks: string)
    requires i <= |s| && NUL !in s
    ensures Peek(s, i, toks) <==> Tokens(s, i) != [] && Tokens(s, i)[0] != "" && Tokens(s, i)[0][0] in toks
  {
    hide Lex, Skip;
    TokenIs(s, i);
    if Lex(s, i).kind != NUL { assert s[Skip(s, i)] in s; }
  }

  /** One token and what follows it. */
  lemma TakeOne(s: string, i: nat, toks: string)
    requires i <= |s| && NUL !in s && Peek(s, i, toks)
    ensures var t := Lex(s, Skip(s, i));
            && t.kind != NUL && i < t.next && IsToken(s[t.q..t.e]) && Kind(s[t.q..t.e]) == t.kind
            && s[t.q..t.e][0] in toks && Tokens(s, i) == [s[t.q..t.e]] + Tokens(s, t.next)
  {
    hide Lex, Skip, Tokens;
    SkipTwice(s, i);
    TokenIs(s, i);
    TokensPeek(s, i, toks);
    TokensNext(s, i);
  }

  // ----- what the parser takes -----

  lemma SignOf(x: string)
    requires IsToken(x) && x != "" && x[0] in "<>"
    ensures x == Sign(ModeOf(Kind(x)))
  {
    TokenStart(x);
  }

  lemma {:induction false} RedirsFrom(s: string, i: nat) returns (rs: seq<Rd<string>>)
    requires i <= |s| && NUL !in s && ParseRedirs(s, i).Redirs?
    ensures RdsFine(rs) && Tokens(s, i) == RdTokens(rs) + Tokens(s, ParseRedirs(s, i).i)
    decreases |s| - i
  {
    hide Lex, Skip, Tokens, Peek, IsToken, Kind, Sign, WellFormed;
    if Peek(s, i, "<>") {
      TakeOne(s, i, "<>");
      var t := Lex(s, Skip(s, i));
      var u := Lex(s, t.next);
      SignOf(s[t.q..t.e]);
      TokensNext(s, t.next);
      WordText(s, t.next);
      var more := RedirsFrom(s, u.next);
      rs := [Rd(s[u.q..u.e], ModeOf(t.kind))] + more;
      assert rs[1..] == more;
    } else {
      rs := [];
      SkipTwice(s, i);
    }
  }

  lemma WordText(s: string, i: nat)
    requires i <= |s| && NUL !in s && Lex(s, i).kind == 'a'
    ensures var t := Lex(s, i); WellFormed(s[t.q..t.e])
  {
    hide Lex;
    TokenIs(s, i);
  }

  /** Redirections as items. */
  function Tos(rs: seq<Rd<string>>): (items: seq<Item>) {
    if rs == [] then [] else [To(rs[0])] + Tos(rs[1..])
  }

  lemma {:induction false} TosTokens(rs: seq<Rd<string>>, more: seq<Item>)
    requires RdsFine(rs) && ItemsFine(more)
    ensures ItemTokens(Tos(rs) + more) == RdTokens(rs) + ItemTokens(more)
    ensures ArgWords(Tos(rs) + more) == ArgWords(more) && ItemsFine(Tos(rs) + more)
  {
    if rs == [] {
      assert Tos(rs) + more == more;
    } else {
      TosTokens(rs[1..], more);
      ConsItem(To(rs[0]), Tos(rs[1..]) + more);
      assert Tos(rs) + more == [To(rs[0])] + (Tos(rs[1..]) + more);
    }
  }

  lemma ConsItem(x: Item, more: seq<Item>)
    requires ItemsFine(more) && WellFormed(if x.Arg? then x.w else x.r.file)
    ensures ItemTokens([x] + more) == (if x.Arg? then [x.w] else [Sign(x.r.mode), x.r.file]) + ItemTokens(more)
    ensures ArgWords([x] + more) == (if x.Arg? then [x.w] else []) + ArgWords(more)
    ensures ItemsFine([x] + more)
  {
    assert ([x] + more)[1..] == more;
  }

  lemma TokensEnd(s: string, i: nat)
    requires i <= |s| && NUL !in s && Lex(s, Skip(s, i)).kind == NUL
    ensures Tokens(s, i) == [] && Tokens(s, Lex(s, Skip(s, i)).next) == []
  {
    hide Lex, Skip;
    SkipTwice(s, i);
    TokenIs(s, i);
    TokenIs(s, |s|);
  }

  lemma {:induction false} ArgsFrom(s: string, i: nat, n: nat) returns (items: seq<Item>)
    requires i <= |s| && NUL !in s && n < MAXARGS && ParseArgs(s, i, n).Args?
    ensures ItemsFine(items) && n + |ArgWords(items)| < MAXARGS
    ensures Tokens(s, i) == ItemTokens(items) + Tokens(s, ParseArgs(s, i, n).i)
    decreases |s| - i
  {
    hide Lex, Skip, Tokens, Peek, ParseRedirs, ParseArgs, WordSpan, WellFormed, RdsFine, ItemsFine;
    items := [];
    NoItemsFine();
    SkipTwice(s, i);
    if Peek(s, i, "|)&;") {
      ShellGrammar.NoArgs(s, i, n);
    } else {
      ShellGrammar.ArgsStep(s, i, n);
      var t := Lex(s, Skip(s, i));
      if t.kind == NUL {
        TokensEnd(s, i);
      } else {
        TokensNext(s, i);
        WordText(s, i);
        var rs := RedirsFrom(s, t.next);
        var more := ArgsFrom(s, ParseRedirs(s, t.next).i, n + 1);
        TosTokens(rs, more);
        ConsItem(Arg(s[t.q..t.e]), Tos(rs) + more);
        items := [Arg(s[t.q..t.e])] + (Tos(rs) + more);
      }
    }
  }

  lemma NoItemsFine()
    ensures ItemsFine([]) && ItemTokens([]) == [] && ArgWords([]) == []
  {
  }

  /** A symbol of one character. */
  lemma OneChar(x: string, c: char)
    requires IsToken(x) && x != "" && x[0] == c && c in "()|&;"
    ensures x == [c]
  {
    TokenStart(x);
  }

  lemma TakeSymbol(s: string, i: nat, c: char)
    requires i <= |s| && NUL !in s && c in "()|&;" && Peek(s, i, [c])
    ensures var t := Lex(s, Skip(s, i)); i < t.next && Tokens(s, i) == [[c]] + Tokens(s, t.next)
  {
    hide Lex, Skip, Tokens, Peek, IsToken, Kind;
    TakeOne(s, i, [c]);
    var t := Lex(s, Skip(s, i));
    OneChar(s[t.q..t.e], c);
  }

  lemma ExecFrom(s: string, i: nat) returns (p: Part)
    requires i <= |s| && NUL !in s && ParseExec(s, i).Ok?
    ensures PartFine(p) && Tokens(s, i) == PartTokens(p) + Tokens(s, ParseExec(s, i).i)
    decreases |s| - i, 2
  {
    hide Lex, Skip, Tokens, Peek, ParseRedirs, ParseArgs, ParseBlock, WordSpan, Wrap, Good, RdsFine, ItemsFine;
    SkipTwice(s, i);
    if Peek(s, i, "(") {
      p := BlockFrom(s, Skip(s, i));
    } else {
      var rs := RedirsFrom(s, Skip(s, i));
      var items := ArgsFrom(s, ParseRedirs(s, Skip(s, i)).i, 0);
      TosTokens(rs, items);
      p := Plain(Tos(rs) + items);
    }
  }

  lemma BlockFrom(s: string, i: nat) returns (p: Part)
    requires i <= |s| && NUL !in s && ParseBlock(s, i).Ok?
    ensures PartFine(p) && Tokens(s, i) == PartTokens(p) + Tokens(s, ParseBlock(s, i).i)
    decreases |s| - i, 1
  {
    hide Lex, Skip, Tokens, Peek, ParseRedirs, ParseLine, WordSpan, Wrap, Good, RdsFine, LineFine, LineTokens, RdTokens;
    TakeSymbol(s, i, '(');
    var j := Lex(s, Skip(s, i)).next;
    var l := LineFrom(s, j);
    var c := ParseLine(s, j);
    TakeSymbol(s, c.i, ')');
    var rs := RedirsFrom(s, Lex(s, Skip(s, c.i)).next);
    p := Group(l, rs);
    Regroup(["("], LineTokens(l), [")"], RdTokens(rs), Tokens(s, ParseBlock(s, i).i));
  }

  lemma Regroup(a: seq<string>, b: seq<string>, c: seq<string>, d: seq<string>, e: seq<string>)
    ensures a + (b + (c + (d + e))) == a + (b + (c + d)) + e
  {
  }

  lemma PipeFrom(s: string, i: nat) returns (ps: seq<Part>)
    requires i <= |s| && NUL !in s && ParsePipe(s, i).Ok?
    ensures PipeFine(ps) && Tokens(s, i) == PipeTokens(ps) + Tokens(s, ParsePipe(s, i).i)
    decreases |s| - i, 3
  {
    hide Lex, Skip, Tokens, Peek, ParseExec, WordSpan, Good, PartFine, PartTokens;
    var p := ExecFrom(s, i);
    var c := ParseExec(s, i);
    if Peek(s, c.i, "|") {
      TakeSymbol(s, c.i, '|');
      var more := PipeFrom(s, Lex(s, Skip(s, c.i)).next);
      ps := [p] + more;
      ConsPart(p, more);
    } else {
      SkipTwice(s, c.i);
      ps := [p];
      OnePart(p);
    }
  }

  lemma ConsPart(p: Part, more: seq<Part>)
    requires PartFine(p) && PipeFine(more)
    ensures PipeFine([p] + more) && PipeTokens([p] + more) == PartTokens(p) + (["|"] + PipeTokens(more))
  {
    hide PartFine, PartTokens;
    assert ([p] + more)[1..] == more;
  }

  lemma {:induction false} BacksFrom(s: string, c: Cmd<Span>, i: nat) returns (n: nat)
    requires i <= |s| && NUL !in s
    ensures Tokens(s, i) == Amps(n) + Tokens(s, ParseBacks(s, c, i).i)
    decreases |s| - i
  {
    hide Lex, Skip, Tokens, Peek, Good;
    if Peek(s, i, "&") {
      TakeSymbol(s, i, '&');
      var m := BacksFrom(s, Back(c), Lex(s, Skip(s, i)).next);
      n := m + 1;
      assert Amps(n) == ["&"] + Amps(m);
    } else {
      SkipTwice(s, i);
      n := 0;
    }
  }

  lemma LineFrom(s: string, i: nat) returns (l: Sentence)
    requires i <= |s| && NUL !in s && ParseLine(s, i).Ok?
    ensures LineFine(l) && Tokens(s, i) == LineTokens(l) + Tokens(s, ParseLine(s, i).i)
    decreases |s| - i, 4
  {
    hide Lex, Skip, Tokens, Peek, ParsePipe, ParseBacks, WordSpan, Good, PipeFine, PipeTokens, Amps;
    var ps := PipeFrom(s, i);
    var c := ParsePipe(s, i);
    var n := BacksFrom(s, c.cmd, c.i);
    var b := ParseBacks(s, c.cmd, c.i);
    if Peek(s, b.i, ";") {
      TakeSymbol(s, b.i, ';');
      var more := LineFrom(s, Lex(s, Skip(s, b.i)).next);
      l := Sentence(ps, n, Then(more));
      Regroup([], PipeTokens(ps), Amps(n), [";"] + LineTokens(more), Tokens(s, ParseLine(s, i).i));
    } else {
      SkipTwice(s, b.i);
      l := Sentence(ps, n, End);
    }
  }

  // ----- spelling -----

  /** Every line is its tokens with white space around them. */
  lemma {:induction false} Spelled(s: string, i: nat) returns (g: seq<string>)
    requires i <= |s| && NUL !in s
    ensures Gaps(Tokens(s, i), g) && AllTokens(Tokens(s, i)) && s[i..] == Flat(Tokens(s, i), g)
    decreases |s| - i
  {
    hide Lex, Skip, Gaps, Flat, Tokens, AllTokens;
    TokenIs(s, i);
    var t := Lex(s, i);
    if t.kind == NUL {
      g := [s[i..]];
      NoTokens(s, i);
    } else {
      TokensNext(s, i);
      SkipTwice(s, t.e);
      var more := Spelled(s, t.e);
      g := [s[i..t.q]] + more;
      assert s[i..] == s[i..t.q] + (s[t.q..t.e] + s[t.e..]);
      Spell(s, t.e, s[i..t.q], s[t.q..t.e], Tokens(s, t.e), more);
    }
  }

  lemma NoTokens(s: string, i: nat)
    requires i <= |s| && Skip(s, i) == |s| && Lex(s, i).kind == NUL
    ensures Tokens(s, i) == [] && Gaps([], [s[i..]]) && AllTokens([]) && s[i..] == Flat([], [s[i..]])
  {
  }

  lemma Spell(s: string, e: nat, w: string, x: string, ts: seq<string>, g: seq<string>)
    requires e <= |s| && Gaps(ts, g) && AllTokens(ts) && s[e..] == Flat(ts, g)
    requires White(w) && IsToken(x) && ShellLine.Over(s, e, x)
    ensures Gaps([x] + ts, [w] + g) && AllTokens([x] + ts) && Flat([x] + ts, [w] + g) == w + (x + s[e..])
  {
    var us, h := [x] + ts, [w] + g;
    assert us[1..] == ts && h[1..] == g;
    if ts != [] && g[0] == "" {
      assert IsToken(ts[0]);
      TokenStart(ts[0]);
      assert Flat(ts, g) == "" + (ts[0] + Flat(ts[1..], g[1..]));
      assert s[e] == s[e..][0] == ts[0][0];
    }
    forall k | 0 < k < |us| ensures h[k] != "" || MayTouch(us[k - 1], us[k]) {
      if k > 1 { assert us[k - 1] == ts[k - 2] && us[k] == ts[k - 1] && h[k] == g[k - 1]; }
    }
  }

  // ----- the theorem -----

  /** The line's tokens are a command line's. */
  ghost predicate IsLine(s: string, l: Sentence) { LineFine(l) && LineTokens(l) == Tokens(s, 0) }

  /** The shell accepts exactly the lines whose tokens are a command line's, with at most nine words
      to a command, and the command it makes of one is what that line means. */
  lemma AcceptsLines(s: string)
    requires NUL !in s
    ensures ParseCmd(s).Ok? <==> exists l :: IsLine(s, l)
    ensures forall l :: IsLine(s, l) ==> Yields(s, ParseCmd(s), LineMeans(l), |s|)
  {
    hide LineFine, LineTokens, LineMeans, Tokens, Gaps, Flat, AllTokens;
    var g := Spelled(s, 0);
    assert s[0..] == s;
    forall l | IsLine(s, l) ensures Yields(s, ParseCmd(s), LineMeans(l), |s|) { CommandLine(l, g); }
    if ParseCmd(s).Ok? {
      var l := LineFrom(s, 0);
      AtEnd(s, ParseLine(s, 0).i);
      assert IsLine(s, l);
    }
  }

  lemma AtEnd(s: string, i: nat)
    requires i <= |s| && NUL !in s && Skip(s, i) == |s|
    ensures Tokens(s, i) == []
  {
    hide Lex, Skip;
    TokenIs(s, i);
  }

  /** A line has one meaning. */
  lemma OneMeaning(s: string, l: Sentence, m: Sentence)
    requires NUL !in s && IsLine(s, l) && IsLine(s, m)
    ensures LineMeans(l) == LineMeans(m)
  {
    hide IsLine, LineMeans, ParseCmd;
    AcceptsLines(s);
  }
}
