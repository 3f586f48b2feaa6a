/** Printing a command with parentheses and parsing it gives the command back (user/sh.c). */
module ShellRoundTrip {
  import opened ShellGrammar
  import Shell

  /** Words the lexer takes whole. */
  predicate WellFormed(w: string) { |w| > 0 && forall k :: 0 <= k < |w| ==> IsWord(w[k]) }

  predicate Fine(t: Cmd<string>) {
    match t
    case Exec(argv) => |argv| < MAXARGS && forall k :: 0 <= k < |argv| ==> WellFormed(argv[k])
    case Redir(d, file, _) => WellFormed(file) && Fine(d)
    case Pipe(l, r) => Fine(l) && Fine(r)
    case List(l, r) => Fine(l) && Fine(r)
    case Back(d) => Fine(d)
  }

  function Join(ws: seq<string>): (s: string) {
    if ws == [] then "" else if |ws| == 1 then ws[0] else ws[0] + " " + Join(ws[1..])
  }

  function Sign(m: Mode): (s: string) {
    match m case In => "<" case Out => ">" case Append => ">>"
  }

  function Print(t: Cmd<string>): (s: string)
    decreases t, 0
  {
    match t
    case Exec(argv) => Join(argv)
    case Redir(d, file, m) => Paren(d) + (Sign(m) + file)
    case Pipe(l, r) => Paren(l) + ("|" + Paren(r))
    case List(l, r) => Paren(l) + (";" + Paren(r))
    case Back(d) => Paren(d) + "&"
  }

  function Paren(t: Cmd<string>): (s: string)
    ensures |s| > 0
    decreases t, 1
  {
    "(" + (Print(t) + ")")
  }

  /** A parsed command with its words read off the line. */
  function Text(s: string, c: Cmd<Span>): (t: Cmd<string>)
    requires Good(s, c)
  {
    match c
    case Exec(argv) => Exec(seq(|argv|, k requires 0 <= k < |argv| => s[argv[k].q..argv[k].e]))
    case Redir(d, file, m) => Redir(Text(s, d), s[file.q..file.e], m)
    case Pipe(l, r) => Pipe(Text(s, l), Text(s, r))
    case List(l, r) => List(Text(s, l), Text(s, r))
    case Back(d) => Back(Text(s, d))
  }

  // ----- a text inside the line -----

  predicate At(s: string, i: nat, w: string) { i + |w| <= |s| && s[i..i + |w|] == w }

  lemma AtParts(s: string, i: nat, a: string, b: string)
    requires At(s, i, a + b)
    ensures At(s, i, a) && At(s, i + |a|, b)
  {
    assert (a + b)[..|a|] == a && (a + b)[|a|..] == b;
    assert s[i..i + |a + b|][..|a|] == s[i..i + |a|] && s[i..i + |a + b|][|a|..] == s[i + |a|..i + |a + b|];
  }

  lemma AtChar(s: string, i: nat, w: string)
    requires At(s, i, w) && |w| > 0
    ensures i < |s| && s[i] == w[0]
  {
    assert s[i..i + |w|][0] == w[0];
  }

  /** The command ends here: at a closing parenthesis or the end of the line. */
  predicate Stop(s: string, j: nat) { j == |s| || (j < |s| && s[j] == ')') }

  lemma StopFacts(s: string, j: nat)
    requires j <= |s| && Stop(s, j)
    ensures Skip(s, j) == j && !IsWord(Ch(s, j))
    ensures !Peek(s, j, "<>") && !Peek(s, j, "(") && !Peek(s, j, "|") && !Peek(s, j, "&") && !Peek(s, j, ";")
    ensures ParseRedirs(s, j) == Redirs([], j)
  {
  }

  /** At a character that is no white space the cursor stays. */
  lemma Here(s: string, i: nat)
    requires i < |s| && !IsWs(s[i]) && s[i] != NUL
    ensures Skip(s, i) == i && Ch(s, i) == s[i]
    ensures forall toks :: Peek(s, i, toks) <==> s[i] in toks
  {
  }

  lemma LexSymbol(s: string, i: nat)
    requires i < |s| && IsSym(s[i]) && s[i] != '>'
    ensures Lex(s, i) == Token(s[i], i, i + 1, Skip(s, i + 1)) && Skip(s, i) == i
  {
  }

  /** A well-formed word in the line is one token. */
  lemma LexWord(s: string, i: nat, w: string)
    requires At(s, i, w) && WellFormed(w) && !IsWord(Ch(s, i + |w|)) && NUL !in s
    ensures i < |s| && IsWord(s[i]) && Skip(s, i) == i
    ensures Lex(s, i) == Token('a', i, i + |w|, Skip(s, i + |w|))
  {
    AtChar(s, i, w);
    forall k | i <= k < i + |w| ensures IsWord(s[k]) { assert s[k] == s[i..i + |w|][k - i]; }
    assert i + |w| < |s| ==> s[i + |w|] in s;
  }

  // ----- one step of each parsing function -----

  lemma RedirsNone(s: string, i: nat)
    requires i < |s| && !IsWs(s[i]) && s[i] != '<' && s[i] != '>'
    ensures ParseRedirs(s, i) == Redirs([], i)
  {
  }

  lemma ArgsStep(s: string, i: nat, n: nat)
    requires i < |s| && IsWord(s[i]) && n + 1 < MAXARGS
    requires var t := Lex(s, i); t.kind == 'a' && ParseRedirs(s, t.next) == Redirs([], t.next)
    ensures var t := Lex(s, i);
            var a := ParseArgs(s, t.next, n + 1);
            ParseArgs(s, i, n) == if a.BadArgs? then a else Args([Span(t.q, t.e)] + a.argv, a.rs, a.i)
  {
    hide Lex, ParseRedirs;
    var t := Lex(s, i);
    var a := ParseArgs(s, t.next, n + 1);
    assert Skip(s, i) == i && !Peek(s, i, "|)&;");
    if a.Args? { assert [] + a.rs == a.rs; }
  }

  lemma ExecStep(s: string, i: nat)
    requires i <= |s| && Skip(s, i) == i && !Peek(s, i, "(") && ParseRedirs(s, i) == Redirs([], i)
    ensures var a := ParseArgs(s, i, 0);
            ParseExec(s, i) == if a.BadArgs? then Fail else Ok(Wrap(Exec(a.argv), a.rs), a.i)
  {
    hide ParseRedirs, ParseArgs, ParseBlock, Wrap, Skip, Peek;
    var a := ParseArgs(s, i, 0);
    if a.Args? { assert [] + a.rs == a.rs; }
  }

  lemma BlockStep(s: string, i: nat, k: nat)
    requires NUL !in s && i < k < |s| && s[i] == '(' && s[k] == ')' && Skip(s, i + 1) == i + 1
    requires ParseLine(s, i + 1).Ok? && ParseLine(s, i + 1).i == k
    ensures var r := ParseRedirs(s, Skip(s, k + 1));
            ParseExec(s, i) == if r.NoFile? then Fail else Ok(Wrap(ParseLine(s, i + 1).cmd, r.rs), r.i)
  {
    hide ParseRedirs, ParseArgs, ParseLine, Wrap, Lex, Skip;
    LexSymbol(s, i);
    LexSymbol(s, k);
    Here(s, i);
    Here(s, k);
    assert ParseExec(s, i) == ParseBlock(s, i);
  }

  lemma PipeStep(s: string, i: nat)
    requires i <= |s| && ParseExec(s, i).Ok?
    ensures var c := ParseExec(s, i);
            && (!Peek(s, c.i, "|") ==> ParsePipe(s, i) == Ok(c.cmd, Skip(s, c.i)))
            && (Peek(s, c.i, "|") ==>
                  var d := ParsePipe(s, Lex(s, Skip(s, c.i)).next);
                  ParsePipe(s, i) == if d.Fail? then d else Ok(Pipe(c.cmd, d.cmd), d.i))
  {
    hide ParseExec, Lex, Skip, Peek;
  }

  lemma LineStep(s: string, i: nat)
    requires i <= |s| && ParsePipe(s, i).Ok?
    ensures var b := ParseBacks(s, ParsePipe(s, i).cmd, ParsePipe(s, i).i);
            && (!Peek(s, b.i, ";") ==> ParseLine(s, i) == Ok(b.cmd, Skip(s, b.i)))
            && (Peek(s, b.i, ";") ==>
                  var d := ParseLine(s, Lex(s, Skip(s, b.i)).next);
                  ParseLine(s, i) == if d.Fail? then d else Ok(List(b.cmd, d.cmd), d.i))
  {
    hide ParsePipe, ParseBacks, Lex, Skip, Peek;
  }

  lemma NoBacks(s: string, c: Cmd<Span>, i: nat)
    requires i <= |s| && !Peek(s, i, "&")
    ensures ParseBacks(s, c, i) == Ok(c, Skip(s, i))
  {
    hide Skip, Peek;
  }

  lemma OneBack(s: string, c: Cmd<Span>, i: nat)
    requires i <= |s| && Peek(s, i, "&") && !Peek(s, Lex(s, Skip(s, i)).next, "&")
    ensures ParseBacks(s, c, i) == Ok(Back(c), Skip(s, Lex(s, Skip(s, i)).next))
  {
    hide Skip, Peek, Lex;
    NoBacks(s, Back(c), Lex(s, Skip(s, i)).next);
  }

  // ----- arguments -----

  lemma {:induction false} ArgsBack(s: string, i: nat, ws: seq<string>, n: nat)
    requires NUL !in s && At(s, i, Join(ws)) && Stop(s, i + |Join(ws)|) && n + |ws| < MAXARGS
    requires forall k :: 0 <= k < |ws| ==> WellFormed(ws[k])
    ensures var r := ParseArgs(s, i, n);
            && r.Args? && r.rs == [] && r.i == i + |Join(ws)| && |r.argv| == |ws|
            && (forall k :: 0 <= k < |ws| ==> WordSpan(s, r.argv[k]) && s[r.argv[k].q..r.argv[k].e] == ws[k])
    decreases |ws|
  {
    hide Join, WellFormed, Lex, ParseRedirs, ParseArgs, WordSpan, Stop, IsWord;
    if ws == [] {
      JoinNone(ws);
      NoArgs(s, i, n);
    } else {
      FirstWord(s, i, ws);
      ArgsStep(s, i, n);
      var t := Lex(s, i);
      ArgsBack(s, t.next, ws[1..], n + 1);
    }
  }

  lemma JoinNone(ws: seq<string>)
    requires ws == []
    ensures Join(ws) == ""
  {
  }

  lemma NoArgs(s: string, i: nat, n: nat)
    requires i <= |s| && Stop(s, i) && n < MAXARGS
    ensures ParseArgs(s, i, n) == Args([], [], i)
  {
    StopFacts(s, i);
  }

  /** The first word of a list is one token, and the rest of the list follows it. */
  lemma FirstWord(s: string, i: nat, ws: seq<string>)
    requires NUL !in s && At(s, i, Join(ws)) && Stop(s, i + |Join(ws)|) && |ws| > 0
    requires forall k :: 0 <= k < |ws| ==> WellFormed(ws[k])
    ensures var w, rest := ws[0], ws[1..];
            var t := Lex(s, i);
            && i < |s| && IsWord(s[i]) && t.kind == 'a' && t.q == i && t.e == i + |w| && At(s, i, w)
            && At(s, t.next, Join(rest)) && t.next + |Join(rest)| == i + |Join(ws)|
            && ParseRedirs(s, t.next) == Redirs([], t.next)
            && WordSpan(s, Span(t.q, t.e)) && s[t.q..t.e] == w
  {
    hide Lex, Skip, ParseRedirs, WellFormed, WordSpan, Peek, Join, IsWord;
    var w, rest := ws[0], ws[1..];
    JoinParts(ws);
    if |ws| == 1 {
      StopFacts(s, i + |w|);
      LexWord(s, i, w);
      JoinNone(rest);
    } else {
      NextWord(s, i + |w|, rest);
      AtParts(s, i, w, " " + Join(rest));
      LexWord(s, i, w);
    }
  }

  lemma JoinParts(ws: seq<string>)
    requires |ws| > 0
    ensures Join(ws) == if |ws| == 1 then ws[0] else ws[0] + (" " + Join(ws[1..]))
  {
  }

  /** A space and another word. */
  lemma NextWord(s: string, j: nat, rest: seq<string>)
    requires NUL !in s && j >= 0 && |rest| > 0 && WellFormed(rest[0])
    ensures At(s, j, " " + Join(rest)) ==>
              && j < |s| && !IsWord(Ch(s, j)) && Skip(s, j) == j + 1 && At(s, j + 1, Join(rest))
              && ParseRedirs(s, j + 1) == Redirs([], j + 1)
  {
    hide ParseRedirs;
    if At(s, j, " " + Join(rest)) {
      AtParts(s, j, " ", Join(rest));
      AtChar(s, j, " ");
      JoinStart(rest);
      AtChar(s, j + 1, Join(rest));
      RedirsNone(s, j + 1);
      assert Skip(s, j) == Skip(s, j + 1);
    }
  }

  lemma JoinStart(ws: seq<string>)
    requires |ws| > 0 && WellFormed(ws[0])
    ensures |Join(ws)| > 0 && Join(ws)[0] == ws[0][0]
  {
  }

  // ----- commands -----

  /** Parsed as t, up to j. */
  predicate Yields(s: string, r: Res, t: Cmd<string>, j: nat)
    ensures Yields(s, r, t, j) ==> r.Ok? && r.i == j
  {
    r.Ok? && r.i == j && Good(s, r.cmd) && Text(s, r.cmd) == t
  }

  lemma ExecBack(s: string, i: nat, argv: seq<string>)
    requires NUL !in s && At(s, i, Join(argv)) && Stop(s, i + |Join(argv)|) && |argv| < MAXARGS
    requires forall k :: 0 <= k < |argv| ==> WellFormed(argv[k])
    ensures Yields(s, ParseExec(s, i), Exec(argv), i + |Join(argv)|)
  {
    hide Lex, Skip, ParseRedirs, ParseArgs, ParseExec, ParseBlock, ParsePipe, ParseBacks, ParseLine, Wrap, Join,
         WellFormed, WordSpan;
    if argv == [] {
      JoinNone(argv);
      StopFacts(s, i);
    } else {
      FirstWord(s, i, argv);
      Here(s, i);
      RedirsNone(s, i);
    }
    ExecStep(s, i);
    ArgsBack(s, i, argv, 0);
    var a := ParseArgs(s, i, 0);
    WrapNone(Exec(a.argv), a.rs);
    assert Text(s, Exec(a.argv)) == Exec(argv);
  }

  lemma WrapNone(c: Cmd<Span>, rs: seq<Rd<Span>>)
    requires rs == []
    ensures Wrap(c, rs) == c
  {
  }

  /** What is in parentheses is parsed first; the redirections after it are wrapped around. */
  lemma BlockBack(s: string, i: nat, t: Cmd<string>)
    requires NUL !in s && Fine(t) && At(s, i, Paren(t))
    ensures i < |s| && s[i] == '(' && i + |Paren(t)| <= |s|
    ensures Yields(s, ParseLine(s, i + 1), t, i + |Paren(t)| - 1)
    ensures var r := ParseRedirs(s, Skip(s, i + |Paren(t)|));
            ParseExec(s, i) == if r.NoFile? then Fail else Ok(Wrap(ParseLine(s, i + 1).cmd, r.rs), r.i)
    decreases t, 2
  {
    hide Lex, Skip, ParseRedirs, ParseArgs, ParseExec, ParseBlock, ParsePipe, ParseBacks, ParseLine, Wrap, Print,
         Fine, Yields;
    AtParts(s, i, "(", Print(t) + ")");
    AtParts(s, i + 1, Print(t), ")");
    AtChar(s, i, "(");
    var k := i + 1 + |Print(t)|;
    AtChar(s, k, ")");
    LineBack(s, i + 1, t);
    StartsSolid(s, i + 1, t);
    BlockStep(s, i, k);
  }

  /** A printed command does not start with white space. */
  lemma StartsSolid(s: string, i: nat, t: Cmd<string>)
    requires NUL !in s && Fine(t) && At(s, i, Print(t)) && Stop(s, i + |Print(t)|)
    ensures Skip(s, i) == i
  {
    hide Lex, ParseRedirs, Join, Paren, WordSpan, Skip;
    match t
    case Exec(argv) =>
      if argv == [] { JoinNone(argv); StopFacts(s, i); } else { FirstWord(s, i, argv); Here(s, i); }
    case Redir(d, file, m) => ParenSolid(s, i, d, Sign(m) + file);
    case Pipe(l, r) => ParenSolid(s, i, l, "|" + Paren(r));
    case List(l, r) => ParenSolid(s, i, l, ";" + Paren(r));
    case Back(d) => ParenSolid(s, i, d, "&");
  }

  lemma ParenSolid(s: string, i: nat, t: Cmd<string>, rest: string)
    requires NUL !in s && At(s, i, Paren(t) + rest)
    ensures Skip(s, i) == i
  {
    hide Print;
    AtChar(s, i, Paren(t) + rest);
    Here(s, i);
  }

  /** A parenthesised command with no redirection after it. */
  lemma ParenBack(s: string, i: nat, t: Cmd<string>)
    requires NUL !in s && Fine(t) && At(s, i, Paren(t))
    requires var j := i + |Paren(t)|; Stop(s, j) || (j < |s| && (s[j] == '|' || s[j] == ';' || s[j] == '&'))
    ensures i < |s| && s[i] == '(' && i + |Paren(t)| <= |s|
    ensures Yields(s, ParseExec(s, i), t, i + |Paren(t)|)
    decreases t, 3
  {
    hide Lex, Skip, ParseRedirs, ParseArgs, ParseExec, ParseBlock, ParsePipe, ParseBacks, ParseLine, Wrap, Paren,
         Fine, Good, Text;
    BlockBack(s, i, t);
    var j := i + |Paren(t)|;
    if Stop(s, j) {
      StopFacts(s, j);
    } else {
      Here(s, j);
      RedirsNone(s, j);
    }
    WrapNone(ParseLine(s, i + 1).cmd, []);
  }

  /** A pipeline of one command. */
  lemma PipeEnds(s: string, i: nat, t: Cmd<string>, j: nat)
    requires i <= j <= |s| && Yields(s, ParseExec(s, i), t, j)
             && (Stop(s, j) || (j < |s| && (s[j] == ';' || s[j] == '&')))
    ensures Yields(s, ParsePipe(s, i), t, j)
  {
    hide Lex, Skip, ParseRedirs, ParseArgs, ParseExec, ParseBlock, ParsePipe, ParseBacks, ParseLine, Wrap, Good, Text;
    if Stop(s, j) { StopFacts(s, j); } else { Here(s, j); }
    PipeStep(s, i);
  }

  /** A line of one pipeline. */
  lemma LineEnds(s: string, i: nat, t: Cmd<string>, j: nat)
    requires i <= j <= |s| && Stop(s, j) && Yields(s, ParsePipe(s, i), t, j)
    ensures Yields(s, ParseLine(s, i), t, j)
  {
    hide Lex, Skip, ParseRedirs, ParseArgs, ParseExec, ParseBlock, ParsePipe, ParseBacks, ParseLine, Wrap, Good, Text;
    StopFacts(s, j);
    NoBacks(s, ParsePipe(s, i).cmd, j);
    LineStep(s, i);
  }

  lemma RedirCase(s: string, i: nat, d: Cmd<string>, file: string, m: Mode)
    requires NUL !in s && Fine(d) && WellFormed(file) && At(s, i, Paren(d) + (Sign(m) + file))
    requires Stop(s, i + |Paren(d) + (Sign(m) + file)|)
    ensures Yields(s, ParseLine(s, i), Redir(d, file, m), i + |Paren(d) + (Sign(m) + file)|)
    decreases Redir(d, file, m), 0
  {
    hide Lex, Skip, ParseRedirs, ParseArgs, ParseExec, ParseBlock, ParsePipe, ParseBacks, ParseLine, Wrap, Yields,
         Join, Paren, WellFormed, Stop, At, Peek;
    AtParts(s, i, Paren(d), Sign(m) + file);
    BlockBack(s, i, d);
    RedirBack(s, i + |Paren(d)|, file, m);
    RedirLine(s, i, d, file, m);
  }

  lemma PipeCase(s: string, i: nat, l: Cmd<string>, r: Cmd<string>)
    requires NUL !in s && Fine(l) && Fine(r) && At(s, i, Paren(l) + ("|" + Paren(r)))
    requires Stop(s, i + |Paren(l)| + 1 + |Paren(r)|)
    ensures Yields(s, ParseLine(s, i), Pipe(l, r), i + |Paren(l)| + 1 + |Paren(r)|)
    decreases Pipe(l, r), 0
  {
    hide Lex, Skip, ParseRedirs, ParseArgs, ParseExec, ParseBlock, ParsePipe, ParseBacks, ParseLine, Wrap, Yields,
         Join, Paren, WellFormed, Stop, At, Peek;
    var k := i + |Paren(l)|;
    AtParts(s, i, Paren(l), "|" + Paren(r));
    AtParts(s, k, "|", Paren(r));
    AtChar(s, k, "|");
    ParenBack(s, i, l);
    ParenBack(s, k + 1, r);
    PipeEnds(s, k + 1, r, k + 1 + |Paren(r)|);
    PipeLine(s, i, l, r);
  }

  lemma ListCase(s: string, i: nat, l: Cmd<string>, r: Cmd<string>)
    requires NUL !in s && Fine(l) && Fine(r) && At(s, i, Paren(l) + (";" + Paren(r)))
    requires Stop(s, i + |Paren(l)| + 1 + |Paren(r)|)
    ensures Yields(s, ParseLine(s, i), List(l, r), i + |Paren(l)| + 1 + |Paren(r)|)
    decreases List(l, r), 0
  {
    hide Lex, Skip, ParseRedirs, ParseArgs, ParseExec, ParseBlock, ParsePipe, ParseBacks, ParseLine, Wrap, Yields,
         Join, Paren, WellFormed, Stop, At, Peek;
    var k := i + |Paren(l)|;
    var e := k + 1 + |Paren(r)|;
    AtParts(s, i, Paren(l), ";" + Paren(r));
    AtParts(s, k, ";", Paren(r));
    AtChar(s, k, ";");
    ParenBack(s, i, l);
    PipeEnds(s, i, l, k);
    ParenBack(s, k + 1, r);
    PipeEnds(s, k + 1, r, e);
    LineEnds(s, k + 1, r, e);
    ListLine(s, i, l, r);
  }

  lemma BackCase(s: string, i: nat, d: Cmd<string>)
    requires NUL !in s && Fine(d) && At(s, i, Paren(d) + "&") && Stop(s, i + |Paren(d)| + 1)
    ensures Yields(s, ParseLine(s, i), Back(d), i + |Paren(d)| + 1)
    decreases Back(d), 0
  {
    hide Lex, Skip, ParseRedirs, ParseArgs, ParseExec, ParseBlock, ParsePipe, ParseBacks, ParseLine, Wrap, Yields,
         Join, Paren, WellFormed, Stop, At, Peek;
    AtParts(s, i, Paren(d), "&");
    AtChar(s, i + |Paren(d)|, "&");
    ParenBack(s, i, d);
    PipeEnds(s, i, d, i + |Paren(d)|);
    BackLine(s, i, d);
  }

  lemma LineBack(s: string, i: nat, t: Cmd<string>)
    requires NUL !in s && Fine(t) && At(s, i, Print(t)) && Stop(s, i + |Print(t)|)
    ensures Yields(s, ParseLine(s, i), t, i + |Print(t)|)
    decreases t, 1
  {
    hide Lex, Skip, ParseRedirs, ParseArgs, ParseExec, ParseBlock, ParsePipe, ParseBacks, ParseLine, Wrap, Yields,
         Join, Paren, WellFormed, Stop, At, Peek;
    match t
    case Exec(argv) =>
      var j := i + |Print(t)|;
      ExecBack(s, i, argv);
      AtFits(s, i, Print(t));
      PipeEnds(s, i, t, j);
      LineEnds(s, i, t, j);
    case Redir(d, file, m) => RedirCase(s, i, d, file, m);
    case Pipe(l, r) => PipeCase(s, i, l, r);
    case List(l, r) => ListCase(s, i, l, r);
    case Back(d) => BackCase(s, i, d);
  }

  lemma AtFits(s: string, i: nat, w: string)
    requires At(s, i, w)
    ensures i + |w| <= |s|
  {
  }

  // ----- what follows a parenthesised command -----

  /** The sign of a redirection before a word. */
  lemma LexSign(s: string, k: nat, m: Mode)
    requires NUL !in s && At(s, k, Sign(m)) && k + |Sign(m)| < |s| && IsWord(s[k + |Sign(m)|])
    ensures k < |s| && Skip(s, k) == k && Peek(s, k, "<>")
    ensures Lex(s, k).next == k + |Sign(m)| && ModeOf(Lex(s, k).kind) == m
  {
    AtChar(s, k, Sign(m));
    if m.Append? {
      assert s[k..k + 2][1] == '>';
    }
    Here(s, k + |Sign(m)|);
  }

  lemma RedirStep(s: string, k: nat)
    requires k <= |s| && Skip(s, k) == k && Peek(s, k, "<>")
    requires var u := Lex(s, Lex(s, k).next); u.kind == 'a' && ParseRedirs(s, u.next) == Redirs([], u.next)
    ensures var t := Lex(s, k);
            var u := Lex(s, t.next);
            ParseRedirs(s, k) == Redirs([Rd(Span(u.q, u.e), ModeOf(t.kind))], u.next)
  {
    hide Lex, Skip, Peek;
  }

  lemma RedirBack(s: string, k: nat, file: string, m: Mode)
    requires NUL !in s && At(s, k, Sign(m) + file) && WellFormed(file) && Stop(s, k + |Sign(m) + file|)
    ensures var e := k + |Sign(m) + file|;
            var w := Span(k + |Sign(m)|, e);
            && e <= |s| && k < |s| && Skip(s, k) == k && ParseRedirs(s, k) == Redirs([Rd(w, m)], e)
            && WordSpan(s, w) && s[w.q..w.e] == file
  {
    hide Lex, Skip, ParseRedirs, ParseArgs, ParseExec, ParseBlock, ParsePipe, ParseBacks, ParseLine, Wrap, Sign,
         ModeOf, WellFormed, IsWord, WordSpan, Peek, Stop;
    AtParts(s, k, Sign(m), file);
    var q, e := k + |Sign(m)|, k + |Sign(m) + file|;
    AtFits(s, q, file);
    StopFacts(s, e);
    LexWord(s, q, file);
    LexSign(s, k, m);
    RedirStep(s, k);
  }

  lemma RedirLine(s: string, i: nat, d: Cmd<string>, file: string, m: Mode)
    requires NUL !in s && i + |Paren(d)| + |Sign(m) + file| <= |s| && i < |s|
    requires var k, p := i + |Paren(d)|, ParseLine(s, i + 1);
             var e := k + |Sign(m) + file|;
             var w := Span(k + |Sign(m)|, e);
             && Yields(s, p, d, k - 1) && Stop(s, e) && ParseExec(s, i) == Ok(Wrap(p.cmd, [Rd(w, m)]), e)
             && WordSpan(s, w) && s[w.q..w.e] == file
    ensures Yields(s, ParseLine(s, i), Redir(d, file, m), i + |Paren(d)| + |Sign(m) + file|)
  {
    hide Lex, Skip, ParseRedirs, ParseArgs, ParseExec, ParseBlock, ParsePipe, ParseBacks, ParseLine, Wrap, Paren,
         Sign, WordSpan, Stop;
    var k, c := i + |Paren(d)|, ParseLine(s, i + 1).cmd;
    var e := k + |Sign(m) + file|;
    var w := Span(k + |Sign(m)|, e);
    WrapOne(c, Rd(w, m));
    assert Yields(s, ParseExec(s, i), Redir(d, file, m), e);
    hide Good, Text;
    PipeEnds(s, i, Redir(d, file, m), e);
    LineEnds(s, i, Redir(d, file, m), e);
  }

  lemma WrapOne(c: Cmd<Span>, r: Rd<Span>)
    ensures Wrap(c, [r]) == Redir(c, r.file, r.mode)
  {
    WrapNone(Redir(c, r.file, r.mode), []);
    assert [r][1..] == [];
  }

  lemma PipeLine(s: string, i: nat, l: Cmd<string>, r: Cmd<string>)
    requires NUL !in s && i + |Paren(l)| + 1 + |Paren(r)| <= |s|
    requires var k := i + |Paren(l)|;
             var e := k + 1 + |Paren(r)|;
             && s[k] == '|' && s[k + 1] == '(' && Stop(s, e)
             && Yields(s, ParseExec(s, i), l, k) && Yields(s, ParsePipe(s, k + 1), r, e)
    ensures Yields(s, ParseLine(s, i), Pipe(l, r), i + |Paren(l)| + 1 + |Paren(r)|)
  {
    hide Lex, Skip, ParseRedirs, ParseArgs, ParseExec, ParseBlock, ParsePipe, ParseBacks, ParseLine, Wrap, Paren, Stop;
    var k := i + |Paren(l)|;
    var e := k + 1 + |Paren(r)|;
    Here(s, k);
    Here(s, k + 1);
    LexSymbol(s, k);
    PipeStep(s, i);
    assert Yields(s, ParsePipe(s, i), Pipe(l, r), e);
    LineEnds(s, i, Pipe(l, r), e);
  }

  lemma ListLine(s: string, i: nat, l: Cmd<string>, r: Cmd<string>)
    requires NUL !in s && i + |Paren(l)| + 1 + |Paren(r)| <= |s|
    requires var k := i + |Paren(l)|;
             var e := k + 1 + |Paren(r)|;
             && s[k] == ';' && s[k + 1] == '('
             && Yields(s, ParsePipe(s, i), l, k) && Yields(s, ParseLine(s, k + 1), r, e)
    ensures Yields(s, ParseLine(s, i), List(l, r), i + |Paren(l)| + 1 + |Paren(r)|)
  {
    hide Lex, Skip, ParseRedirs, ParseArgs, ParseExec, ParseBlock, ParsePipe, ParseBacks, ParseLine, Wrap, Paren;
    var k := i + |Paren(l)|;
    Here(s, k);
    Here(s, k + 1);
    LexSymbol(s, k);
    NoBacks(s, ParsePipe(s, i).cmd, k);
    LineStep(s, i);
  }

  lemma BackLine(s: string, i: nat, d: Cmd<string>)
    requires NUL !in s && i + |Paren(d)| + 1 <= |s|
    requires var k := i + |Paren(d)|;
             s[k] == '&' && Stop(s, k + 1) && Yields(s, ParsePipe(s, i), d, k)
    ensures Yields(s, ParseLine(s, i), Back(d), i + |Paren(d)| + 1)
  {
    hide Lex, Skip, ParseRedirs, ParseArgs, ParseExec, ParseBlock, ParsePipe, ParseBacks, ParseLine, Wrap, Paren, Stop;
    var k := i + |Paren(d)|;
    Here(s, k);
    LexSymbol(s, k);
    StopFacts(s, k + 1);
    OneBack(s, ParsePipe(s, i).cmd, k);
    LineStep(s, i);
  }

  // ----- the round trip -----

  lemma {:induction false} JoinNoNul(ws: seq<string>)
    requires forall k :: 0 <= k < |ws| ==> WellFormed(ws[k])
    ensures NUL !in Join(ws)
    decreases |ws|
  {
    if |ws| == 1 {
      assert WellFormed(ws[0]);
    } else if |ws| > 1 {
      assert WellFormed(ws[0]);
      JoinNoNul(ws[1..]);
    }
  }

  lemma {:induction false} PrintNoNul(t: Cmd<string>)
    requires Fine(t)
    ensures NUL !in Print(t)
  {
    match t
    case Exec(argv) => JoinNoNul(argv);
    case Redir(d, file, _) => PrintNoNul(d);
    case Pipe(l, r) => PrintNoNul(l); PrintNoNul(r);
    case List(l, r) => PrintNoNul(l); PrintNoNul(r);
    case Back(d) => PrintNoNul(d);
  }

  /** Parsing the printing of any command gives it back, word for word. */
  lemma RoundTrip(t: Cmd<string>)
    requires Fine(t)
    ensures Yields(Print(t), ParseCmd(Print(t)), t, |Print(t)|)
  {
    var s := Print(t);
    PrintNoNul(t);
    assert At(s, 0, s);
    LineBack(s, 0, t);
    StopFacts(s, |s|);
  }

  // ----- every accepted line, and the buffer -----

  /** The words of an accepted line are words the lexer takes whole. */
  lemma {:induction false} GoodIsFine(s: string, c: Cmd<Span>)
    requires NUL !in s && Good(s, c)
    ensures Fine(Text(s, c))
    decreases c
  {
    match c
    case Exec(argv) =>
      forall k | 0 <= k < |argv| ensures WellFormed(s[argv[k].q..argv[k].e]) { SpanIsWord(s, argv[k]); }
    case Redir(d, file, _) => GoodIsFine(s, d); SpanIsWord(s, file);
    case Pipe(l, r) => GoodIsFine(s, l); GoodIsFine(s, r);
    case List(l, r) => GoodIsFine(s, l); GoodIsFine(s, r);
    case Back(d) => GoodIsFine(s, d);
  }

  lemma SpanIsWord(s: string, w: Span)
    requires WordSpan(s, w)
    ensures WellFormed(s[w.q..w.e])
  {
  }

  /** Every line the shell accepts means the same as its parenthesised printing. */
  lemma Reprints(s: string)
    requires NUL !in s && ParseCmd(s).Ok?
    ensures Good(s, ParseCmd(s).cmd)
    ensures var t := Text(s, ParseCmd(s).cmd);
            Fine(t) && Yields(Print(t), ParseCmd(Print(t)), t, |Print(t)|)
  {
    var c := ParseCmd(s).cmd;
    hide ParseCmd;
    GoodIsFine(s, c);
    RoundTrip(Text(s, c));
  }

  ghost function TreeWords(t: Cmd<string>): (w: set<string>) {
    match t
    case Exec(argv) => set k | 0 <= k < |argv| :: argv[k]
    case Redir(d, file, _) => TreeWords(d) + {file}
    case Pipe(l, r) => TreeWords(l) + TreeWords(r)
    case List(l, r) => TreeWords(l) + TreeWords(r)
    case Back(d) => TreeWords(d)
  }

  /** A word of the tree is the text of a recorded word. */
  lemma {:induction false} FindWord(s: string, c: Cmd<Span>, x: string) returns (w: Span)
    requires Good(s, c) && x in TreeWords(Text(s, c))
    ensures w in Shell.Words(c) && w.q <= w.e <= |s| && s[w.q..w.e] == x
    decreases c
  {
    match c
    case Exec(argv) =>
      var k :| 0 <= k < |argv| && Text(s, c).argv[k] == x;
      w := argv[k];
      assert w in Shell.Words(c);
    case Redir(d, file, _) => if x in TreeWords(Text(s, d)) { w := FindWord(s, d, x); } else { w := file; }
    case Pipe(l, r) => if x in TreeWords(Text(s, l)) { w := FindWord(s, l, x); } else { w := FindWord(s, r, x); }
    case List(l, r) => if x in TreeWords(Text(s, l)) { w := FindWord(s, l, x); } else { w := FindWord(s, r, x); }
    case Back(d) => w := FindWord(s, d, x);
  }

  /** ... and the text of a recorded word is a word of the tree. */
  lemma {:induction false} WordInTree(s: string, c: Cmd<Span>, w: Span)
    requires Good(s, c) && w in Shell.Words(c)
    ensures w.q <= w.e <= |s| && s[w.q..w.e] in TreeWords(Text(s, c))
    decreases c
  {
    match c
    case Exec(argv) =>
      var k :| 0 <= k < |argv| && argv[k] == w;
      assert Text(s, c).argv[k] == s[w.q..w.e];
    case Redir(d, file, _) => if w in Shell.Words(d) { WordInTree(s, d, w); }
    case Pipe(l, r) => if w in Shell.Words(l) { WordInTree(s, l, w); } else { WordInTree(s, r, w); }
    case List(l, r) => if w in Shell.Words(l) { WordInTree(s, l, w); } else { WordInTree(s, r, w); }
    case Back(d) => WordInTree(s, d, w);
  }

  /** Printing a command and giving it to parsecmd leaves the command's words, and no others,
      as the C strings the parsed command points to. */
  method ParsePrinted(t: Cmd<string>) returns (r: Res, buf: array<char>)
    requires Fine(t)
    ensures Yields(Print(t), r, t, |Print(t)|) && fresh(buf)
    ensures forall x :: x in TreeWords(t) ==> exists w :: w in Shell.Words(r.cmd) && Shell.CString(buf[..], w.q, x)
    ensures forall w :: w in Shell.Words(r.cmd) ==>
              exists x :: x in TreeWords(t) && Shell.CString(buf[..], w.q, x)
  {
    hide ParseCmd, Print, Shell.CString;
    PrintNoNul(t);
    RoundTrip(t);
    var s := Print(t);
    r, buf := Shell.ParseCommand(s);
    forall x | x in TreeWords(t) ensures exists w :: w in Shell.Words(r.cmd) && Shell.CString(buf[..], w.q, x) {
      var w := FindWord(s, r.cmd, x);
    }
    forall w | w in Shell.Words(r.cmd) ensures exists x :: x in TreeWords(t) && Shell.CString(buf[..], w.q, x) {
      WordInTree(s, r.cmd, w);
    }
  }
}
