/** The shell's parser in code (user/sh.c): a cursor moved along the line, and nulterminate's
    writes into it. */
module Shell {
  import opened ShellGrammar

  lemma SkipTwice(s: string, i: nat)
    requires i <= |s|
    ensures Skip(s, Skip(s, i)) == Skip(s, i)
  {
  }

  // ----- the loops' accumulators -----

  function ConsRedirs(rs: seq<Rd<Span>>, r: Redirs): (t: Redirs) {
    if r.NoFile? then r else Redirs(rs + r.rs, r.i)
  }

  function ConsArgs(argv: seq<Span>, rs: seq<Rd<Span>>, a: Args): (t: Args) {
    if a.BadArgs? then a else Args(argv + a.argv, rs + a.rs, a.i)
  }

  lemma RedirsMore(s: string, i: nat, rs: seq<Rd<Span>>)
    requires i <= |s| && ShellGrammar.Peek(s, i, "<>")
    ensures var t := Lex(s, Skip(s, i));
            var u := Lex(s, t.next);
            ConsRedirs(rs, ParseRedirs(s, i)) ==
            if u.kind != 'a' then NoFile
            else ConsRedirs(rs + [Rd(Span(u.q, u.e), ModeOf(t.kind))], ParseRedirs(s, u.next))
  {
    var t := Lex(s, Skip(s, i));
    var u := Lex(s, t.next);
    if u.kind == 'a' {
      var r, one := ParseRedirs(s, u.next), [Rd(Span(u.q, u.e), ModeOf(t.kind))];
      if r.Redirs? { assert rs + (one + r.rs) == (rs + one) + r.rs; }
    }
  }

  lemma ArgsMore(s: string, i: nat, argv: seq<Span>, rs: seq<Rd<Span>>)
    requires i <= |s| && !ShellGrammar.Peek(s, i, "|)&;") && |argv| < MAXARGS
    ensures var t := Lex(s, Skip(s, i));
            ConsArgs(argv, rs, ParseArgs(s, i, |argv|)) ==
            if t.kind == NUL then Args(argv, rs, t.next)
            else if t.kind != 'a' || |argv| + 1 >= MAXARGS then BadArgs
            else
              var r := ParseRedirs(s, t.next);
              if r.NoFile? then BadArgs
              else ConsArgs(argv + [Span(t.q, t.e)], rs + r.rs, ParseArgs(s, r.i, |argv| + 1))
  {
    hide Lex, Skip, ParseRedirs, ParseArgs, ConsArgs, ShellGrammar.Peek, WordSpan;
    ArgsStep(s, i, |argv|);
    var t := Lex(s, Skip(s, i));
    if t.kind == NUL {
      ConsNothing(argv, rs, t.next);
    } else if t.kind != 'a' || |argv| + 1 >= MAXARGS || ParseRedirs(s, t.next).NoFile? {
      ConsBad(argv, rs);
    } else {
      var r := ParseRedirs(s, t.next);
      ConsMore(argv, rs, Span(t.q, t.e), r.rs, ParseArgs(s, r.i, |argv| + 1));
    }
  }

  lemma ConsNothing(argv: seq<Span>, rs: seq<Rd<Span>>, i: nat)
    ensures ConsArgs(argv, rs, Args([], [], i)) == Args(argv, rs, i)
  {
    assert argv + [] == argv && rs + [] == rs;
  }

  lemma ConsBad(argv: seq<Span>, rs: seq<Rd<Span>>)
    ensures ConsArgs(argv, rs, BadArgs) == BadArgs
  {
  }

  lemma ConsMore(argv: seq<Span>, rs: seq<Rd<Span>>, w: Span, more: seq<Rd<Span>>, a: Args)
    ensures ConsArgs(argv + [w], rs + more, a) ==
            ConsArgs(argv, rs, if a.BadArgs? then a else Args([w] + a.argv, more + a.rs, a.i))
  {
    if a.Args? {
      assert argv + ([w] + a.argv) == (argv + [w]) + a.argv;
      assert rs + (more + a.rs) == (rs + more) + a.rs;
    }
  }

  lemma ArgsStop(s: string, i: nat, argv: seq<Span>, rs: seq<Rd<Span>>)
    requires i <= |s| && ShellGrammar.Peek(s, i, "|)&;") && |argv| < MAXARGS
    ensures ConsArgs(argv, rs, ParseArgs(s, i, |argv|)) == Args(argv, rs, Skip(s, i))
  {
    hide Lex, Skip, ParseArgs, ConsArgs, ShellGrammar.Peek;
    NoArgs(s, i, |argv|);
    ConsNothing(argv, rs, Skip(s, i));
  }

  class Parser {
    const s: string
    var pos: nat                    // *ps

    ghost predicate Valid()
      reads this
    {
      pos <= |s| && NUL !in s
    }

    constructor (line: string)
      requires NUL !in line
      ensures Valid() && s == line && pos == 0
    {
      s, pos := line, 0;
    }

    method SkipSpace()
      requires Valid()
      modifies this
      ensures Valid() && pos == Skip(s, old(pos))
    {
      while pos < |s| && IsWs(s[pos])
        invariant pos <= |s| && Skip(s, pos) == Skip(s, old(pos))
        decreases |s| - pos
      {
        pos := pos + 1;
      }
    }

    /** peek: whether the next character is one of toks; the cursor moves past white space. */
    method Peek(toks: string) returns (b: bool)
      requires Valid()
      modifies this
      ensures Valid() && pos == Skip(s, old(pos)) && b == ShellGrammar.Peek(s, old(pos), toks)
    {
      SkipSpace();
      return pos < |s| && s[pos] in toks;
    }

    /** gettoken: the next token and its place; the cursor moves past it. */
    method GetToken() returns (kind: char, q: nat, e: nat)
      requires Valid()
      modifies this
      ensures Valid() && Token(kind, q, e, pos) == Lex(s, old(pos))
    {
      SkipSpace();
      q := pos;
      if pos >= |s| { return NUL, q, q; }
      kind := s[pos];
      assert kind in s;
      if kind == '|' || kind == '(' || kind == ')' || kind == ';' || kind == '&' || kind == '<' {
        pos := pos + 1;
      } else if kind == '>' {
        pos := pos + 1;
        if pos < |s| && s[pos] == '>' {
          kind := '+';
          pos := pos + 1;
        }
      } else {
        kind := 'a';
        while pos < |s| && !IsWs(s[pos]) && !IsSym(s[pos])
          invariant q <= pos <= |s| && WordEnd(s, pos) == WordEnd(s, q)
          decreases |s| - pos
        {
          pos := pos + 1;
        }
      }
      e := pos;
      SkipSpace();
    }

    /** parseredirs: the redirections to wrap around the command, innermost first. */
    method ParseRedirs() returns (r: Redirs)
      requires Valid()
      modifies this
      ensures Valid() && r == ShellGrammar.ParseRedirs(s, old(pos)) && (r.Redirs? ==> r.i == pos)
    {
      var rs: seq<Rd<Span>> := [];
      ghost var want := ShellGrammar.ParseRedirs(s, pos);
      assert ConsRedirs(rs, want) == want;
      while true
        invariant Valid() && want == ConsRedirs(rs, ShellGrammar.ParseRedirs(s, pos))
        decreases |s| - pos
      {
        ghost var i := pos;
        SkipTwice(s, i);
        var more := Peek("<>");
        if !more { return Redirs(rs, pos); }
        RedirsMore(s, i, rs);
        var tok, q, e := GetToken();
        var kind, fq, fe := GetToken();
        if kind != 'a' { return NoFile; }
        rs := rs + [Rd(Span(fq, fe), ModeOf(tok))];
      }
    }

    method ParseExec() returns (r: Res)
      requires Valid()
      modifies this
      ensures Valid() && r == ShellGrammar.ParseExec(s, old(pos)) && (r.Ok? ==> r.i == pos)
      decreases |s| - pos, 2
    {
      hide Lex, Skip, ShellGrammar.Peek, ShellGrammar.ParseRedirs, ShellGrammar.ParseBlock, ParseArgs, Wrap, WordSpan,
           Good;
      ghost var start := pos;
      SkipTwice(s, start);
      var block := Peek("(");
      if block {
        r := ParseBlock();
        return;
      }
      var first := ParseRedirs();
      if first.NoFile? { return Fail; }
      var argv: seq<Span>, rs: seq<Rd<Span>> := [], [];
      ghost var want := ParseArgs(s, pos, 0);
      assert ConsArgs(argv, rs, want) == want;
      while true
        invariant Valid() && |argv| < MAXARGS && want == ConsArgs(argv, rs, ParseArgs(s, pos, |argv|))
        decreases |s| - pos
      {
        ghost var i := pos;
        var stop := Peek("|)&;");
        if stop {
          ArgsStop(s, i, argv, rs);
          break;
        }
        ArgsMore(s, i, argv, rs);
        var tok, q, e := GetToken();
        if tok == NUL { break; }
        if tok != 'a' { return Fail; }
        argv := argv + [Span(q, e)];
        if |argv| >= MAXARGS { return Fail; }
        var more := ParseRedirs();
        if more.NoFile? { return Fail; }
        rs := rs + more.rs;
      }
      return Ok(Wrap(Exec(argv), first.rs + rs), pos);
    }

    method ParseBlock() returns (r: Res)
      requires Valid()
      modifies this
      ensures Valid() && r == ShellGrammar.ParseBlock(s, old(pos)) && (r.Ok? ==> r.i == pos)
      decreases |s| - pos, 1
    {
      ghost var i := pos;
      var open := Peek("(");
      if !open { return Fail; }
      var tok, q, e := GetToken();
      var c := ParseLine();
      if c.Fail? { return Fail; }
      var close := Peek(")");
      if !close { return Fail; }
      tok, q, e := GetToken();
      var rs := ParseRedirs();
      if rs.NoFile? { return Fail; }
      return Ok(Wrap(c.cmd, rs.rs), pos);
    }

    method ParsePipe() returns (r: Res)
      requires Valid()
      modifies this
      ensures Valid() && r == ShellGrammar.ParsePipe(s, old(pos)) && (r.Ok? ==> r.i == pos)
      decreases |s| - pos, 3
    {
      var c := ParseExec();
      if c.Fail? { return Fail; }
      var bar := Peek("|");
      if bar {
        var tok, q, e := GetToken();
        var d := ParsePipe();
        if d.Fail? { return Fail; }
        return Ok(Pipe(c.cmd, d.cmd), pos);
      }
      return Ok(c.cmd, pos);
    }

    method ParseLine() returns (r: Res)
      requires Valid()
      modifies this
      ensures Valid() && r == ShellGrammar.ParseLine(s, old(pos)) && (r.Ok? ==> r.i == pos)
      decreases |s| - pos, 4
    {
      var c := ParsePipe();
      if c.Fail? { return Fail; }
      var cmd := c.cmd;
      ghost var want := ParseBacks(s, cmd, pos);
      while true
        invariant Valid() && want == ParseBacks(s, cmd, pos) && old(pos) <= pos
        decreases |s| - pos
      {
        ghost var i := pos;
        var amp := Peek("&");
        if !amp { break; }
        var tok, q, e := GetToken();
        cmd := Back(cmd);
      }
      SkipTwice(s, pos);
      var semi := Peek(";");
      if semi {
        var tok, q, e := GetToken();
        var d := ParseLine();
        if d.Fail? { return Fail; }
        return Ok(List(cmd, d.cmd), pos);
      }
      return Ok(cmd, pos);
    }

    /** parsecmd, but for nulterminate. */
    method ParseCmd() returns (r: Res)
      requires Valid() && pos == 0
      modifies this
      ensures r == ShellGrammar.ParseCmd(s)
    {
      var c := ParseLine();
      if c.Fail? { return Fail; }
      var _ := Peek("");
      if pos != |s| { return Fail; }
      return Ok(c.cmd, pos);
    }
  }

  // ----- nulterminate -----

  /** The words a command records. */
  ghost function Words(c: Cmd<Span>): (w: set<Span>) {
    match c
    case Exec(argv) => set k | 0 <= k < |argv| :: argv[k]
    case Redir(d, file, _) => Words(d) + {file}
    case Pipe(l, r) => Words(l) + Words(r)
    case List(l, r) => Words(l) + Words(r)
    case Back(d) => Words(d)
  }

  /** A word of c ends at j. */
  ghost predicate EndsAt(c: Cmd<Span>, j: nat) { exists w :: w in Words(c) && w.e == j }

  /** nulterminate: a NUL is written where a recorded word ends, and nowhere else. */
  method NulTerminate(c: Cmd<Span>, buf: array<char>)
    requires forall w :: w in Words(c) ==> w.e < buf.Length
    modifies buf
    ensures forall j :: 0 <= j < buf.Length ==> buf[j] == if EndsAt(c, j) then NUL else old(buf[j])
    decreases c
  {
    match c
    case Exec(argv) =>
      for i := 0 to |argv|
        invariant forall j :: 0 <= j < buf.Length ==>
                    buf[j] == if exists k :: 0 <= k < i && argv[k].e == j then NUL else old(buf[j])
      {
        assert argv[i] in Words(c);
        buf[argv[i].e] := NUL;
      }
      forall j | 0 <= j < buf.Length
        ensures EndsAt(c, j) <==> exists k :: 0 <= k < |argv| && argv[k].e == j
      {
        if k :| 0 <= k < |argv| && argv[k].e == j { assert argv[k] in Words(c); }
      }
    case Redir(d, file, _) =>
      EndsOf(c);
      NulTerminate(d, buf);
      buf[file.e] := NUL;
    case Pipe(l, r) =>
      EndsOf(c);
      NulTerminate(l, buf);
      NulTerminate(r, buf);
    case List(l, r) =>
      EndsOf(c);
      NulTerminate(l, buf);
      NulTerminate(r, buf);
    case Back(d) =>
      EndsOf(c);
      NulTerminate(d, buf);
  }

  /** A word ends at j, by the parts of the command. */
  ghost predicate PartEnds(c: Cmd<Span>, j: nat)
    requires !c.Exec?
  {
    match c
    case Redir(d, file, _) => EndsAt(d, j) || file.e == j
    case Pipe(l, r) => EndsAt(l, j) || EndsAt(r, j)
    case List(l, r) => EndsAt(l, j) || EndsAt(r, j)
    case Back(d) => EndsAt(d, j)
  }

  lemma EndsOf(c: Cmd<Span>)
    requires !c.Exec?
    ensures forall j: nat :: EndsAt(c, j) <==> PartEnds(c, j)
  {
    if c.Redir? { assert c.file in Words(c); }
  }

  lemma {:induction false} GoodWords(s: string, c: Cmd<Span>, w: Span)
    requires Good(s, c) && w in Words(c)
    ensures WordSpan(s, w)
    decreases c
  {
    match c
    case Exec(argv) =>
    case Redir(d, file, _) => if w in Words(d) { GoodWords(s, d, w); }
    case Pipe(l, r) => if w in Words(l) { GoodWords(s, l, w); } else { GoodWords(s, r, w); }
    case List(l, r) => if w in Words(l) { GoodWords(s, l, w); } else { GoodWords(s, r, w); }
    case Back(d) => GoodWords(s, d, w);
  }

  /** The C string at q. */
  ghost predicate CString(buf: seq<char>, q: nat, w: string) {
    q + |w| < |buf| && buf[q..q + |w|] == w && buf[q + |w|] == NUL && NUL !in w
  }

  /** No word's end lies inside a word, so terminating one damages no other. */
  lemma WordKept(s: string, c: Cmd<Span>, buf: seq<char>, w: Span)
    requires Good(s, c) && w in Words(c) && |buf| == |s| + 1
    requires forall j :: 0 <= j < |buf| ==> buf[j] == if EndsAt(c, j) then NUL else Ch(s, j)
    ensures w.q < w.e <= |s| && CString(buf, w.q, s[w.q..w.e])
  {
    GoodWords(s, c, w);
    forall j | w.q <= j < w.e ensures buf[j] == s[j] && s[j] != NUL {
      if EndsAt(c, j) {
        var v :| v in Words(c) && v.e == j;
        GoodWords(s, c, v);
        assert false;
      }
    }
    assert EndsAt(c, w.e);
    assert buf[w.q..w.e] == s[w.q..w.e];
  }

  /** parsecmd on the shell's buffer: when it returns a command, every word of it is a C string
      in the buffer, exactly the token it was. */
  method ParseCommand(line: string) returns (r: Res, buf: array<char>)
    requires NUL !in line
    ensures r == ShellGrammar.ParseCmd(line) && fresh(buf) && buf.Length == |line| + 1
    ensures r.Ok? ==> forall w :: w in Words(r.cmd) ==> w.q < w.e <= |line| && CString(buf[..], w.q, line[w.q..w.e])
  {
    buf := new char[|line| + 1](i requires i >= 0 => Ch(line, i));
    var p := new Parser(line);
    r := p.ParseCmd();
    if r.Ok? {
      forall w | w in Words(r.cmd) ensures w.e < buf.Length { GoodWords(line, r.cmd, w); }
      NulTerminate(r.cmd, buf);
      forall w | w in Words(r.cmd) ensures w.q < w.e <= |line| && CString(buf[..], w.q, line[w.q..w.e]) {
        WordKept(line, r.cmd, buf[..], w);
      }
    }
  }
}
