/** The shell's grammar (user/sh.c), as functions on a command line and a position in it: what
    each parsing function returns and where it leaves the cursor.  The line has no NUL in it;
    reading at its end gives the NUL there. */
module ShellGrammar {

  const MAXARGS := 10
  const NUL := '\U{0}'

  /** The bytes of a word: s[q..e]. */
  datatype Span = Span(q: nat, e: nat)

  datatype Mode = In | Out | Append

  /** A parsed command; W is how words are given. */
  datatype Cmd<W> =
    | Exec(argv: seq<W>)
    | Redir(cmd: Cmd<W>, file: W, mode: Mode)
    | Pipe(left: Cmd<W>, right: Cmd<W>)
    | List(left: Cmd<W>, right: Cmd<W>)
    | Back(cmd: Cmd<W>)

  datatype Rd<W> = Rd(file: W, mode: Mode)

  /** A parsing function's result; Fail where the shell panics. */
  datatype Res = Ok(cmd: Cmd<Span>, i: nat) | Fail
  datatype Redirs = Redirs(rs: seq<Rd<Span>>, i: nat) | NoFile
  datatype Args = Args(argv: seq<Span>, rs: seq<Rd<Span>>, i: nat) | BadArgs

  // ----- characters and tokens -----

  predicate IsWs(c: char) { c == ' ' || c == '\t' || c == '\r' || c == '\n' || c == '\U{B}' }
  predicate IsSym(c: char) { c == '<' || c == '|' || c == '>' || c == '&' || c == ';' || c == '(' || c == ')' }
  predicate IsWord(c: char) { !IsWs(c) && !IsSym(c) && c != NUL }

  function Ch(s: string, i: nat): (c: char) { if i < |s| then s[i] else NUL }

  function Skip(s: string, i: nat): (j: nat)
    requires i <= |s|
    ensures i <= j <= |s| && !IsWs(Ch(s, j)) && forall k :: i <= k < j ==> IsWs(s[k])
    decreases |s| - i
  {
    if i < |s| && IsWs(s[i]) then Skip(s, i + 1) else i
  }

  function WordEnd(s: string, i: nat): (j: nat)
    requires i <= |s|
    ensures i <= j <= |s| && (j < |s| ==> IsWs(s[j]) || IsSym(s[j])) && forall k :: i <= k < j ==>
            !IsWs(s[k]) && !IsSym(s[k])
    decreases |s| - i
  {
    if i < |s| && !IsWs(s[i]) && !IsSym(s[i]) then WordEnd(s, i + 1) else i
  }

  /** gettoken: NUL at the end, 'a' for a word, '+' for ">>", else the symbol itself. */
  datatype Token = Token(kind: char, q: nat, e: nat, next: nat)

  function Lex(s: string, i: nat): (t: Token)
    requires i <= |s|
    ensures i <= t.q <= t.e <= t.next <= |s|
    ensures t.kind != NUL ==> t.q < t.e
    ensures t.kind == 'a' && NUL !in s ==> WordSpan(s, Span(t.q, t.e))
  {
    var q := Skip(s, i);
    var c := Ch(s, q);
    if q >= |s| || c == NUL then Token(NUL, q, q, q)
    else if c == '>' && Ch(s, q + 1) == '>' then Token('+', q, q + 2, Skip(s, q + 2))
    else if IsSym(c) then Token(c, q, q + 1, Skip(s, q + 1))
    else
      var e := WordEnd(s, q);
      Token('a', q, e, Skip(s, e))
  }

  /** A maximal run of word characters. */
  predicate WordSpan(s: string, w: Span) {
    w.q < w.e <= |s| && (forall k :: w.q <= k < w.e ==> IsWord(s[k])) && !IsWord(Ch(s, w.e))
  }

  predicate Peek(s: string, i: nat, toks: string)
    requires i <= |s|
  {
    Ch(s, Skip(s, i)) != NUL && Ch(s, Skip(s, i)) in toks
  }

  // ----- the grammar -----

  function ModeOf(tok: char): (m: Mode) { if tok == '<' then In else if tok == '>' then Out else Append }

  /** redircmd around cmd, the first one innermost. */
  function Wrap<W>(cmd: Cmd<W>, rs: seq<Rd<W>>): (c: Cmd<W>)
    decreases |rs|
  {
    if rs == [] then cmd else Wrap(Redir(cmd, rs[0].file, rs[0].mode), rs[1..])
  }

  /** Every recorded word is a maximal run of word characters, and no command has more
      arguments than fit. */
  predicate Good(s: string, c: Cmd<Span>) {
    match c
    case Exec(argv) => |argv| < MAXARGS && forall k :: 0 <= k < |argv| ==> WordSpan(s, argv[k])
    case Redir(d, file, _) => WordSpan(s, file) && Good(s, d)
    case Pipe(l, r) => Good(s, l) && Good(s, r)
    case List(l, r) => Good(s, l) && Good(s, r)
    case Back(d) => Good(s, d)
  }

  lemma {:induction false} GoodWrap(s: string, c: Cmd<Span>, rs: seq<Rd<Span>>)
    requires Good(s, c) && forall k :: 0 <= k < |rs| ==> WordSpan(s, rs[k].file)
    ensures Good(s, Wrap(c, rs))
    decreases |rs|
  {
    if rs != [] { GoodWrap(s, Redir(c, rs[0].file, rs[0].mode), rs[1..]); }
  }

  function ParseRedirs(s: string, i: nat): (r: Redirs)
    requires i <= |s|
    ensures r.Redirs? ==> i <= r.i <= |s| && (NUL !in s ==> forall k :: 0 <= k < |r.rs| ==> WordSpan(s, r.rs[k].file))
    decreases |s| - i
  {
    if Peek(s, i, "<>") then
      var t := Lex(s, Skip(s, i));
      var u := Lex(s, t.next);
      if u.kind != 'a' then NoFile
      else
        var r := ParseRedirs(s, u.next);
        if r.NoFile? then r else Redirs([Rd(Span(u.q, u.e), ModeOf(t.kind))] + r.rs, r.i)
    else Redirs([], Skip(s, i))
  }

  /** The loop of parseexec, with n arguments already there. */
  function ParseArgs(s: string, i: nat, n: nat): (r: Args)
    requires i <= |s| && n < MAXARGS
    ensures r.Args? ==> i <= r.i <= |s| && n + |r.argv| < MAXARGS
    decreases |s| - i
  {
    if Peek(s, i, "|)&;") then Args([], [], Skip(s, i))
    else
      var t := Lex(s, Skip(s, i));
      if t.kind == NUL then Args([], [], t.next)
      else if t.kind != 'a' || n + 1 >= MAXARGS then BadArgs
      else
        var r := ParseRedirs(s, t.next);
        if r.NoFile? then BadArgs
        else
          var a := ParseArgs(s, r.i, n + 1);
          if a.BadArgs? then a else Args([Span(t.q, t.e)] + a.argv, r.rs + a.rs, a.i)
  }

  /** Arguments and file names are words of the line. */
  ghost predicate Words(s: string, a: Args) {
    a.Args? ==>
      && (forall k :: 0 <= k < |a.argv| ==> WordSpan(s, a.argv[k]))
      && (forall k :: 0 <= k < |a.rs| ==> WordSpan(s, a.rs[k].file))
  }

  lemma NoArgs(s: string, i: nat, n: nat)
    requires i <= |s| && Peek(s, i, "|)&;") && n < MAXARGS
    ensures ParseArgs(s, i, n) == Args([], [], Skip(s, i))
  {
    hide Lex, Skip, ParseRedirs, Peek, WordSpan;
  }

  /** One turn of the loop of parseexec. */
  lemma ArgsStep(s: string, i: nat, n: nat)
    requires i <= |s| && !Peek(s, i, "|)&;") && n < MAXARGS
    ensures var t := Lex(s, Skip(s, i));
            ParseArgs(s, i, n) ==
            if t.kind == NUL then Args([], [], t.next)
            else if t.kind != 'a' || n + 1 >= MAXARGS then BadArgs
            else
              var r := ParseRedirs(s, t.next);
              if r.NoFile? then BadArgs
              else
                var a := ParseArgs(s, r.i, n + 1);
                if a.BadArgs? then a else Args([Span(t.q, t.e)] + a.argv, r.rs + a.rs, a.i)
  {
    hide Lex, Skip, ParseRedirs, Peek, WordSpan;
  }

  lemma {:induction false} ArgsAreWords(s: string, i: nat, n: nat)
    requires i <= |s| && n < MAXARGS && NUL !in s
    ensures Words(s, ParseArgs(s, i, n))
    decreases |s| - i
  {
    hide Peek, Lex, Skip, WordSpan, ParseRedirs, ParseArgs;
    if Peek(s, i, "|)&;") {
      NoArgs(s, i, n);
    } else {
      ArgsStep(s, i, n);
      var t := Lex(s, Skip(s, i));
      if t.kind == 'a' && n + 1 < MAXARGS {
        var r := ParseRedirs(s, t.next);
        if r.Redirs? { ArgsAreWords(s, r.i, n + 1); }
      }
    }
  }

  function ParseExec(s: string, i: nat): (r: Res)
    requires i <= |s|
    ensures r.Ok? ==> i <= r.i <= |s| && (NUL !in s ==> Good(s, r.cmd))
    decreases |s| - i, 2
  {
    if Peek(s, i, "(") then ParseBlock(s, Skip(s, i))
    else
      var r := ParseRedirs(s, Skip(s, i));
      if r.NoFile? then Fail
      else
        var a := ParseArgs(s, r.i, 0);
        if a.BadArgs? then Fail
        else
          assert NUL !in s ==> Good(s, Wrap(Exec(a.argv), r.rs + a.rs)) by {
            if NUL !in s { ArgsAreWords(s, r.i, 0); GoodWrap(s, Exec(a.argv), r.rs + a.rs); }
          }
          Ok(Wrap(Exec(a.argv), r.rs + a.rs), a.i)
  }

  function ParseBlock(s: string, i: nat): (r: Res)
    requires i <= |s|
    ensures r.Ok? ==> i <= r.i <= |s| && (NUL !in s ==> Good(s, r.cmd))
    decreases |s| - i, 1
  {
    if !Peek(s, i, "(") then Fail
    else
      var c := ParseLine(s, Lex(s, Skip(s, i)).next);
      if c.Fail? || !Peek(s, c.i, ")") then Fail
      else
        var r := ParseRedirs(s, Lex(s, Skip(s, c.i)).next);
        if r.NoFile? then Fail
        else
          assert NUL !in s ==> Good(s, Wrap(c.cmd, r.rs)) by {
            if NUL !in s { GoodWrap(s, c.cmd, r.rs); }
          }
          Ok(Wrap(c.cmd, r.rs), r.i)
  }

  function ParsePipe(s: string, i: nat): (r: Res)
    requires i <= |s|
    ensures r.Ok? ==> i <= r.i <= |s| && (NUL !in s ==> Good(s, r.cmd))
    decreases |s| - i, 3
  {
    var c := ParseExec(s, i);
    if c.Fail? then c
    else if Peek(s, c.i, "|") then
      var d := ParsePipe(s, Lex(s, Skip(s, c.i)).next);
      if d.Fail? then d else Ok(Pipe(c.cmd, d.cmd), d.i)
    else Ok(c.cmd, Skip(s, c.i))
  }

  /** The loop of parseline over "&". */
  function ParseBacks(s: string, c: Cmd<Span>, i: nat): (r: Res)
    requires i <= |s|
    ensures r.Ok? && i <= r.i <= |s| && (Good(s, c) ==> Good(s, r.cmd))
    decreases |s| - i
  {
    if Peek(s, i, "&") then ParseBacks(s, Back(c), Lex(s, Skip(s, i)).next) else Ok(c, Skip(s, i))
  }

  function ParseLine(s: string, i: nat): (r: Res)
    requires i <= |s|
    ensures r.Ok? ==> i <= r.i <= |s| && (NUL !in s ==> Good(s, r.cmd))
    decreases |s| - i, 4
  {
    var c := ParsePipe(s, i);
    if c.Fail? then c
    else
      var b := ParseBacks(s, c.cmd, c.i);
      if Peek(s, b.i, ";") then
        var d := ParseLine(s, Lex(s, Skip(s, b.i)).next);
        if d.Fail? then d else Ok(List(b.cmd, d.cmd), d.i)
      else Ok(b.cmd, Skip(s, b.i))
  }

  function ParseCmd(s: string): (r: Res)
    ensures r.Ok? && NUL !in s ==> Good(s, r.cmd)
  {
    var c := ParseLine(s, 0);
    if c.Fail? || Skip(s, c.i) != |s| then Fail else Ok(c.cmd, |s|)
  }
}
