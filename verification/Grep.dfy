/** grep's loop (user/grep.c): lines cut out of a buffer that is filled in pieces of any size. */
module Grep {
  import opened Regex

  const BUFSIZE := 1024
  const ROOM := BUFSIZE - 1         // one byte is kept for the NUL

  /** Index of the first newline from i on, |s| if there is none. */
  function Newline(s: string, i: nat): (k: nat)
    requires i <= |s|
    ensures i <= k <= |s| && (k < |s| ==> s[k] == '\n') && forall j :: i <= j < k ==> s[j] != '\n'
    decreases |s| - i
  {
    if i == |s| || s[i] == '\n' then i else Newline(s, i + 1)
  }

  /** What grep prints from position i on: the lines that match, each with its newline, up to
      the first line longer than the buffer.  A last line without newline is not printed. */
  ghost function Printed(re: string, s: string, i: nat): (out: string)
    requires i <= |s|
    decreases |s| - i
  {
    var k := Newline(s, i);
    if k == |s| || k + 1 - i > ROOM then []
    else (if Matches(re, s[i..k]) then s[i..k + 1] else []) + Printed(re, s, k + 1)
  }

  /** Every complete line that matches, whatever its length. */
  ghost function AllPrinted(re: string, s: string, i: nat): (out: string)
    requires i <= |s|
    decreases |s| - i
  {
    var k := Newline(s, i);
    if k == |s| then [] else (if Matches(re, s[i..k]) then s[i..k + 1] else []) + AllPrinted(re, s, k + 1)
  }

  /** No complete line from i on matches. */
  ghost predicate Silent(re: string, s: string, i: nat)
    requires i <= |s|
    decreases |s| - i
  {
    var k := Newline(s, i);
    k == |s| || (!Matches(re, s[i..k]) && Silent(re, s, k + 1))
  }

  /** No complete line matches from the first on that is longer than the buffer. */
  ghost predicate NothingLost(re: string, s: string, i: nat)
    requires i <= |s|
    decreases |s| - i
  {
    var k := Newline(s, i);
    k == |s| || if k + 1 - i > ROOM then Silent(re, s, i) else NothingLost(re, s, k + 1)
  }

  lemma {:induction false} SilentPrintsNothing(re: string, s: string, i: nat)
    requires i <= |s|
    ensures AllPrinted(re, s, i) == [] <==> Silent(re, s, i)
    decreases |s| - i
  {
    hide Matches, Newline;
    var k := Newline(s, i);
    if k < |s| {
      AllPrintedStep(re, s, i);
      SilentPrintsNothing(re, s, k + 1);
    }
  }

  /** Every matching line is printed, and nothing else, exactly when no line from the first
      overlong one on matches. */
  lemma {:induction false} AllLinesPrinted(re: string, s: string, i: nat)
    requires i <= |s|
    ensures Printed(re, s, i) == AllPrinted(re, s, i) <==> NothingLost(re, s, i)
    decreases |s| - i
  {
    hide Matches, Newline, Printed, AllPrinted, NothingLost, Silent;
    var k := Newline(s, i);
    if k == |s| || k + 1 - i > ROOM {
      LastLine(re, s, i);
      SilentPrintsNothing(re, s, i);
    } else {
      AllLinesPrinted(re, s, k + 1);
      OneMoreLine(re, s, i);
    }
  }

  lemma LastLine(re: string, s: string, i: nat)
    requires i <= |s| && (Newline(s, i) == |s| || Newline(s, i) + 1 - i > ROOM)
    ensures Printed(re, s, i) == [] && (NothingLost(re, s, i) <==> Silent(re, s, i))
  {
    hide Matches, Newline;
  }

  lemma OneMoreLine(re: string, s: string, i: nat)
    requires i <= |s| && Newline(s, i) < |s| && Newline(s, i) + 1 - i <= ROOM
    ensures var k := Newline(s, i) + 1;
            && (Printed(re, s, i) == AllPrinted(re, s, i) <==> Printed(re, s, k) == AllPrinted(re, s, k))
            && (NothingLost(re, s, i) <==> NothingLost(re, s, k))
  {
    hide Matches, Newline, Printed, AllPrinted, NothingLost;
    var k := Newline(s, i);
    PrintedStep(re, s, i);
    AllPrintedStep(re, s, i);
    LostStep(re, s, i);
    SameTail(Shown(re, s, i, k), Printed(re, s, k + 1), AllPrinted(re, s, k + 1));
  }

  /** What is printed for the line from i to the newline at k. */
  ghost function Shown(re: string, s: string, i: nat, k: nat): (out: string)
    requires i <= k < |s|
  {
    if Matches(re, s[i..k]) then s[i..k + 1] else []
  }

  lemma PrintedStep(re: string, s: string, i: nat)
    requires i <= |s| && Newline(s, i) < |s| && Newline(s, i) + 1 - i <= ROOM
    ensures Printed(re, s, i) == Shown(re, s, i, Newline(s, i)) + Printed(re, s, Newline(s, i) + 1)
  {
    hide Matches, Newline;
  }

  lemma AllPrintedStep(re: string, s: string, i: nat)
    requires i <= |s| && Newline(s, i) < |s|
    ensures AllPrinted(re, s, i) == Shown(re, s, i, Newline(s, i)) + AllPrinted(re, s, Newline(s, i) + 1)
  {
    hide Matches, Newline;
  }

  lemma LostStep(re: string, s: string, i: nat)
    requires i <= |s| && Newline(s, i) < |s| && Newline(s, i) + 1 - i <= ROOM
    ensures NothingLost(re, s, i) <==> NothingLost(re, s, Newline(s, i) + 1)
  {
    hide Matches, Newline, Silent;
  }

  lemma SameTail(a: string, b: string, c: string)
    ensures a + b == a + c <==> b == c
  {
    if a + b == a + c { assert b == (a + b)[|a|..] && c == (a + c)[|a|..]; }
  }

  /** The first newline in a window of s that starts at i. */
  lemma NewlineSeen(s: string, i: nat, w: string, q: nat)
    requires i + |w| <= |s| && s[i..i + |w|] == w && q <= |w| && forall j :: 0 <= j < q ==> w[j] != '\n'
    ensures Newline(s, i) >= i + q
    ensures q < |w| && w[q] == '\n' ==> Newline(s, i) == i + q
  {
    forall j | i <= j < i + q ensures s[j] != '\n' { assert s[j] == w[j - i]; }
    assert q < |w| ==> s[i + q] == w[q];
  }

  /** One line: what is printed for it and what comes after. */
  lemma PrintedLine(re: string, s: string, i: nat, w: string, q: nat)
    requires i + |w| <= |s| && s[i..i + |w|] == w && q < |w| <= ROOM && w[q] == '\n' && '\n' !in w[..q]
    ensures Printed(re, s, i) == (if Matches(re, w[..q]) then w[..q + 1] else []) + Printed(re, s, i + q + 1)
  {
    hide Matches;
    assert forall j :: 0 <= j < q ==> w[j] == w[..q][j];
    NewlineSeen(s, i, w, q);
    assert s[i..i + q] == w[..q] && s[i..i + q + 1] == w[..q + 1];
  }

  /** No newline in the window, and the window is full or the input ends: nothing more. */
  lemma PrintedNothing(re: string, s: string, i: nat, w: string)
    requires i + |w| <= |s| && s[i..i + |w|] == w && forall j :: 0 <= j < |w| ==> w[j] != '\n'
    requires |w| == ROOM || i + |w| == |s|
    ensures Printed(re, s, i) == []
  {
    hide Matches;
    NewlineSeen(s, i, w, |w|);
  }

  /** strchr(buf + p, '\n') on a NUL-terminated buffer: -1 for none. */
  method Strchr(buf: array<char>, p: nat, m: nat) returns (q: int)
    requires p <= m < buf.Length && buf[m] == '\0' && '\0' !in buf[p..m]
    ensures q == -1 ==> '\n' !in buf[p..m]
    ensures q != -1 ==> p <= q < m && buf[q] == '\n' && '\n' !in buf[p..q]
  {
    assert forall j :: p <= j < m ==> buf[j] in buf[p..m];
    var i := p;
    while buf[i] != '\0'
      invariant p <= i <= m && forall j :: p <= j < i ==> buf[j] != '\n'
      decreases m - i
    {
      if buf[i] == '\n' { return i; }
      i := i + 1;
    }
    return -1;
  }

  /** The inner loop: every complete line among the first m bytes of the buffer, which stand
      for input[start..start + m].  p is where the incomplete rest begins. */
  method Scan(re: string, buf: array<char>, m: nat, ghost input: string, ghost start: nat) returns (out: string, p: nat)
    requires m < buf.Length == BUFSIZE && buf[m] == '\0' && start + m <= |input| && '\0' !in input
    requires buf[..m] == input[start..start + m]
    modifies buf
    ensures p <= m && out + Printed(re, input, start + p) == Printed(re, input, start)
    ensures buf[p..m] == input[start + p..start + m] && '\n' !in buf[p..m]
  {
    hide Matches, Printed, Newline;
    out, p := [], 0;
    while true
      invariant 0 <= p <= m && buf[m] == '\0' && buf[p..m] == input[start + p..start + m]
      invariant out + Printed(re, input, start + p) == Printed(re, input, start)
      decreases m - p
    {
      var q, line := ScanLine(re, buf, p, m, input, start + p);
      if q == -1 { return; }
      Append(out, line, Printed(re, input, start + q + 1));
      out := out + line;
      p := q + 1;
    }
  }

  /** One turn of the inner loop, at position i of the input: -1 when no newline is left. */
  method ScanLine(re: string, buf: array<char>, p: nat, m: nat, ghost input: string, ghost i: nat)
    returns (q: int, line: string)
    requires p <= m < buf.Length == BUFSIZE && buf[m] == '\0' && '\0' !in input && i + (m - p) <= |input|
    requires buf[p..m] == input[i..i + (m - p)]
    modifies buf
    ensures q == -1 ==> buf[..] == old(buf[..]) && '\n' !in buf[p..m]
    ensures q != -1 ==> p <= q < m && buf[m] == '\0' && buf[q + 1..m] == input[i + (q - p) + 1..i + (m - p)]
    ensures q != -1 ==> line + Printed(re, input, i + (q - p) + 1) == Printed(re, input, i)
  {
    hide Matches, Printed, Newline;
    line := [];
    q := NextLine(buf, p, m, input, i);
    if q == -1 { return; }
    PrintedLine(re, input, i, buf[p..m], q - p);
    line := OneLine(re, buf, p, q, m);
  }

  /** strchr for the newline, and the window cut there. */
  method NextLine(buf: array<char>, p: nat, m: nat, ghost input: string, ghost i: nat) returns (q: int)
    requires p <= m < buf.Length && buf[m] == '\0' && '\0' !in input && i + (m - p) <= |input|
    requires buf[p..m] == input[i..i + (m - p)]
    ensures q == -1 ==> '\n' !in buf[p..m]
    ensures q != -1 ==> p <= q < m && buf[q] == '\n' && '\n' !in buf[p..m][..q - p] && buf[p..m][q - p] == '\n'
    ensures q != -1 ==> buf[p..m][..q - p] == buf[p..q] && buf[p..m][..q - p + 1] == buf[p..q + 1]
    ensures q != -1 ==> buf[q + 1..m] == input[i + (q - p) + 1..i + (m - p)]
  {
    NoNul(input, i, buf[p..m]);
    q := Strchr(buf, p, m);
    if q != -1 {
      Cut(buf[..], p, q, m);
      Cut(input, i, i + (q - p), i + (m - p));
    }
  }

  /** A window cut at the newline. */
  lemma Cut(s: string, p: nat, q: nat, m: nat)
    requires p <= q < m <= |s|
    ensures s[p..m][..q - p] == s[p..q] && s[p..m][q - p] == s[q] && s[p..m][..q - p + 1] == s[p..q + 1]
    ensures s[p..m][q - p + 1..] == s[q + 1..m]
  {
  }

  lemma Append(a: string, b: string, c: string)
    ensures (a + b) + c == a + (b + c)
  {
  }

  /** The line at p, ended by the newline at q: what is written for it. */
  method OneLine(re: string, buf: array<char>, p: nat, q: nat, ghost m: nat) returns (line: string)
    requires p <= q < m < buf.Length && buf[q] == '\n'
    modifies buf
    ensures line == if Matches(re, old(buf[p..q])) then old(buf[p..q + 1]) else []
    ensures buf[q + 1..m] == old(buf[q + 1..m]) && buf[m] == old(buf[m])
  {
    hide Matches;
    line := [];
    buf[q] := '\0';
    assert buf[p..q] == old(buf[p..q]);
    var hit := Match(re, buf[p..q]);
    if hit {
      buf[q] := '\n';
      assert buf[p..q + 1] == old(buf[p..q + 1]);
      line := buf[p..q + 1];
    }
  }

  lemma NoNul(s: string, i: nat, w: string)
    requires '\0' !in s && i + |w| <= |s| && s[i..i + |w|] == w
    ensures '\0' !in w
  {
    forall j | 0 <= j < |w| ensures w[j] != '\0' { assert s[i + j] in s; }
  }

  /** One turn of the outer loop, n bytes read at pos behind the m bytes kept. */
  method Turn(re: string, buf: array<char>, m: nat, n: nat, input: string, pos: nat) returns (out: string, rest: nat)
    requires buf.Length == BUFSIZE && m + n <= ROOM && m <= pos && pos + n <= |input| && '\0' !in input
    requires buf[..m] == input[pos - m..pos]
    modifies buf
    ensures rest <= m + n && buf[..rest] == input[pos + n - rest..pos + n] && '\n' !in buf[..rest]
    ensures out + Printed(re, input, pos + n - rest) == Printed(re, input, pos - m)
  {
    hide Matches, Printed;
    Read(buf, m, n, input, pos);
    var p;
    out, p := Scan(re, buf, m + n, input, pos - m);
    rest := m + n - p;
    MoveDown(buf, p, m + n);
  }

  /** read, and the NUL after what it returned. */
  method Read(buf: array<char>, m: nat, n: nat, input: string, pos: nat)
    requires buf.Length == BUFSIZE && m + n <= ROOM && m <= pos && pos + n <= |input|
    requires buf[..m] == input[pos - m..pos]
    modifies buf
    ensures buf[m + n] == '\0' && buf[..m + n] == input[pos - m..pos + n]
  {
    ghost var kept := buf[..m];
    forall j | 0 <= j < n { buf[m + j] := input[pos + j]; }
    buf[m + n] := '\0';
    assert buf[..m + n] == kept + input[pos..pos + n];
    assert kept + input[pos..pos + n] == input[pos - m..pos + n];
  }

  /** memmove of the incomplete line to the front. */
  method MoveDown(buf: array<char>, p: nat, e: nat)
    requires p <= e <= buf.Length
    modifies buf
    ensures buf[..e - p] == old(buf[p..e])
  {
    forall j | 0 <= j < e - p { buf[j] := buf[p + j]; }
  }

  /** grep over an input without NULs, each read returning any positive number of bytes up to
      what is left and what fits: what is printed does not depend on those numbers. */
  method Grep(re: string, input: string) returns (out: string)
    requires '\0' !in input
    ensures out == Printed(re, input, 0)
  {
    hide Matches, Printed;
    var buf := new char[BUFSIZE];
    var m, pos := 0, 0;
    out := [];
    while true
      invariant 0 <= m <= ROOM && m <= pos <= |input|
      invariant buf[..m] == input[pos - m..pos] && '\n' !in buf[..m]
      invariant out + Printed(re, input, pos - m) == Printed(re, input, 0)
      decreases |input| - pos
    {
      var room, left := BUFSIZE - m - 1, |input| - pos;
      if room == 0 || left == 0 {                 // read returns 0
        PrintedNothing(re, input, pos - m, buf[..m]);
        return;
      }
      var n: nat :| 1 <= n <= room && n <= left;  // what read returned
      var line, rest := Turn(re, buf, m, n, input, pos);
      assert out + (line + Printed(re, input, pos + n - rest)) == (out + line) + Printed(re, input, pos + n - rest);
      out := out + line;
      m, pos := rest, pos + n;
    }
  }
}
