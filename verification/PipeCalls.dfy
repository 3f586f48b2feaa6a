/** What the calls on a pipe pass and get (kernel/pipe.c), over every run of PipeRuns: the bytes
    of each write call and of each read call are picked out of the pipe's traffic by who moved
    them, and compared with the arguments of the call. */
module PipeCalls {
  import opened Machine
  import opened PipeBuffer
  import opened PipeRuns

  ghost predicate IsRun(n: nat, ss: seq<State>, moves: seq<Move>)
    ensures IsRun(n, ss, moves) ==> |ss| == |moves| + 1
  {
    && |ss| == |moves| + 1 && ss[0] == Init(n)
    && forall k :: 0 <= k < |moves| ==>
         Enabled(ss[k], moves[k].p, moves[k].step) && ss[k + 1] == After(ss[k], moves[k].p, moves[k].step)
  }

  predicate Starts(a: Step) { a.StartWrite? || a.StartRead? || a.StartClose? }

  /** The call that process p made last before move k, named by its move; -1 for none. */
  ghost function Call(moves: seq<Move>, k: nat, p: nat): (m: int)
    requires k <= |moves|
    ensures -1 <= m < k && (m >= 0 ==> moves[m].p == p && Starts(moves[m].step))
  {
    if k == 0 then -1
    else if moves[k - 1].p == p && Starts(moves[k - 1].step) then k - 1 else Call(moves, k - 1, p)
  }

  /** By the growth of a byte sequence from one state to the next: the calls its bytes are due to. */
  function Grow(who: seq<int>, was: nat, now: nat, m: int): (r: seq<int>)
    ensures now >= was ==> |r| == |who| + (now - was)
  {
    if now <= was then who else who + seq(now - was, i => m)
  }

  /** The write calls that put in the bytes accepted, and the read calls that got those delivered. */
  ghost function Writers(ss: seq<State>, moves: seq<Move>, k: nat): (who: seq<int>)
    requires k <= |moves| < |ss|
  {
    if k == 0 then []
    else Grow(Writers(ss, moves, k - 1), |ss[k - 1].accepted|, |ss[k].accepted|, Call(moves, k, moves[k - 1].p))
  }

  ghost function Readers(ss: seq<State>, moves: seq<Move>, k: nat): (who: seq<int>)
    requires k <= |moves| < |ss|
  {
    if k == 0 then []
    else Grow(Readers(ss, moves, k - 1), |ss[k - 1].delivered|, |ss[k].delivered|, Call(moves, k, moves[k - 1].p))
  }

  /** The bytes due to call m. */
  ghost function Share(xs: seq<byte>, who: seq<int>, m: int): (r: seq<byte>)
    requires |xs| == |who|
    ensures |r| <= |xs|
  {
    if xs == [] then []
    else
      var l := |xs| - 1;
      Share(xs[..l], who[..l], m) + if who[l] == m then [xs[l]] else []
  }

  lemma ShareMore(xs: seq<byte>, who: seq<int>, x: byte, w: int, m: int)
    requires |xs| == |who|
    ensures Share(xs + [x], who + [w], m) == Share(xs, who, m) + if w == m then [x] else []
  {
    assert (xs + [x])[..|xs|] == xs && (who + [w])[..|xs|] == who;
  }

  lemma {:induction false} ShareOfNone(xs: seq<byte>, who: seq<int>, m: int)
    requires |xs| == |who| && forall l :: 0 <= l < |who| ==> who[l] != m
    ensures Share(xs, who, m) == []
  {
    if xs != [] {
      var l := |xs| - 1;
      ShareOfNone(xs[..l], who[..l], m);
    }
  }

  /** The bytes due to call m follow each other. */
  ghost predicate Together(who: seq<int>, m: int) {
    forall x, y, z :: 0 <= x < y < z < |who| && who[x] == m && who[z] == m ==> who[y] == m
  }

  /** Call m got the last g bytes and no others. */
  ghost predicate LastOnes(who: seq<int>, m: int, g: nat) {
    g <= |who| && forall l :: 0 <= l < |who| ==> (who[l] == m <==> |who| - g <= l)
  }

  // ----- what a process in a call has done so far -----

  ghost predicate WriteFine(s: State, p: nat, who: seq<int>, m: int, a: Step)
    requires p < |s.pcs| && |who| == |s.accepted|
  {
    var c := s.pcs[p];
    Writing(c) ==>
      m >= 0 && a == StartWrite(c.src) && c.i <= |c.src| && Share(s.accepted, who, m) == c.src[..c.i]
  }

  ghost predicate ReadFine(s: State, p: nat, who: seq<int>, m: int, a: Step)
    requires p < |s.pcs| && |who| == |s.delivered| && Shape(s.ring)
  {
    var c := s.pcs[p];
    Reading(c) ==>
      && m >= 0 && a.StartRead?
      && (!c.RWake? ==> a.n == c.n)
      && (!c.RCopy? && !c.RWake? ==> LastOnes(who, m, 0))
      && (c.RCopy?
          ==> c.got <= c.n && LastOnes(who, m, c.got) && (c.got == 0 ==> !PipeBuffer.Empty(s.ring) || !s.writeopen))
      && (c.RWake? ==> exists g: nat :: LastOnes(who, m, g) && ReadDone(s, a.n, g))
  }

  /** A read of n bytes is over with g: all of them, or the pipe is empty; none only if there are
      no more writers. */
  predicate ReadDone(s: State, n: nat, g: nat)
    requires Shape(s.ring)
  {
    g <= n && (g == n || PipeBuffer.Empty(s.ring)) && (g == 0 && n > 0 ==> !s.writeopen)
  }

  lemma CallNow(moves: seq<Move>, k: nat, p: nat)
    requires k < |moves|
    ensures Call(moves, k + 1, p) ==
            if moves[k].p == p && Starts(moves[k].step) then k else Call(moves, k, p)
  {
  }

  /** A move that is not a turn of a copy loop leaves the traffic alone; one that is adds a byte. */
  lemma Traffic(s: State, p: nat, a: Step)
    requires Enabled(s, p, a)
    ensures var t, c := After(s, p, a), s.pcs[p];
            && t.accepted == (if a.Write? && c.i < |c.src| && !Full(s.ring) then s.accepted + [c.src[c.i]]
                else s.accepted)
            && t.delivered == (if a.Read? && c.RCopy? && c.got < c.n
                && !PipeBuffer.Empty(s.ring) then s.delivered + [PipeBuffer.Next(s.ring)]
                               else s.delivered)
  {
    hide Full, PipeBuffer.Empty, Put, Get, PipeBuffer.Next, Shape;
  }

  lemma {:induction false} Sizes(n: nat, ss: seq<State>, moves: seq<Move>, k: nat)
    requires IsRun(n, ss, moves) && k <= |moves|
    ensures |Writers(ss, moves, k)| == |ss[k].accepted| && |Readers(ss, moves, k)| == |ss[k].delivered|
    ensures forall l :: 0 <= l < |Writers(ss, moves, k)| ==> Writers(ss, moves, k)[l] < k
    ensures forall l :: 0 <= l < |Readers(ss, moves, k)| ==> Readers(ss, moves, k)[l] < k
    ensures |ss[k].pcs| == n && Inv(ss[k])
  {
    hide Inv, Enabled, After;
    if k == 0 {
      InitInv(n);
    } else {
      Sizes(n, ss, moves, k - 1);
      StepKeeps(ss[k - 1], moves[k - 1].p, moves[k - 1].step);
      Traffic(ss[k - 1], moves[k - 1].p, moves[k - 1].step);
      SameCount(ss[k - 1], moves[k - 1].p, moves[k - 1].step);
    }
  }

  lemma SameCount(s: State, p: nat, a: Step)
    requires Enabled(s, p, a)
    ensures p < |s.pcs| && |After(s, p, a).pcs| == |s.pcs|
  {
  }

  /** From xs to ys nothing changed, or one byte came, due to call m. */
  ghost predicate OneMore(xs: seq<byte>, ys: seq<byte>, who: seq<int>, who': seq<int>, m: int)
    ensures OneMore(xs, ys, who, who', m) ==> |who| == |xs| && |who'| == |ys|
  {
    && |who| == |xs| && |who'| == |ys|
    && ((ys == xs && who' == who) || (|ys| == |xs| + 1 && ys == xs + [ys[|xs|]] && who' == who + [m]))
  }

  /** The traffic and who it is due to, over one move of a process in call m. */
  ghost predicate Steps(s: State, t: State, who: seq<int>, who': seq<int>, got: seq<int>, got': seq<int>, m: int)
    ensures Steps(s, t, who, who', got, got', m) ==> |who| == |s.accepted| && |who'| == |t.accepted|
    ensures Steps(s, t, who, who', got, got', m) ==> |got| == |s.delivered| && |got'| == |t.delivered|
  {
    OneMore(s.accepted, t.accepted, who, who', m) && OneMore(s.delivered, t.delivered, got, got', m)
  }

  lemma OneMove(n: nat, ss: seq<State>, moves: seq<Move>, k: nat)
    requires IsRun(n, ss, moves) && k < |moves|
    ensures Steps(ss[k], ss[k + 1], Writers(ss, moves, k), Writers(ss, moves, k + 1),
                  Readers(ss, moves, k), Readers(ss, moves, k + 1), Call(moves, k + 1, moves[k].p))
  {
    hide Inv, Enabled, After;
    Sizes(n, ss, moves, k);
    Sizes(n, ss, moves, k + 1);
    Traffic(ss[k], moves[k].p, moves[k].step);
    var m := Call(moves, k + 1, moves[k].p);
    assert seq(1, i => m) == [m];
  }

  /** Another process's move leaves the share of call m. */
  lemma OtherShare(s: State, t: State, who: seq<int>, who': seq<int>, got: seq<int>, got': seq<int>, w: int, m: int)
    requires Steps(s, t, who, who', got, got', w) && w != m
    ensures Share(t.accepted, who', m) == Share(s.accepted, who, m)
    ensures Share(t.delivered, got', m) == Share(s.delivered, got, m)
    ensures forall g: nat :: g == 0 && LastOnes(got, m, g) ==> LastOnes(got', m, g)
    ensures Together(got, m) ==> Together(got', m)
  {
    if t.accepted != s.accepted { ShareMore(s.accepted, who, t.accepted[|s.accepted|], w, m); }
    if t.delivered != s.delivered { ShareMore(s.delivered, got, t.delivered[|s.delivered|], w, m); }
    hide Share;
  }

  // ----- writers -----

  ghost function Arg(moves: seq<Move>, m: int): (a: Step)
    requires m < |moves|
  {
    if m >= 0 then moves[m].step else Acquire
  }

  /** What a step does to a process in a call: its own turn, or a wakeup by another's. */
  lemma WriterMoves(s: State, q: nat, a: Step, p: nat)
    requires Enabled(s, q, a) && p < |s.pcs|
    ensures var t, c, d := After(s, q, a), s.pcs[p], After(s, q, a).pcs[p];
            && (Writing(d) && !(q == p && Starts(a)) ==>
                  Writing(c) && d.src == c.src
                  && d.i == (if q == p && a.Write? && c.i < |c.src| && !Full(s.ring) then c.i + 1 else c.i))
            && (Writing(d) && q == p && Starts(a) ==> a == StartWrite(d.src) && d.i == 0)
  {
    hide Enabled, After, Full;
    if q == p { WriterOwn(s, p, a); } else { OtherMove(s, q, a, p); }
  }

  lemma WriterOwn(s: State, p: nat, a: Step)
    requires Enabled(s, p, a)
    ensures var c, d := s.pcs[p], After(s, p, a).pcs[p];
            && (Writing(d) && !Starts(a) ==>
                  Writing(c) && d.src == c.src
                  && d.i == (if a.Write? && c.i < |c.src| && !Full(s.ring) then c.i + 1 else c.i))
            && (Writing(d) && Starts(a) ==> a == StartWrite(d.src) && d.i == 0)
  {
    hide Full, PipeBuffer.Empty, Put, Get, PipeBuffer.Next, Shape;
    match a
    case Wake => OwnWake(s, p);
    case _ =>
  }

  /** The waker is not the process it wakes. */
  lemma OwnWake(s: State, p: nat)
    requires Enabled(s, p, Wake)
    ensures var c, t := s.pcs[p], Waking(s, p);
            && p < |t.pcs|
            && t.pcs[p] == (if c.j < |s.pcs| then c.(j := c.j + 1)
                            else if c.WWake? && c.i < |c.src| then WFall(c.src, c.i) else Idle)
  {
    hide Shape;
  }

  /** Another process's move leaves this one alone, or wakes it. */
  lemma OtherMove(s: State, q: nat, a: Step, p: nat)
    requires Enabled(s, q, a) && p < |s.pcs| && q != p
    ensures var c, d := s.pcs[p], After(s, q, a).pcs[p];
            d == c || (c.RAsleep? && d == RWant(c.n)) || (c.WAsleep? && d == WWant(c.src, c.i))
  {
    hide Full, PipeBuffer.Empty, Put, Get, PipeBuffer.Next, Shape, Waking;
    if a.Wake? { OtherWake(s, q, p); }
  }

  lemma OtherWake(s: State, q: nat, p: nat)
    requires Enabled(s, q, Wake) && p < |s.pcs| && q != p
    ensures |Waking(s, q).pcs| == |s.pcs|
    ensures var c, d := s.pcs[p], Waking(s, q).pcs[p];
            d == c || (c.RAsleep? && d == RWant(c.n)) || (c.WAsleep? && d == WWant(c.src, c.i))
  {
    hide Shape;
  }

  lemma {:induction false} WriteCalls(n: nat, ss: seq<State>, moves: seq<Move>, k: nat, p: nat)
    requires IsRun(n, ss, moves) && k <= |moves| && p < n
    ensures |ss[k].pcs| == n && |Writers(ss, moves, k)| == |ss[k].accepted|
    ensures WriteFine(ss[k], p, Writers(ss, moves, k), Call(moves, k, p), Arg(moves, Call(moves, k, p)))
  {
    hide Inv, Enabled, After, Share, Writers, Readers, Call, Steps;
    Sizes(n, ss, moves, k);
    if k > 0 {
      Sizes(n, ss, moves, k - 1);
      WriteCalls(n, ss, moves, k - 1, p);
      WriteStep(n, ss, moves, k - 1, p);
    }
  }

  lemma WriteStep(n: nat, ss: seq<State>, moves: seq<Move>, k: nat, p: nat)
    requires IsRun(n, ss, moves) && k < |moves| && p < n && |ss[k].pcs| == n && |ss[k + 1].pcs| == n
    requires |Writers(ss, moves, k)| == |ss[k].accepted| && |Writers(ss, moves, k + 1)| == |ss[k + 1].accepted|
    requires WriteFine(ss[k], p, Writers(ss, moves, k), Call(moves, k, p), Arg(moves, Call(moves, k, p)))
    ensures WriteFine(ss[k + 1], p, Writers(ss, moves, k + 1), Call(moves, k + 1, p), Arg(moves, Call(moves, k + 1, p)))
  {
    hide Inv, Enabled, After, Share, Writers, Readers, Call, Full;
    var s, t, q, a := ss[k], ss[k + 1], moves[k].p, moves[k].step;
    OneMove(n, ss, moves, k);
    WriterMoves(s, q, a, p);
    CallNow(moves, k, p);
    CallNow(moves, k, q);
    Traffic(s, q, a);
    if Writing(t.pcs[p]) {
      if q == p && Starts(a) {
        Sizes(n, ss, moves, k);
        NewShare(s, t, Writers(ss, moves, k), Writers(ss, moves, k + 1), k);
      } else if q != p {
        OtherShare(s, t, Writers(ss, moves, k), Writers(ss, moves, k + 1), Readers(ss, moves, k),
            Readers(ss, moves, k + 1),
                   Call(moves, k + 1, q), Call(moves, k, p));
      } else if a.Write? && s.pcs[p].i < |s.pcs[p].src| && !Full(s.ring) {
        var c := s.pcs[p];
        ShareMore(s.accepted, Writers(ss, moves, k), c.src[c.i], Call(moves, k, p), Call(moves, k, p));
      }
    }
  }

  lemma NewShare(s: State, t: State, who: seq<int>, who': seq<int>, k: nat)
    requires |who| == |s.accepted| && t.accepted == s.accepted && who' == who && forall l :: 0 <= l < |who| ==>
             who[l] < k
    ensures Share(t.accepted, who', k) == []
  {
    ShareOfNone(s.accepted, who, k);
  }

  // ----- readers -----

  /** A reader's own move. */
  lemma ReaderOwn(s: State, p: nat, a: Step)
    requires Enabled(s, p, a)
    ensures var c, t := s.pcs[p], After(s, p, a);
            var d := t.pcs[p];
            && (Reading(d) && Starts(a) ==> a.StartRead? && d == RWant(a.n))
            && (Reading(d) && !Starts(a) ==> Reading(c) && t.writeopen == s.writeopen)
            && (Reading(d) && !Starts(a) && !c.RCopy? && !c.RWake? ==> !d.RWake? && d.n == c.n)
            && (d.RCopy? && !c.RCopy? ==>
                  d.got == 0 && a.Read? && t.ring == s.ring && (!PipeBuffer.Empty(s.ring) || !s.writeopen))
            && (c.RCopy? && Reading(d) ==> a.Read?)
            && (c.RCopy? && d.RCopy? ==> d == RCopy(c.n, c.got + 1) && c.got < c.n && !PipeBuffer.Empty(s.ring))
            && (c.RCopy? && Reading(d) && !d.RCopy? ==>
                  d == RWake(0) && t.ring == s.ring && (c.got >= c.n || PipeBuffer.Empty(s.ring)))
            && (c.RWake? && Reading(d) ==> d.RWake? && t.ring == s.ring)
  {
    hide Full, PipeBuffer.Empty, Put, Get, PipeBuffer.Next, Shape, Waking;
    if a.Wake? { OwnWake(s, p); WakeKeepsRing(s, p); }
  }

  lemma WakeKeepsRing(s: State, p: nat)
    requires Enabled(s, p, Wake)
    ensures Waking(s, p).ring == s.ring && Waking(s, p).writeopen == s.writeopen
  {
    hide Shape;
  }

  /** While a process holds the pipe's lock nobody else touches ring or flags. */
  lemma HolderAlone(s: State, q: nat, a: Step, p: nat)
    requires Inv(s) && Enabled(s, q, a) && p < |s.pcs| && q != p && Holding(s.pcs[p])
    ensures var t := After(s, q, a);
            t.ring == s.ring && t.writeopen == s.writeopen && t.accepted == s.accepted && t.delivered == s.delivered
  {
    assert Fine(s, p) && Fine(s, q);
    hide Fine, Tracks, Shape;
  }

  lemma {:induction false} ReadCalls(n: nat, ss: seq<State>, moves: seq<Move>, k: nat, p: nat)
    requires IsRun(n, ss, moves) && k <= |moves| && p < n
    ensures |ss[k].pcs| == n && |Readers(ss, moves, k)| == |ss[k].delivered| && Inv(ss[k])
    ensures ReadFine(ss[k], p, Readers(ss, moves, k), Call(moves, k, p), Arg(moves, Call(moves, k, p)))
  {
    hide Inv, Enabled, After, Share, Writers, Readers, Call, Steps;
    Sizes(n, ss, moves, k);
    if k > 0 {
      Sizes(n, ss, moves, k - 1);
      ReadCalls(n, ss, moves, k - 1, p);
      ReadStep(n, ss, moves, k - 1, p);
    }
  }

  lemma ReadStep(n: nat, ss: seq<State>, moves: seq<Move>, k: nat, p: nat)
    requires IsRun(n, ss, moves) && k < |moves| && p < n && |ss[k].pcs| == n && |ss[k + 1].pcs| == n
    requires |Readers(ss, moves, k)| == |ss[k].delivered| && |Readers(ss, moves, k + 1)| == |ss[k + 1].delivered|
    requires Inv(ss[k]) && Inv(ss[k + 1])
    requires ReadFine(ss[k], p, Readers(ss, moves, k), Call(moves, k, p), Arg(moves, Call(moves, k, p)))
    ensures ReadFine(ss[k + 1], p, Readers(ss, moves, k + 1), Call(moves, k + 1, p), Arg(moves, Call(moves, k + 1, p)))
  {
    hide Inv, Enabled, After, Share, Writers, Readers, Call, PipeBuffer.Empty, Full, LastOnes, OneMore;
    var s, t, q, a := ss[k], ss[k + 1], moves[k].p, moves[k].step;
    OneMove(n, ss, moves, k);
    CallNow(moves, k, p);
    CallNow(moves, k, q);
    Traffic(s, q, a);
    if Reading(t.pcs[p]) {
      if q != p {
        OtherMove(s, q, a, p);
        OthersBytes(s, t, Readers(ss, moves, k), Readers(ss, moves, k + 1), Call(moves, k + 1, q), Call(moves, k, p));
        if Holding(s.pcs[p]) { HolderAlone(s, q, a, p); }
      } else if Starts(a) {
        Sizes(n, ss, moves, k);
        ReaderOwn(s, p, a);
        OwnBytes(s, t, Readers(ss, moves, k), Readers(ss, moves, k + 1), k);
        NewCall(Readers(ss, moves, k), k);
      } else {
        ReaderOwn(s, p, a);
        OwnBytes(s, t, Readers(ss, moves, k), Readers(ss, moves, k + 1), Call(moves, k, p));
      }
    }
  }

  lemma NewCall(who: seq<int>, k: nat)
    requires forall l :: 0 <= l < |who| ==> who[l] < k
    ensures LastOnes(who, k, 0)
  {
  }

  lemma OthersBytes(s: State, t: State, who: seq<int>, who': seq<int>, w: int, m: int)
    requires OneMore(s.delivered, t.delivered, who, who', w) && w != m
    ensures LastOnes(who, m, 0) ==> LastOnes(who', m, 0)
    ensures t.delivered == s.delivered ==> who' == who
  {
  }

  lemma OwnBytes(s: State, t: State, who: seq<int>, who': seq<int>, m: int)
    requires OneMore(s.delivered, t.delivered, who, who', m)
    ensures t.delivered == s.delivered ==> who' == who
    ensures t.delivered != s.delivered ==> forall g: nat :: LastOnes(who, m, g) ==> LastOnes(who', m, g + 1)
  {
  }

  // ----- every call of a run -----

  /** The share of a call that got the last g bytes. */
  lemma {:induction false} ShareLast(xs: seq<byte>, who: seq<int>, m: int, g: nat)
    requires |xs| == |who| && LastOnes(who, m, g)
    ensures g <= |xs| && Share(xs, who, m) == xs[|xs| - g..]
  {
    if xs != [] {
      var l := |xs| - 1;
      ShareLast(xs[..l], who[..l], m, if g == 0 then 0 else g - 1);
    }
  }

  lemma LastTogether(who: seq<int>, m: int, g: nat)
    requires LastOnes(who, m, g)
    ensures Together(who, m)
  {
  }

  /** The places of call m are those from a to b. */
  ghost predicate Places(who: seq<int>, m: int, a: nat, b: nat) {
    a <= b <= |who| && forall l :: 0 <= l < |who| ==> (who[l] == m <==> a <= l < b)
  }

  /** Bytes that follow each other are a segment. */
  lemma {:induction false} Segment(xs: seq<byte>, who: seq<int>, m: int) returns (a: nat, b: nat)
    requires |xs| == |who| && Together(who, m)
    ensures Places(who, m, a, b) && Share(xs, who, m) == xs[a..b]
  {
    hide Places, Together;
    if xs == [] {
      a, b := 0, 0;
      assert Places(who, m, a, b) by { NoPlaces(who, m); }
    } else {
      var l := |xs| - 1;
      FewerTogether(who, m, l);
      a, b := Segment(xs[..l], who[..l], m);
      PlacesMore(who, m, a, b, l);
      SegmentMore(xs, a, b, l);
      if who[l] == m {
        if a == b { a, b := l, l + 1; } else { b := l + 1; }
      }
    }
  }

  lemma SegmentMore(xs: seq<byte>, a: nat, b: nat, l: nat)
    requires |xs| == l + 1 && a <= b <= l
    ensures xs[..l][a..b] == xs[a..b] && xs[a..l] + [xs[l]] == xs[a..l + 1] && xs[l..l + 1] == [xs[l]]
    ensures a == b ==> xs[a..b] == []
  {
  }

  lemma NoPlaces(who: seq<int>, m: int)
    requires who == []
    ensures Places(who, m, 0, 0)
  {
  }

  lemma FewerTogether(who: seq<int>, m: int, l: nat)
    requires Together(who, m) && l <= |who|
    ensures Together(who[..l], m)
  {
  }

  lemma PlacesMore(who: seq<int>, m: int, a: nat, b: nat, l: nat)
    requires Together(who, m) && |who| == l + 1 && Places(who[..l], m, a, b)
    ensures b <= l && (who[l] != m ==> Places(who, m, a, b))
    ensures who[l] == m && a == b ==> Places(who, m, l, l + 1)
    ensures who[l] == m && a != b ==> b == l && Places(who, m, a, l + 1)
  {
    assert forall i :: 0 <= i < l ==> who[..l][i] == who[i];
    assert a < b ==> who[a] == m;
    assert b < l ==> who[b] != m;
  }

  ghost predicate CallFine(s: State, who: seq<int>, got: seq<int>, m: int, a: Step)
    requires |who| == |s.accepted| && |got| == |s.delivered|
  {
    && (a.StartWrite? ==> Share(s.accepted, who, m) <= a.src)
    && (a.StartRead? ==> |Share(s.delivered, got, m)| <= a.n && Together(got, m))
  }

  lemma {:induction false} AllCalls(n: nat, ss: seq<State>, moves: seq<Move>, k: nat, m: nat)
    requires IsRun(n, ss, moves) && m < k <= |moves|
    ensures |Writers(ss, moves, k)| == |ss[k].accepted| && |Readers(ss, moves, k)| == |ss[k].delivered|
    ensures CallFine(ss[k], Writers(ss, moves, k), Readers(ss, moves, k), m, moves[m].step)
  {
    hide Inv, Enabled, After, Share, Writers, Readers, Call, Steps, Together, CallFine;
    Sizes(n, ss, moves, k);
    Sizes(n, ss, moves, k - 1);
    if m == k - 1 {
      FirstShare(n, ss, moves, m);
    } else {
      AllCalls(n, ss, moves, k - 1, m);
      CallStep(n, ss, moves, k - 1, m);
    }
  }

  lemma FirstShare(n: nat, ss: seq<State>, moves: seq<Move>, m: nat)
    requires IsRun(n, ss, moves) && m < |moves|
    requires |Writers(ss, moves, m + 1)| == |ss[m + 1].accepted| && |Readers(ss, moves, m + 1)| == |ss[m + 1].delivered|
    ensures CallFine(ss[m + 1], Writers(ss, moves, m + 1), Readers(ss, moves, m + 1), m, moves[m].step)
  {
    hide Inv, Enabled, After, Writers, Readers, Call, Share;
    OneMove(n, ss, moves, m);
    Sizes(n, ss, moves, m);
    Traffic(ss[m], moves[m].p, moves[m].step);
    if moves[m].step.StartWrite? || moves[m].step.StartRead? {
      ShareOfNone(ss[m].accepted, Writers(ss, moves, m), m);
      ShareOfNone(ss[m].delivered, Readers(ss, moves, m), m);
    }
  }

  lemma CallStep(n: nat, ss: seq<State>, moves: seq<Move>, k: nat, m: nat)
    requires IsRun(n, ss, moves) && m < k < |moves|
    requires |Writers(ss, moves, k)| == |ss[k].accepted| && |Readers(ss, moves, k)| == |ss[k].delivered|
    requires |Writers(ss, moves, k + 1)| == |ss[k + 1].accepted| && |Readers(ss, moves, k + 1)| == |ss[k + 1].delivered|
    requires CallFine(ss[k], Writers(ss, moves, k), Readers(ss, moves, k), m, moves[m].step)
    ensures CallFine(ss[k + 1], Writers(ss, moves, k + 1), Readers(ss, moves, k + 1), m, moves[m].step)
  {
    hide Inv, Enabled, After, Writers, Readers, Call, Share, Together, LastOnes;
    var s, t, q, w := ss[k], ss[k + 1], moves[k].p, Call(moves, k + 1, moves[k].p);
    OneMove(n, ss, moves, k);
    if w != m {
      OtherShare(s, t, Writers(ss, moves, k), Writers(ss, moves, k + 1), Readers(ss, moves, k),
          Readers(ss, moves, k + 1), w, m);
    } else {
      SameCount(s, q, moves[k].step);
      Sizes(n, ss, moves, k);
      MovedBytes(s, q, moves[k].step);
      WriteCalls(n, ss, moves, k + 1, q);
      ReadCalls(n, ss, moves, k + 1, q);
      if t.delivered != s.delivered {
        ShareLast(t.delivered, Readers(ss, moves, k + 1), m, t.pcs[q].got);
        LastTogether(Readers(ss, moves, k + 1), m, t.pcs[q].got);
      }
    }
  }

  /** A byte is moved by a process in the copy loop of its call. */
  lemma MovedBytes(s: State, q: nat, a: Step)
    requires Enabled(s, q, a)
    ensures var t := After(s, q, a);
            && |t.pcs| == |s.pcs|
            && (t.accepted != s.accepted ==> t.pcs[q].WLoop?) && (t.delivered != s.delivered ==> t.pcs[q].RCopy?)
  {
    hide Full, PipeBuffer.Empty, Put, Get, PipeBuffer.Next, Shape, Waking, Acquired;
    SameCount(s, q, a);
    Traffic(s, q, a);
  }

  // ----- the theorems -----

  /** In every run each byte accepted is due to a write call, and the bytes of a call, in the order
      they went in, are a prefix of what the caller passed; the bytes a read call got are at most
      as many as it asked for, and a segment of the bytes accepted. */
  lemma CallsGetTheirBytes(n: nat, ss: seq<State>, moves: seq<Move>, k: nat, m: nat) returns (a: nat, b: nat)
    requires IsRun(n, ss, moves) && m < k <= |moves|
    ensures |Writers(ss, moves, k)| == |ss[k].accepted| && |Readers(ss, moves, k)| == |ss[k].delivered|
    ensures moves[m].step.StartWrite? ==> Share(ss[k].accepted, Writers(ss, moves, k), m) <= moves[m].step.src
    ensures moves[m].step.StartRead? ==>
              && a <= b <= |ss[k].accepted| && b - a <= moves[m].step.n
              && Share(ss[k].delivered, Readers(ss, moves, k), m) == ss[k].accepted[a..b]
  {
    hide Inv, Enabled, After, Writers, Readers, Call, Share, Together, Tracks;
    AllCalls(n, ss, moves, k, m);
    Sizes(n, ss, moves, k);
    a, b := 0, 0;
    if moves[m].step.StartRead? {
      a, b := Segment(ss[k].delivered, Readers(ss, moves, k), m);
      DeliveredFirst(ss[k]);
      assert ss[k].delivered[a..b] == ss[k].accepted[a..b];
    }
  }

  lemma DeliveredFirst(s: State)
    requires Inv(s)
    ensures s.delivered <= s.accepted
  {
  }

  /** In every run a byte was put in by a process in a write call and taken by one in a read call. */
  lemma {:induction false} BytesHaveCalls(n: nat, ss: seq<State>, moves: seq<Move>, k: nat, l: nat)
    requires IsRun(n, ss, moves) && k <= |moves|
    ensures |Writers(ss, moves, k)| == |ss[k].accepted| && |Readers(ss, moves, k)| == |ss[k].delivered|
    ensures l < |ss[k].accepted| ==>
              var m := Writers(ss, moves, k)[l]; 0 <= m < k && moves[m].step.StartWrite?
    ensures l < |ss[k].delivered| ==>
              var m := Readers(ss, moves, k)[l]; 0 <= m < k && moves[m].step.StartRead?
  {
    hide Inv, Enabled, After, Call, Share, Writers, Readers, Together;
    Sizes(n, ss, moves, k);
    if k > 0 {
      BytesHaveCalls(n, ss, moves, k - 1, l);
      var q := moves[k - 1].p;
      OneMove(n, ss, moves, k - 1);
      SameCount(ss[k - 1], q, moves[k - 1].step);
      MovedBytes(ss[k - 1], q, moves[k - 1].step);
      WriteCalls(n, ss, moves, k, q);
      ReadCalls(n, ss, moves, k, q);
    }
  }

  /** In every run a write call that returns has put in exactly what the caller passed, or the read
      end is closed and the pipe is full. */
  lemma WriteReturns(n: nat, ss: seq<State>, moves: seq<Move>, k: nat)
    requires IsRun(n, ss, moves) && k < |moves| && moves[k].p < |ss[k].pcs| && moves[k].p < |ss[k + 1].pcs|
    requires Writing(ss[k].pcs[moves[k].p]) && ss[k + 1].pcs[moves[k].p].Idle?
    ensures |Writers(ss, moves, k)| == |ss[k].accepted|
    ensures var m := Call(moves, k, moves[k].p);
            && m >= 0 && moves[m].step.StartWrite?
            && (Share(ss[k].accepted, Writers(ss, moves, k), m) == moves[m].step.src
                || (!ss[k].readopen && |ss[k].accepted| == |ss[k].delivered| + 512))
  {
    hide Inv, After, Enabled, Share, Writers, Call, Readers;
    Sizes(n, ss, moves, k);
    WriteCalls(n, ss, moves, k, moves[k].p);
    LeavesWrite(ss[k], moves[k].p, moves[k].step);
    FullIs(ss[k]);
    var c := ss[k].pcs[moves[k].p];
    assert c.i >= |c.src| ==> c.src[..c.i] == c.src;
  }

  lemma LeavesWrite(s: State, p: nat, a: Step)
    requires Enabled(s, p, a) && Writing(s.pcs[p]) && p < |After(s, p, a).pcs| && After(s, p, a).pcs[p].Idle?
    ensures s.pcs[p].i >= |s.pcs[p].src| || (Full(s.ring) && !s.readopen)
  {
    hide Full, PipeBuffer.Empty, Put, Get, PipeBuffer.Next, Shape, Waking;
    if a.Wake? { OwnWake(s, p); }
  }

  lemma FullIs(s: State)
    requires Inv(s)
    ensures Full(s.ring) <==> |s.accepted| == |s.delivered| + PIPESIZE
    ensures PipeBuffer.Empty(s.ring) <==> s.accepted == s.delivered
  {
    hide Fine;
    TestsExact(s.ring, s.accepted, s.delivered);
  }

  /** In every run a read call that returns has got all it asked for, or all there was; it got
      nothing only if it asked for nothing or the write end is closed. */
  lemma ReadReturns(n: nat, ss: seq<State>, moves: seq<Move>, k: nat)
    requires IsRun(n, ss, moves) && k < |moves| && moves[k].p < |ss[k].pcs| && moves[k].p < |ss[k + 1].pcs|
    requires Reading(ss[k].pcs[moves[k].p]) && ss[k + 1].pcs[moves[k].p].Idle?
    ensures |Readers(ss, moves, k)| == |ss[k].delivered|
    ensures var m := Call(moves, k, moves[k].p);
            var share := Share(ss[k].delivered, Readers(ss, moves, k), m);
            && m >= 0 && moves[m].step.StartRead? && |share| <= moves[m].step.n
            && (|share| == moves[m].step.n || ss[k].delivered == ss[k].accepted)
            && (share == [] && moves[m].step.n > 0 ==> !ss[k].writeopen)
  {
    hide Inv, After, Enabled, Share, Writers, Call, Readers, LastOnes;
    Sizes(n, ss, moves, k);
    ReadCalls(n, ss, moves, k, moves[k].p);
    LeavesRead(ss[k], moves[k].p, moves[k].step);
    FullIs(ss[k]);
    var who, m := Readers(ss, moves, k), Call(moves, k, moves[k].p);
    var g: nat :| LastOnes(who, m, g) && ReadDone(ss[k], moves[m].step.n, g);
    ShareLast(ss[k].delivered, who, m, g);
  }

  lemma LeavesRead(s: State, p: nat, a: Step)
    requires Enabled(s, p, a) && Reading(s.pcs[p]) && p < |After(s, p, a).pcs| && After(s, p, a).pcs[p].Idle?
    ensures s.pcs[p].RWake?
  {
    hide Full, PipeBuffer.Empty, Put, Get, PipeBuffer.Next, Shape, Waking;
    if a.Wake? { OwnWake(s, p); }
  }

  /** In every run an end is closed only by a close of that end. */
  lemma {:induction false} OpenUntilClosed(n: nat, ss: seq<State>, moves: seq<Move>, k: nat, w: bool)
    requires IsRun(n, ss, moves) && k <= |moves| && !(if w then ss[k].writeopen else ss[k].readopen)
    ensures exists m :: 0 <= m < k && moves[m].step == StartClose(w)
  {
    hide Inv, Enabled, After;
    Sizes(n, ss, moves, k);
    OpenInv(ss[k]);
    WhoClosed(n, ss, moves, k, w);
  }

  lemma OpenInv(s: State)
    requires Inv(s)
    ensures (s.wby == -1 ==> s.writeopen) && (s.rby == -1 ==> s.readopen)
  {
  }

  lemma {:induction false} WhoClosed(n: nat, ss: seq<State>, moves: seq<Move>, k: nat, w: bool)
    requires IsRun(n, ss, moves) && k <= |moves| && (if w then ss[k].wby else ss[k].rby) != -1
    ensures exists m :: 0 <= m < k && moves[m].step == StartClose(w)
  {
    hide Enabled, After;
    if k > 0 {
      CloseSets(ss[k - 1], moves[k - 1].p, moves[k - 1].step);
      if moves[k - 1].step != StartClose(w) { WhoClosed(n, ss, moves, k - 1, w); }
    }
  }

  lemma CloseSets(s: State, p: nat, a: Step)
    requires Enabled(s, p, a)
    ensures a != StartClose(true) ==> After(s, p, a).wby == s.wby
    ensures a != StartClose(false) ==> After(s, p, a).rby == s.rby
  {
    hide Full, PipeBuffer.Empty, Put, Get, PipeBuffer.Next, Shape;
  }
}
