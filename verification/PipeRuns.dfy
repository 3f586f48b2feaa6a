/** Pipes under concurrency (kernel/pipe.c with sleep and wakeup of kernel/proc.c): any number
    of processes reading, writing and closing, in every interleaving.  A step is what runs
    between two lock operations.  wakeup looks at one process per step, taking that process's
    lock; sleep takes the process's own lock before it lets go of the pipe's, and is only
    asleep, its own lock released, two steps later.  Copies succeed and nothing is killed. */
module PipeRuns {
  import opened Machine
  import opened PipeBuffer

  /** Where a process is in pipewrite, piperead or pipeclose.  Want: waiting for the pipe lock.
      Fall: in sleep, holding its own lock and the pipe's.  Fell: the pipe lock is released.
      Wake: in the loop of wakeup, at process j. */
  datatype Pc =
    | Idle
    | WWant(src: seq<byte>, i: nat) | WLoop(src: seq<byte>, i: nat) | WWake(src: seq<byte>, i: nat, j: nat)
    | WFall(src: seq<byte>, i: nat) | WFell(src: seq<byte>, i: nat) | WAsleep(src: seq<byte>, i: nat)
    | RWant(n: nat) | RTest(n: nat) | RCopy(n: nat, got: nat) | RWake(j: nat)
    | RFall(n: nat) | RFell(n: nat) | RAsleep(n: nat)
    | CWant(w: bool) | CWake(w: bool, j: nat)

  /** `wby` and `rby` are the processes that dropped the last reference to the write and the
      read end, -1 while there are references. */
  datatype State = State(pcs: seq<Pc>, holder: int, ring: Ring, readopen: bool, writeopen: bool,
                         wby: int, rby: int, freed: bool, accepted: seq<byte>, delivered: seq<byte>)

  predicate Holding(c: Pc) {
    c.WLoop? || c.WWake? || c.WFall? || c.RTest? || c.RCopy? || c.RWake? || c.RFall? || c.CWake?
  }

  predicate Reading(c: Pc) {
    c.RWant? || c.RTest? || c.RCopy? || c.RWake? || c.RFall? || c.RFell? || c.RAsleep?
  }

  predicate Writing(c: Pc) {
    c.WWant? || c.WLoop? || c.WWake? || c.WFall? || c.WFell? || c.WAsleep?
  }

  /** Its own lock is held, so wakeup has to wait for it. */
  predicate OwnLock(c: Pc) { c.WFall? || c.WFell? || c.RFall? || c.RFell? }

  predicate SleepsR(c: Pc) { c.RFall? || c.RFell? || c.RAsleep? }
  predicate SleepsW(c: Pc) { c.WFall? || c.WFell? || c.WAsleep? }

  /** From here the process will still look at q in a wakeup on nread (nwrite). */
  predicate WillWakeR(c: Pc, q: nat) { c.WLoop? || (c.WWake? && c.j <= q) || (c.CWake? && c.w && c.j <= q) }
  predicate WillWakeW(c: Pc, q: nat) { c.RCopy? || (c.RWake? && c.j <= q) || (c.CWake? && !c.w && c.j <= q) }

  // ----- the steps -----

  datatype Step =
    | StartWrite(src: seq<byte>) | StartRead(n: nat) | StartClose(w: bool)
    | Acquire | Write | Read | Wake | ReleaseAndFall | Doze

  function Init(n: nat): (s: State) {
    State(seq(n, i requires 0 <= i < n => Idle), -1, Ring(seq(PIPESIZE, i requires 0 <= i < PIPESIZE => 0), 0, 0),
        true, true, -1, -1, false, [], [])
  }

  function Goto(s: State, p: nat, c: Pc): (t: State)
    requires p < |s.pcs|
  {
    s.(pcs := s.pcs[p := c])
  }

  function GotoFree(s: State, p: nat, c: Pc): (t: State)
    requires p < |s.pcs|
  {
    s.(pcs := s.pcs[p := c], holder := -1)
  }

  /** What wakeup does to the process it looks at. */
  function Woken(c: Pc, readers: bool): (d: Pc) {
    if readers && c.RAsleep? then RWant(c.n) else if !readers && c.WAsleep? then WWant(c.src, c.i) else c
  }

  predicate Enabled(s: State, p: nat, a: Step) {
    && p < |s.pcs| && Shape(s.ring)
    && match a
       case StartWrite(_) => s.pcs[p].Idle? && s.wby == -1 && !s.freed
       case StartRead(_) => s.pcs[p].Idle? && s.rby == -1 && !s.freed
       case StartClose(w) => s.pcs[p].Idle? && !s.freed && NoUser(s, w) && (if w then s.wby == -1 else s.rby == -1)
       case Acquire => s.holder == -1 && (s.pcs[p].WWant? || s.pcs[p].RWant? || s.pcs[p].CWant?)
       case Write => s.pcs[p].WLoop?
       case Read => s.pcs[p].RTest? || s.pcs[p].RCopy?
       case Wake => (s.pcs[p].WWake? || s.pcs[p].RWake? || s.pcs[p].CWake?)
           && (s.pcs[p].j < |s.pcs| ==> !OwnLock(s.pcs[s.pcs[p].j]))
       case ReleaseAndFall => s.pcs[p].WFall? || s.pcs[p].RFall?
       case Doze => s.pcs[p].WFell? || s.pcs[p].RFell?
  }

  /** A process in a call on an end of the pipe has a reference to it. */
  predicate NoUser(s: State, w: bool) {
    forall q :: 0 <= q < |s.pcs| ==> if w then !Writing(s.pcs[q]) else !Reading(s.pcs[q])
  }

  function After(s: State, p: nat, a: Step): (t: State)
    requires Enabled(s, p, a)
  {
    match a
    case StartWrite(src) => Goto(s, p, WWant(src, 0))
    case StartRead(n) => Goto(s, p, RWant(n))
    case StartClose(w) => Goto(if w then s.(wby := p) else s.(rby := p), p, CWant(w))
    case Acquire => Acquired(s, p)
    case Write => Written(s, p)
    case Read => Took(s, p)
    case Wake => Waking(s, p)
    case ReleaseAndFall => GotoFree(s, p, if s.pcs[p].WFall? then WFell(s.pcs[p].src, s.pcs[p].i)
        else RFell(s.pcs[p].n))
    case Doze => Goto(s, p, if s.pcs[p].WFell? then WAsleep(s.pcs[p].src, s.pcs[p].i) else RAsleep(s.pcs[p].n))
  }

  /** The lock is taken; pipeclose clears its flag. */
  function Acquired(s: State, p: nat): (t: State)
    requires Enabled(s, p, Acquire)
  {
    var c, u := s.pcs[p], s.(holder := p);
    if c.WWant? then Goto(u, p, WLoop(c.src, c.i))
    else if c.RWant? then Goto(u, p, RTest(c.n))
    else Goto(if c.w then u.(writeopen := false) else u.(readopen := false), p, CWake(c.w, 0))
  }

  /** One turn of pipewrite's loop: done, out of readers, full, or one byte more. */
  function Written(s: State, p: nat): (t: State)
    requires Enabled(s, p, Write)
  {
    var c := s.pcs[p];
    if c.i >= |c.src| then Goto(s, p, WWake(c.src, c.i, 0))
    else if Full(s.ring) then
      if !s.readopen then GotoFree(s, p, Idle) else Goto(s, p, WWake(c.src, c.i, 0))
    else Goto(s.(ring := Put(s.ring, c.src[c.i]), accepted := s.accepted + [c.src[c.i]]), p, WLoop(c.src, c.i + 1))
  }

  /** piperead: sleep while empty and the write end is open, then take bytes. */
  function Took(s: State, p: nat): (t: State)
    requires Enabled(s, p, Read)
  {
    var c := s.pcs[p];
    if c.RTest? then
      if Empty(s.ring) && s.writeopen then Goto(s, p, RFall(c.n)) else Goto(s, p, RCopy(c.n, 0))
    else if c.got >= c.n || Empty(s.ring) then Goto(s, p, RWake(0))
    else Goto(s.(ring := Get(s.ring), delivered := s.delivered + [Next(s.ring)]), p, RCopy(c.n, c.got + 1))
  }

  /** One process of the wakeup loop, or what comes after it. */
  function Waking(s: State, p: nat): (t: State)
    requires Enabled(s, p, Wake)
  {
    var c := s.pcs[p];
    if c.j < |s.pcs| then
      var readers := c.WWake? || (c.CWake? && c.w);
      var u := s.(pcs := s.pcs[c.j := Woken(s.pcs[c.j], readers)]);
      Goto(u, p, c.(j := c.j + 1))
    else if c.WWake? then
      if c.i >= |c.src| then GotoFree(s, p, Idle) else Goto(s, p, WFall(c.src, c.i))
    else if c.RWake? then GotoFree(s, p, Idle)
    else GotoFree(s.(freed := !s.readopen && !s.writeopen), p, Idle)
  }

  // ----- the invariant -----

  predicate Fine(s: State, q: nat)
    requires q < |s.pcs|
  {
    var c := s.pcs[q];
    && (Holding(c) <==> s.holder == q)
    && (SleepsR(c) ==> (Empty(s.ring) && s.writeopen) || (0 <= s.holder < |s.pcs| && WillWakeR(s.pcs[s.holder], q)))
    && (SleepsW(c) ==> (Full(s.ring) && s.readopen) || (0 <= s.holder < |s.pcs| && WillWakeW(s.pcs[s.holder], q)))
    && (Reading(c) ==> s.rby == -1) && (Writing(c) ==> s.wby == -1)
    && (c.CWant? && c.w ==> s.wby == q && s.writeopen) && (c.CWant? && !c.w ==> s.rby == q && s.readopen)
    && (c.WWake? && c.i < |c.src| ==> Full(s.ring) && s.readopen)
    && (c.RFall? ==> Empty(s.ring) && s.writeopen) && (c.WFall? ==> Full(s.ring) && s.readopen)
    && (s.freed ==> c.Idle?)
  }

  ghost predicate Inv(s: State)
    ensures Inv(s) ==> Shape(s.ring)
  {
    && Tracks(s.ring, s.accepted, s.delivered) && -1 <= s.holder < |s.pcs|
    && (s.wby == -1 ==> s.writeopen) && (s.rby == -1 ==> s.readopen)
    && (forall q :: 0 <= q < |s.pcs| ==> Fine(s, q))
  }

  lemma InitInv(n: nat)
    ensures Inv(Init(n))
  {
  }

  lemma StepKeeps(s: State, p: nat, a: Step)
    requires Inv(s) && Enabled(s, p, a)
    ensures Inv(After(s, p, a))
  {
    match a
    case StartWrite(_) => StartKeeps(s, p, a);
    case StartRead(_) => StartKeeps(s, p, a);
    case StartClose(_) => CloseKeeps(s, p, a.w);
    case Acquire => AcquireKeeps(s, p);
    case Write => WriteKeeps(s, p);
    case Read => ReadKeeps(s, p);
    case Wake => WakeKeeps(s, p);
    case ReleaseAndFall => FallKeeps(s, p, a);
    case Doze => FallKeeps(s, p, a);
  }

  lemma StartKeeps(s: State, p: nat, a: Step)
    requires Inv(s) && Enabled(s, p, a) && (a.StartWrite? || a.StartRead?)
    ensures Inv(After(s, p, a))
  {
    hide Tracks, Full, Empty;
    var t := After(s, p, a);
    forall q | 0 <= q < |t.pcs| ensures Fine(t, q) { assert Fine(s, q) && Fine(s, p); }
  }

  lemma CloseKeeps(s: State, p: nat, w: bool)
    requires Inv(s) && Enabled(s, p, StartClose(w))
    ensures Inv(After(s, p, StartClose(w)))
  {
    hide Tracks, Full, Empty;
    var t := After(s, p, StartClose(w));
    forall q | 0 <= q < |t.pcs| ensures Fine(t, q) { assert Fine(s, q) && Fine(s, p); }
  }

  lemma AcquireKeeps(s: State, p: nat)
    requires Inv(s) && Enabled(s, p, Acquire)
    ensures Inv(Acquired(s, p))
  {
    hide Tracks, Full, Empty;
    var t := Acquired(s, p);
    forall q | 0 <= q < |t.pcs| ensures Fine(t, q) { assert Fine(s, q) && Fine(s, p); }
  }

  lemma WriteKeeps(s: State, p: nat)
    requires Inv(s) && Enabled(s, p, Write)
    ensures Inv(Written(s, p))
  {
    var c := s.pcs[p];
    if c.i < |c.src| && !Full(s.ring) { PutTracks(s.ring, s.accepted, s.delivered, c.src[c.i]); }
    hide Tracks, Full, Empty, Put;
    var t := Written(s, p);
    forall q | 0 <= q < |t.pcs| ensures Fine(t, q) { assert Fine(s, q) && Fine(s, p); }
  }

  lemma ReadKeeps(s: State, p: nat)
    requires Inv(s) && Enabled(s, p, Read)
    ensures Inv(Took(s, p))
  {
    var c := s.pcs[p];
    if c.RCopy? && !Empty(s.ring) { GetTracks(s.ring, s.accepted, s.delivered); }
    hide Tracks, Full, Empty, Get, Next;
    var t := Took(s, p);
    forall q | 0 <= q < |t.pcs| ensures Fine(t, q) { assert Fine(s, q) && Fine(s, p); }
  }

  lemma WakeKeeps(s: State, p: nat)
    requires Inv(s) && Enabled(s, p, Wake)
    ensures Inv(Waking(s, p))
  {
    hide Tracks, Full, Empty;
    var t := Waking(s, p);
    forall q | 0 <= q < |t.pcs| ensures Fine(t, q) { assert Fine(s, q) && Fine(s, p); }
  }

  lemma FallKeeps(s: State, p: nat, a: Step)
    requires Inv(s) && Enabled(s, p, a) && (a.ReleaseAndFall? || a.Doze?)
    ensures Inv(After(s, p, a))
  {
    hide Tracks, Full, Empty;
    var t := After(s, p, a);
    forall q | 0 <= q < |t.pcs| ensures Fine(t, q) { assert Fine(s, q) && Fine(s, p); }
  }

  // ----- whole runs -----

  datatype Move = Move(p: nat, step: Step)

  /** The state a schedule leads to; a move that is not enabled cannot be scheduled. */
  ghost predicate Leads(s: State, moves: seq<Move>, t: State)
    decreases |moves|
  {
    if moves == [] then t == s
    else Enabled(s, moves[0].p, moves[0].step) && Leads(After(s, moves[0].p, moves[0].step), moves[1..], t)
  }

  lemma {:induction false} RunKeeps(s: State, moves: seq<Move>, t: State)
    requires Inv(s) && Leads(s, moves, t)
    ensures Inv(t)
    decreases |moves|
  {
    hide Inv, Enabled, After;
    if moves != [] {
      StepKeeps(s, moves[0].p, moves[0].step);
      RunKeeps(After(s, moves[0].p, moves[0].step), moves[1..], t);
    }
  }

  /** The bytes in the ring, read off the counters and the array. */
  function Buffered(r: Ring): (b: seq<byte>)
    requires Shape(r)
  {
    seq<byte>((r.nwrite - r.nread) % UINT32, k requires k >= 0 => r.data[(r.nread + k) % UINT32 % PIPESIZE])
  }

  lemma BufferedIs(r: Ring, accepted: seq<byte>, delivered: seq<byte>)
    requires Tracks(r, accepted, delivered)
    ensures delivered + Buffered(r) == accepted
  {
    CountLeft(|delivered|, |accepted|);
    forall k | 0 <= k < |accepted| - |delivered| ensures Buffered(r)[k] == accepted[|delivered| + k] {
      Wrapped(|delivered|, k);
      SlotOfCounter(|delivered| + k);
    }
  }

  lemma CountLeft(a: nat, b: nat)
    requires a <= b <= a + PIPESIZE
    ensures (b % UINT32 - a % UINT32) % UINT32 == b - a
  {
  }

  /** In every run, what was delivered followed by what is buffered is what was accepted. */
  lemma PipeIsFifo(n: nat, moves: seq<Move>, t: State)
    requires Leads(Init(n), moves, t)
    ensures Shape(t.ring) && t.delivered + Buffered(t.ring) == t.accepted
  {
    hide Leads, Fine;
    InitInv(n);
    RunKeeps(Init(n), moves, t);
    BufferedIs(t.ring, t.accepted, t.delivered);
  }

  /** In every run, whenever the pipe lock is free, a sleeping reader has nothing to read and
      a writer to wait for, and a sleeping writer has no room and a reader to wait for. */
  lemma NoLostWakeup(n: nat, moves: seq<Move>, t: State, q: nat)
    requires Leads(Init(n), moves, t) && t.holder == -1 && q < |t.pcs|
    ensures SleepsR(t.pcs[q]) ==> t.delivered == t.accepted && t.writeopen
    ensures SleepsW(t.pcs[q]) ==> |t.accepted| == |t.delivered| + PIPESIZE && t.readopen
  {
    hide Leads;
    InitInv(n);
    RunKeeps(Init(n), moves, t);
    TestsExact(t.ring, t.accepted, t.delivered);
    assert Fine(t, q);
  }

  /** Readers and writers are never asleep together. */
  lemma NeverBothAsleep(n: nat, moves: seq<Move>, t: State, q: nat, q': nat)
    requires Leads(Init(n), moves, t) && t.holder == -1 && q < |t.pcs| && q' < |t.pcs|
    ensures !(SleepsR(t.pcs[q]) && SleepsW(t.pcs[q']))
  {
    hide Leads;
    NoLostWakeup(n, moves, t, q);
    NoLostWakeup(n, moves, t, q');
  }

  /** The pipe's page is freed only when no process is inside a pipe call, and none gets in. */
  lemma FreedIsQuiet(n: nat, moves: seq<Move>, t: State, q: nat, a: Step)
    requires Leads(Init(n), moves, t) && t.freed
    ensures !Enabled(t, q, a)
  {
    hide Leads, Tracks;
    InitInv(n);
    RunKeeps(Init(n), moves, t);
    if q < |t.pcs| { assert Fine(t, q); }
  }
}
