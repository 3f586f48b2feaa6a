/** fork, exit, reparent and wait (kernel/proc.c) with their locks, in every interleaving.
    Looking at a process under its lock is one step, possible only while that lock is free;
    everything the code does without a lock is a step of its own.  Nothing is killed, pids
    do not wrap and copying the status out succeeds. */
module ExitWait {

  datatype Status = Unused | Live | Zombie

  /** Where a process is.  In wait: Want (the own lock), Scan (at entry np, kids found so far),
      Look (entry np is a child; its lock is needed), Asleep, Woken (RUNNABLE again).  In
      exit, with status x: Exit0 (wake init), Exit1 (note the parent), Exit2 (lock op, the
      parent noted), Exit3 (lock itself), Exit4 (reparent, at entry pp), Exit5 (entry pp is a
      child; its lock is needed), Exit6 (wake op), Exit7 (become a zombie), Exit8 (into the
      scheduler).  Gone: no process runs here. */
  datatype Pc =
    | Run | Want | Scan(np: nat, kids: bool) | Look(np: nat, kids: bool) | Asleep | Woken
    | Exit0(x: int) | Exit1(x: int) | Exit2(x: int, op: nat) | Exit3(x: int, op: nat)
    | Exit4(x: int, op: nat, pp: nat) | Exit5(x: int, op: nat, pp: nat) | Exit6(x: int, op: nat)
    | Exit7(x: int, op: nat) | Exit8 | Gone

  /** The process table, field by field; `lock` is the holder of each entry's lock, -1 for
      none, and parent -1 for none.  `noted` is the process that a zombie took for its parent
      when it exited, and woke.  `exited` and `reaped` record the status every pid exited with
      and was reaped with; `slot` is the entry of a pid in the table. */
  datatype World = World(n: nat, init: nat, pc: seq<Pc>, lock: seq<int>, parent: seq<int>, status: seq<Status>,
                         pid: seq<nat>, xstate: seq<int>, noted: seq<int>,
                         nextpid: nat, exited: map<nat, int>, reaped: map<nat, int>, slot: map<nat, nat>)

  predicate Sized(w: World) {
    && |w.pc| == w.n && |w.lock| == w.n && |w.parent| == w.n && |w.status| == w.n && |w.pid| == w.n && |w.xstate| == w.n
    && |w.noted| == w.n && w.init < w.n
  }

  predicate Free(w: World, q: nat)
    requires Sized(w)
  {
    q < w.n && w.lock[q] == -1
  }

  // ----- the steps -----

  datatype Step = Fork(np: nat) | ForkFail(np: nat, kept: bool) | StartWait | StartExit(x: int) | Go | Sched

  /** wakeup1. */
  function Wake(pc: seq<Pc>, q: nat): (r: seq<Pc>)
    requires q < |pc|
    ensures |r| == |pc| && forall i :: 0 <= i < |pc| ==> r[i] == if i == q && pc[q].Asleep? then Woken else pc[i]
  {
    if pc[q].Asleep? then pc[q := Woken] else pc
  }

  predicate Enabled(w: World, p: nat, a: Step) {
    && Sized(w) && p < w.n
    && match a
       case Fork(np) => w.pc[p].Run? && Free(w, np) && w.status[np].Unused?
       case ForkFail(np, _) => w.pc[p].Run? && Free(w, np) && w.status[np].Unused?
       case StartWait => w.pc[p].Run?
       case StartExit(_) => w.pc[p].Run? && p != w.init
       case Go => CanGo(w, p)
       case Sched => w.pc[p].Exit8?
  }

  predicate CanGo(w: World, p: nat)
    requires Sized(w) && p < w.n
  {
    match w.pc[p]
    case Want => Free(w, p)
    case Woken => Free(w, p)
    case Scan(_, _) => true
    case Look(np, _) => Free(w, np)
    case Exit0(_) => Free(w, w.init)
    case Exit1(_) => Free(w, p) && w.parent[p] >= 0
    case Exit2(_, op) => Free(w, op)
    case Exit3(_, _) => Free(w, p)
    case Exit4(_, _, _) => true
    case Exit5(_, _, pp) => Free(w, pp)
    case Exit6(_, op) => op < w.n
    case Exit7(_, op) => op < w.n
    case _ => false
  }

  function After(w: World, p: nat, a: Step): (v: World)
    requires Enabled(w, p, a)
  {
    match a
    case Fork(np) => Forked(w, p, np)
    case ForkFail(np, kept) => NotForked(w, np, kept)
    case StartWait => To(w, p, Want)
    case StartExit(x) => To(w, p, Exit0(x))
    case Go => Advance(w, p)
    case Sched => Move(w, p, Pc.Gone, p, -1)
  }

  /** allocproc and the rest of fork, under the new process's lock. */
  function Forked(w: World, p: nat, np: nat): (v: World)
    requires Sized(w) && np < w.n
  {
    w.(pc := w.pc[np := Run], parent := w.parent[np := p], status := w.status[np := Live],
       pid := w.pid[np := w.nextpid], xstate := w.xstate[np := 0], noted := w.noted[np := -1],
       nextpid := w.nextpid + 1, slot := w.slot[w.nextpid := np])
  }

  /** fork out of memory: the entry is unused again, with its pid left in it if there was no
      page for the trapframe; the pid is used up. */
  function NotForked(w: World, np: nat, kept: bool): (v: World)
    requires Sized(w) && np < w.n
  {
    w.(pid := w.pid[np := if kept then w.nextpid else 0], nextpid := w.nextpid + 1)
  }

  function Advance(w: World, p: nat): (v: World)
    requires Enabled(w, p, Go)
  {
    match w.pc[p]
    case Want => Move(w, p, Scan(0, false), p, p)
    case Woken => Move(w, p, Scan(0, false), p, p)
    case Scan(np, kids) => Scanned(w, p, np, kids)
    case Look(np, _) => if w.status[np].Zombie? then Reaped(w, p, np) else To(w, p, Scan(np + 1, true))
    case Exit0(x) => w.(pc := Wake(w.pc, w.init)[p := Exit1(x)])
    case Exit1(x) => To(w, p, Exit2(x, w.parent[p]))
    case Exit2(x, op) => Move(w, p, Exit3(x, op), op, p)
    case Exit3(x, op) => Move(w, p, Exit4(x, op, 0), p, p)
    case Exit4(x, op, pp) =>
      To(w, p, if pp >= w.n then Exit6(x, op) else if w.parent[pp] == p then Exit5(x, op, pp) else Exit4(x, op, pp + 1))
    case Exit5(x, op, pp) => w.(pc := w.pc[p := Exit4(x, op, pp + 1)], parent := w.parent[pp := w.init])
    case Exit6(x, op) => w.(pc := Wake(w.pc, op)[p := Exit7(x, op)])
    case Exit7(x, op) => Died(w, p, x, op)
  }

  function To(w: World, p: nat, c: Pc): (v: World)
    requires Sized(w) && p < w.n
  {
    w.(pc := w.pc[p := c])
  }

  /** To c, with the holder of q's lock now h. */
  function Move(w: World, p: nat, c: Pc, q: nat, h: int): (v: World)
    requires Sized(w) && p < w.n && q < w.n
  {
    w.(pc := w.pc[p := c], lock := w.lock[q := h])
  }

  /** The process is a zombie, and lets go of op's lock. */
  function Died(w: World, p: nat, x: int, op: nat): (v: World)
    requires Sized(w) && p < w.n && op < w.n
  {
    w.(pc := w.pc[p := Exit8], status := w.status[p := Zombie], xstate := w.xstate[p := x],
       noted := w.noted[p := op], lock := w.lock[op := -1], exited := w.exited[w.pid[p] := x])
  }

  /** wait at entry np: on to the next, a child to look at, no children, or to sleep. */
  function Scanned(w: World, p: nat, np: nat, kids: bool): (v: World)
    requires Sized(w) && p < w.n
  {
    if np < w.n then To(w, p, if w.parent[np] == p then Look(np, kids) else Scan(np + 1, kids))
    else Move(w, p, if kids then Asleep else Run, p, -1)
  }

  /** wait returns the child's pid and status; freeproc. */
  function Reaped(w: World, p: nat, np: nat): (v: World)
    requires Sized(w) && p < w.n && np < w.n
  {
    w.(pc := w.pc[np := Pc.Gone][p := Run], lock := w.lock[p := -1], parent := w.parent[np := -1],
       status := w.status[np := Unused], pid := w.pid[np := 0], xstate := w.xstate[np := 0],
       reaped := w.reaped[w.pid[np] := w.xstate[np]], slot := w.slot - {w.pid[np]})
  }

  // ----- the invariant -----

  predicate HoldsOp(c: Pc) { c.Exit3? || c.Exit4? || c.Exit5? || c.Exit6? || c.Exit7? }
  predicate HoldsOwn(c: Pc) {
    c.Scan? || c.Look? || c.Exit4? || c.Exit5? || c.Exit6? || c.Exit7? || c.Exit8?
  }
  predicate Leaving(c: Pc) { c.Exit0? || c.Exit1? || c.Exit2? || HoldsOp(c) || c.Exit8? }

  /** Locks are held exactly where the code holds them. */
  predicate Locks(w: World, q: nat)
    requires Sized(w) && q < w.n
  {
    var c, l := w.pc[q], w.lock[q];
    && (HoldsOwn(c) <==> l == q)
    && (HoldsOp(c) ==> c.op < w.n && c.op != q && w.lock[c.op] == q)
    && (l != -1 ==> 0 <= l < w.n && (l != q ==> HoldsOp(w.pc[l]) && w.pc[l].op == q))
    && (c.Exit7? ==> c.op < w.n && !w.pc[c.op].Asleep?)
  }

  /** The shape of one entry. */
  predicate Shape(w: World, q: nat)
    requires Sized(w) && q < w.n
  {
    var c, s, f := w.pc[q], w.status[q], w.parent[q];
    && (s.Unused? ==> c.Gone? && f == -1) && (s.Zombie? ==> c.Exit8? || c.Gone?) && (s.Live? ==> !c.Gone? && !c.Exit8?)
    && f != q && -1 <= f < w.n
    && (q == w.init ==> f == -1 && s.Live? && !Leaving(c))
    && (q != w.init && !s.Unused? ==> f >= 0)
    && (s.Zombie? ==> w.noted[q] == f || f == w.init)
    && (c.Exit2? || HoldsOp(c) ==> c.op < w.n && c.op != q && (f == c.op || f == w.init))
    && (c.Look? ==> c.np < w.n && w.parent[c.np] == q)
    && (c.Exit5? ==> c.pp < w.n && w.parent[c.pp] == q)
  }

  /** The children of process f with index c or less are gone. */
  predicate Childless(w: World, f: nat, c: nat)
    requires Sized(w) && f < w.n
  {
    !w.status[f].Live? || w.pc[f].Exit6? || w.pc[f].Exit7? || ((w.pc[f].Exit4? || w.pc[f].Exit5?) && c < w.pc[f].pp)
  }

  /** c is a zombie and has woken f. */
  predicate Told(w: World, c: nat, f: nat)
    requires Sized(w) && c < w.n
  {
    w.status[c].Zombie? && w.noted[c] == f
  }

  /** An entry c and its parent f. */
  predicate Family(w: World, c: nat)
    requires Sized(w) && c < w.n
  {
    var f := w.parent[c];
    0 <= f < w.n ==>
      && !Childless(w, f, c)
      && (w.pc[f].Asleep? ==> !Told(w, c, f))
      && ((w.pc[f].Scan? || w.pc[f].Look?) && c < w.pc[f].np ==> (f != w.init ==> w.pc[f].kids) && !Told(w, c, f))
  }

  /** Pids, and the record of exits. */
  predicate Pids(w: World, q: nat)
    requires Sized(w) && q < w.n
  {
    var i, s := w.pid[q], w.status[q];
    && (!s.Unused? ==> i < w.nextpid && i in w.slot && w.slot[i] == q && i !in w.reaped)
    && (s.Live? ==> i !in w.exited)
    && (s.Zombie? ==> i in w.exited && w.exited[i] == w.xstate[q])
  }

  ghost predicate Records(w: World)
    requires Sized(w)
  {
    && (forall i :: i in w.slot ==>
        i < w.nextpid && w.slot[i] < w.n && !w.status[w.slot[i]].Unused? && w.pid[w.slot[i]] == i)
    && (forall i :: i in w.exited ==> i < w.nextpid && (i in w.slot || i in w.reaped))
    && (forall i :: i in w.reaped ==> i in w.exited && w.reaped[i] == w.exited[i])
  }

  ghost predicate Book(w: World)
    requires Sized(w)
  {
    Records(w) && forall q :: 0 <= q < w.n ==> Pids(w, q)
  }

  ghost predicate Protocol(w: World)
    requires Sized(w)
  {
    && (forall q :: 0 <= q < w.n ==> Locks(w, q))
    && (forall q :: 0 <= q < w.n ==> Shape(w, q))
    && (forall q :: 0 <= q < w.n ==> Family(w, q))
  }

  ghost predicate Inv(w: World)
    ensures Inv(w) ==> Sized(w) && Book(w) && Protocol(w)
  {
    Sized(w) && Book(w) && Protocol(w)
  }

  // ----- every step keeps it -----

  lemma SameBook(w: World, v: World)
    requires Sized(w) && Sized(v) && Book(w) && v.n == w.n && v.status == w.status && v.pid == w.pid
             && v.xstate == w.xstate
    requires v.nextpid == w.nextpid && v.exited == w.exited && v.reaped == w.reaped && v.slot == w.slot
    ensures Book(v)
  {
    forall q | 0 <= q < v.n ensures Pids(v, q) { assert Pids(w, q); }
  }

  lemma ForkKeeps(w: World, p: nat, np: nat)
    requires Sized(w) && Protocol(w) && p < w.n && np < w.n && w.pc[p].Run? && Free(w, np) && w.status[np].Unused?
    ensures Protocol(Forked(w, p, np))
  {
    var v := Forked(w, p, np);
    assert Locks(w, p) && Shape(w, p) && Locks(w, np) && Shape(w, np);
    forall q | 0 <= q < v.n ensures Locks(v, q) { assert Locks(w, q); }
    forall q | 0 <= q < v.n ensures Shape(v, q) { assert Shape(w, q); }
    forall q | 0 <= q < v.n ensures Family(v, q) { assert Family(w, q); }
  }

  lemma StartWaitKeeps(w: World, p: nat)
    requires Sized(w) && Protocol(w) && p < w.n && w.pc[p].Run?
    ensures Protocol(To(w, p, Want))
  {
    var v := To(w, p, Want);
    assert Locks(w, p) && Shape(w, p);
    forall q | 0 <= q < v.n ensures Locks(v, q) { assert Locks(w, q); }
    forall q | 0 <= q < v.n ensures Shape(v, q) { assert Shape(w, q); }
    forall q | 0 <= q < v.n ensures Family(v, q) { assert Family(w, q); }
  }

  lemma StartExitKeeps(w: World, p: nat, x: int)
    requires Sized(w) && Protocol(w) && p < w.n && w.pc[p].Run? && p != w.init
    ensures Protocol(To(w, p, Exit0(x)))
  {
    var v := To(w, p, Exit0(x));
    assert Locks(w, p) && Shape(w, p);
    forall q | 0 <= q < v.n ensures Locks(v, q) { assert Locks(w, q); }
    forall q | 0 <= q < v.n ensures Shape(v, q) { assert Shape(w, q); }
    forall q | 0 <= q < v.n ensures Family(v, q) { assert Family(w, q); }
  }

  lemma SchedKeeps(w: World, p: nat)
    requires Sized(w) && Protocol(w) && p < w.n && w.pc[p].Exit8?
    ensures Protocol(Move(w, p, Pc.Gone, p, -1))
  {
    var v := Move(w, p, Pc.Gone, p, -1);
    assert Locks(w, p) && Shape(w, p);
    forall q | 0 <= q < v.n ensures Locks(v, q) { assert Locks(w, q); }
    forall q | 0 <= q < v.n ensures Shape(v, q) { assert Shape(w, q); }
    forall q | 0 <= q < v.n ensures Family(v, q) { assert Family(w, q); }
  }

  lemma RelockKeeps(w: World, p: nat)
    requires Sized(w) && Protocol(w) && p < w.n && (w.pc[p].Want? || w.pc[p].Woken?) && Free(w, p)
    ensures Protocol(Move(w, p, Scan(0, false), p, p))
  {
    var v := Move(w, p, Scan(0, false), p, p);
    assert Locks(w, p) && Shape(w, p);
    forall q | 0 <= q < v.n ensures Locks(v, q) { assert Locks(w, q); }
    forall q | 0 <= q < v.n ensures Shape(v, q) { assert Shape(w, q); }
    forall q | 0 <= q < v.n ensures Family(v, q) { assert Family(w, q); }
  }

  lemma ScanNextKeeps(w: World, p: nat, np: nat, kids: bool)
    requires Sized(w) && Protocol(w) && p < w.n && w.pc[p] == Scan(np, kids) && np < w.n && w.parent[np] != p
    ensures Protocol(To(w, p, Scan(np + 1, kids)))
  {
    var v := To(w, p, Scan(np + 1, kids));
    assert Locks(w, p) && Shape(w, p);
    forall q | 0 <= q < v.n ensures Locks(v, q) { assert Locks(w, q); }
    forall q | 0 <= q < v.n ensures Shape(v, q) { assert Shape(w, q); }
    forall q | 0 <= q < v.n ensures Family(v, q) { assert Family(w, q); }
  }

  lemma ScanChildKeeps(w: World, p: nat, np: nat, kids: bool)
    requires Sized(w) && Protocol(w) && p < w.n && w.pc[p] == Scan(np, kids) && np < w.n && w.parent[np] == p
    ensures Protocol(To(w, p, Look(np, kids)))
  {
    var v := To(w, p, Look(np, kids));
    assert Locks(w, p) && Shape(w, p);
    forall q | 0 <= q < v.n ensures Locks(v, q) { assert Locks(w, q); }
    forall q | 0 <= q < v.n ensures Shape(v, q) { assert Shape(w, q); }
    forall q | 0 <= q < v.n ensures Family(v, q) { assert Family(w, q); }
  }

  lemma SettleKeeps(w: World, p: nat, np: nat, kids: bool)
    requires Sized(w) && Protocol(w) && p < w.n && w.pc[p] == Scan(np, kids) && np >= w.n
    ensures Protocol(Move(w, p, if kids then Asleep else Run, p, -1))
  {
    var v := Move(w, p, if kids then Asleep else Run, p, -1);
    assert Locks(w, p) && Shape(w, p);
    forall q | 0 <= q < v.n ensures Locks(v, q) { assert Locks(w, q); }
    forall q | 0 <= q < v.n ensures Shape(v, q) { assert Shape(w, q); }
    forall q | 0 <= q < v.n ensures Family(v, q) { assert Family(w, q); }
  }

  lemma LookKeeps(w: World, p: nat, np: nat, kids: bool)
    requires Sized(w) && Protocol(w) && p < w.n && w.pc[p] == Look(np, kids) && np < w.n && !w.status[np].Zombie?
    ensures Protocol(To(w, p, Scan(np + 1, true)))
  {
    var v := To(w, p, Scan(np + 1, true));
    assert Locks(w, p) && Shape(w, p);
    forall q | 0 <= q < v.n ensures Locks(v, q) { assert Locks(w, q); }
    forall q | 0 <= q < v.n ensures Shape(v, q) { assert Shape(w, q); }
    forall q | 0 <= q < v.n ensures Family(v, q) { assert Family(w, q); }
  }

  lemma ReapLocks(w: World, p: nat, np: nat, kids: bool, q: nat)
    requires Sized(w) && Protocol(w) && p < w.n && q < w.n && w.pc[p] == Look(np, kids) && np < w.n && Free(w, np)
             && w.status[np].Zombie?
    ensures Locks(Reaped(w, p, np), q)
  {
    assert Locks(w, p) && Locks(w, np) && Shape(w, p) && Shape(w, np) && Locks(w, q);
    hide Protocol, Family, Shape;
  }

  lemma ReapShape(w: World, p: nat, np: nat, kids: bool, q: nat)
    requires Sized(w) && Protocol(w) && p < w.n && q < w.n && w.pc[p] == Look(np, kids) && np < w.n && Free(w, np)
             && w.status[np].Zombie?
    ensures Shape(Reaped(w, p, np), q) && Family(Reaped(w, p, np), q)
  {
    assert Locks(w, p) && Locks(w, np) && Shape(w, p) && Shape(w, np) && Shape(w, q) && Locks(w, q) && Family(w, q);
    hide Protocol;
  }

  lemma ReapKeeps(w: World, p: nat, np: nat, kids: bool)
    requires Sized(w) && Protocol(w) && p < w.n && w.pc[p] == Look(np, kids) && np < w.n && Free(w, np)
             && w.status[np].Zombie?
    ensures Protocol(Reaped(w, p, np))
  {
    var v := Reaped(w, p, np);
    forall q | 0 <= q < v.n ensures Locks(v, q) { ReapLocks(w, p, np, kids, q); }
    forall q | 0 <= q < v.n ensures Shape(v, q) { ReapShape(w, p, np, kids, q); }
    forall q | 0 <= q < v.n ensures Family(v, q) { ReapShape(w, p, np, kids, q); }
    hide Locks, Shape, Family;
  }

  lemma Exit0Keeps(w: World, p: nat, x: int)
    requires Sized(w) && Protocol(w) && p < w.n && w.pc[p] == Exit0(x)
    ensures Protocol(w.(pc := Wake(w.pc, w.init)[p := Exit1(x)]))
  {
    hide Wake;
    var v := w.(pc := Wake(w.pc, w.init)[p := Exit1(x)]);
    assert Locks(w, p) && Shape(w, p);
    forall q | 0 <= q < v.n ensures Locks(v, q) { assert Locks(w, q); }
    forall q | 0 <= q < v.n ensures Shape(v, q) { assert Shape(w, q); }
    forall q | 0 <= q < v.n ensures Family(v, q) { assert Family(w, q); }
  }

  lemma Exit1Keeps(w: World, p: nat, x: int)
    requires Sized(w) && Protocol(w) && p < w.n && w.pc[p] == Exit1(x) && w.parent[p] >= 0
    ensures Protocol(To(w, p, Exit2(x, w.parent[p])))
  {
    var v := To(w, p, Exit2(x, w.parent[p]));
    assert Locks(w, p) && Shape(w, p);
    forall q | 0 <= q < v.n ensures Locks(v, q) { assert Locks(w, q); }
    forall q | 0 <= q < v.n ensures Shape(v, q) { assert Shape(w, q); }
    forall q | 0 <= q < v.n ensures Family(v, q) { assert Family(w, q); }
  }

  lemma Exit2Keeps(w: World, p: nat, x: int, op: nat)
    requires Sized(w) && Protocol(w) && p < w.n && w.pc[p] == Exit2(x, op) && Free(w, op)
    ensures Protocol(Move(w, p, Exit3(x, op), op, p))
  {
    var v := Move(w, p, Exit3(x, op), op, p);
    assert Locks(w, p) && Shape(w, p);
    forall q | 0 <= q < v.n ensures Locks(v, q) { assert Locks(w, q); }
    forall q | 0 <= q < v.n ensures Shape(v, q) { assert Shape(w, q); }
    forall q | 0 <= q < v.n ensures Family(v, q) { assert Family(w, q); }
  }

  lemma Exit3Keeps(w: World, p: nat, x: int, op: nat)
    requires Sized(w) && Protocol(w) && p < w.n && w.pc[p] == Exit3(x, op) && Free(w, p)
    ensures Protocol(Move(w, p, Exit4(x, op, 0), p, p))
  {
    var v := Move(w, p, Exit4(x, op, 0), p, p);
    assert Locks(w, p) && Shape(w, p);
    forall q | 0 <= q < v.n ensures Locks(v, q) { assert Locks(w, q); }
    forall q | 0 <= q < v.n ensures Shape(v, q) { assert Shape(w, q); }
    forall q | 0 <= q < v.n ensures Family(v, q) { assert Family(w, q); }
  }

  lemma Exit4OnKeeps(w: World, p: nat, x: int, op: nat, pp: nat)
    requires Sized(w) && Protocol(w) && p < w.n && w.pc[p] == Exit4(x, op, pp) && pp < w.n
    ensures Protocol(To(w, p, if w.parent[pp] == p then Exit5(x, op, pp) else Exit4(x, op, pp + 1)))
  {
    var v := To(w, p, if w.parent[pp] == p then Exit5(x, op, pp) else Exit4(x, op, pp + 1));
    assert Locks(w, p) && Shape(w, p);
    forall q | 0 <= q < v.n ensures Locks(v, q) { assert Locks(w, q); }
    forall q | 0 <= q < v.n ensures Shape(v, q) { assert Shape(w, q); }
    forall q | 0 <= q < v.n ensures Family(v, q) { assert Family(w, q); }
  }

  lemma Exit4DoneKeeps(w: World, p: nat, x: int, op: nat, pp: nat)
    requires Sized(w) && Protocol(w) && p < w.n && w.pc[p] == Exit4(x, op, pp) && pp >= w.n
    ensures Protocol(To(w, p, Exit6(x, op)))
  {
    var v := To(w, p, Exit6(x, op));
    assert Locks(w, p) && Shape(w, p);
    forall q | 0 <= q < v.n ensures Locks(v, q) { assert Locks(w, q); }
    forall q | 0 <= q < v.n ensures Shape(v, q) { assert Shape(w, q); }
    forall q | 0 <= q < v.n ensures Family(v, q) { assert Family(w, q); }
  }

  lemma Exit5Keeps(w: World, p: nat, x: int, op: nat, pp: nat)
    requires Sized(w) && Protocol(w) && p < w.n && w.pc[p] == Exit5(x, op, pp) && pp < w.n
    ensures Protocol(w.(pc := w.pc[p := Exit4(x, op, pp + 1)], parent := w.parent[pp := w.init]))
  {
    var v := w.(pc := w.pc[p := Exit4(x, op, pp + 1)], parent := w.parent[pp := w.init]);
    assert Locks(w, p) && Shape(w, p) && Locks(w, w.init) && Shape(w, w.init) && Shape(w, pp);
    forall q | 0 <= q < v.n ensures Locks(v, q) { assert Locks(w, q); }
    forall q | 0 <= q < v.n ensures Shape(v, q) { assert Shape(w, q); }
    forall q | 0 <= q < v.n ensures Family(v, q) { assert Family(w, q); }
  }

  lemma Exit6Keeps(w: World, p: nat, x: int, op: nat)
    requires Sized(w) && Protocol(w) && p < w.n && w.pc[p] == Exit6(x, op) && op < w.n
    ensures Protocol(w.(pc := Wake(w.pc, op)[p := Exit7(x, op)]))
  {
    hide Wake;
    var v := w.(pc := Wake(w.pc, op)[p := Exit7(x, op)]);
    assert Locks(w, p) && Shape(w, p);
    forall q | 0 <= q < v.n ensures Locks(v, q) { assert Locks(w, q); }
    forall q | 0 <= q < v.n ensures Shape(v, q) { assert Shape(w, q); }
    forall q | 0 <= q < v.n ensures Family(v, q) { assert Family(w, q); }
  }

  lemma Exit7Keeps(w: World, p: nat, x: int, op: nat)
    requires Sized(w) && Protocol(w) && p < w.n && w.pc[p] == Exit7(x, op) && op < w.n
    ensures Protocol(Died(w, p, x, op))
  {
    var v := Died(w, p, x, op);
    assert Locks(w, p) && Shape(w, p) && Locks(w, op) && Shape(w, op);
    forall q | 0 <= q < v.n ensures Locks(v, q) { assert Locks(w, q); }
    forall q | 0 <= q < v.n ensures Shape(v, q) { assert Shape(w, q); }
    forall q | 0 <= q < v.n ensures Family(v, q) { assert Family(w, q); }
  }

  lemma ForkBook(w: World, p: nat, np: nat)
    requires Sized(w) && Book(w) && p < w.n && np < w.n && w.status[np].Unused?
    ensures Book(Forked(w, p, np))
  {
    var v := Forked(w, p, np);
    assert w.nextpid !in w.slot && w.nextpid !in w.exited && w.nextpid !in w.reaped;
    forall q | 0 <= q < v.n ensures Pids(v, q) { assert Pids(w, q); }
  }

  lemma NotForkedBook(w: World, np: nat, kept: bool)
    requires Sized(w) && Book(w) && np < w.n && w.status[np].Unused?
    ensures Book(NotForked(w, np, kept))
  {
    var v := NotForked(w, np, kept);
    forall q | 0 <= q < v.n ensures Pids(v, q) { assert Pids(w, q); }
  }

  lemma NotForkedKeeps(w: World, np: nat, kept: bool)
    requires Sized(w) && Protocol(w) && np < w.n
    ensures Protocol(NotForked(w, np, kept))
  {
    var v := NotForked(w, np, kept);
    forall q | 0 <= q < v.n ensures Locks(v, q) { assert Locks(w, q); }
    forall q | 0 <= q < v.n ensures Shape(v, q) { assert Shape(w, q); }
    forall q | 0 <= q < v.n ensures Family(v, q) { assert Family(w, q); }
  }

  lemma ReapBook(w: World, p: nat, np: nat)
    requires Sized(w) && Book(w) && p < w.n && np < w.n && w.status[np].Zombie?
    ensures Book(Reaped(w, p, np))
  {
    var v := Reaped(w, p, np);
    assert Pids(w, np);
    forall q | 0 <= q < v.n ensures Pids(v, q) { assert Pids(w, q); }
  }

  lemma DiedBook(w: World, p: nat, x: int, op: nat)
    requires Sized(w) && Book(w) && p < w.n && op < w.n && w.status[p].Live?
    ensures Book(Died(w, p, x, op))
  {
    var v := Died(w, p, x, op);
    assert Pids(w, p);
    forall q | 0 <= q < v.n ensures Pids(v, q) { assert Pids(w, q); }
  }

  lemma GoKeeps(w: World, p: nat)
    requires Inv(w) && Enabled(w, p, Go)
    ensures Sized(Advance(w, p)) && Protocol(Advance(w, p))
  {
    hide Protocol, Book, Scanned, Reaped, Died, Wake;
    match w.pc[p]
    case Want => RelockKeeps(w, p);
    case Woken => RelockKeeps(w, p);
    case Scan(np, kids) => ScanKeeps(w, p, np, kids);
    case Look(np, kids) => LookedKeeps(w, p, np, kids);
    case Exit0(x) => Exit0Keeps(w, p, x);
    case Exit1(x) => Exit1Keeps(w, p, x);
    case Exit2(x, op) => Exit2Keeps(w, p, x, op);
    case Exit3(x, op) => Exit3Keeps(w, p, x, op);
    case Exit4(x, op, pp) => if pp < w.n { Exit4OnKeeps(w, p, x, op, pp); } else { Exit4DoneKeeps(w, p, x, op, pp); }
    case Exit5(x, op, pp) => Exit5Keeps(w, p, x, op, pp);
    case Exit6(x, op) => Exit6Keeps(w, p, x, op);
    case Exit7(x, op) => Exit7Keeps(w, p, x, op); DiedSized(w, p, x, op);
  }

  lemma DiedSized(w: World, p: nat, x: int, op: nat)
    requires Sized(w) && p < w.n && op < w.n
    ensures Sized(Died(w, p, x, op))
  {
  }

  lemma ScanKeeps(w: World, p: nat, np: nat, kids: bool)
    requires Sized(w) && Protocol(w) && p < w.n && w.pc[p] == Scan(np, kids)
    ensures Sized(Scanned(w, p, np, kids)) && Protocol(Scanned(w, p, np, kids))
  {
    hide Protocol;
    if np >= w.n { SettleKeeps(w, p, np, kids); }
    else if w.parent[np] == p { ScanChildKeeps(w, p, np, kids); }
    else { ScanNextKeeps(w, p, np, kids); }
  }

  lemma LookedKeeps(w: World, p: nat, np: nat, kids: bool)
    requires Sized(w) && Protocol(w) && p < w.n && w.pc[p] == Look(np, kids) && Free(w, np)
    ensures w.status[np].Zombie? ==> Sized(Reaped(w, p, np)) && Protocol(Reaped(w, p, np))
    ensures !w.status[np].Zombie? ==> Protocol(To(w, p, Scan(np + 1, true)))
  {
    hide Protocol;
    if w.status[np].Zombie? { ReapKeeps(w, p, np, kids); } else { LookKeeps(w, p, np, kids); }
  }

  lemma GoBook(w: World, p: nat)
    requires Inv(w) && Enabled(w, p, Go) && Sized(Advance(w, p))
    ensures Book(Advance(w, p))
  {
    hide Book, Locks, Family;
    var c := w.pc[p];
    if c.Look? && w.status[c.np].Zombie? {
      ReapBook(w, p, c.np);
    } else if c.Exit7? {
      assert Shape(w, p);
      DiedBook(w, p, c.x, c.op);
    } else {
      SameBook(w, Advance(w, p));
    }
  }

  lemma StepKeeps(w: World, p: nat, a: Step)
    requires Inv(w) && Enabled(w, p, a)
    ensures Inv(After(w, p, a))
  {
    hide Protocol, Book, Advance;
    match a
    case Fork(np) => ForkKeeps(w, p, np); ForkBook(w, p, np);
    case ForkFail(np, kept) => NotForkedKeeps(w, np, kept); NotForkedBook(w, np, kept);
    case StartWait => StartWaitKeeps(w, p); SameBook(w, To(w, p, Want));
    case StartExit(x) => StartExitKeeps(w, p, x); SameBook(w, To(w, p, Exit0(x)));
    case Go => GoKeeps(w, p); GoBook(w, p);
    case Sched => SchedKeeps(w, p); SameBook(w, Move(w, p, Pc.Gone, p, -1));
  }

  // ----- whole runs -----

  /** init alone, as pid 1, in a table of n entries. */
  function Boot(n: nat, init: nat): (w: World)
    requires init < n
  {
    World(n, init, seq(n, i requires i >= 0 => if i == init then Run else Pc.Gone), seq(n, i => -1), seq(n, i => -1),
          seq(n, i requires i >= 0 => if i == init then Live else Unused),
              seq(n, i requires i >= 0 => if i == init then 1 else 0),
          seq(n, i => 0), seq(n, i => -1), 2, map[], map[], map[1 := init])
  }

  lemma BootInv(n: nat, init: nat)
    requires init < n
    ensures Inv(Boot(n, init))
  {
  }

  datatype Act = Act(p: nat, step: Step)

  ghost predicate Leads(w: World, moves: seq<Act>, v: World)
    decreases |moves|
  {
    if moves == [] then v == w
    else
      var m := moves[|moves| - 1];
      exists u :: Leads(w, moves[..|moves| - 1], u) && Enabled(u, m.p, m.step) && v == After(u, m.p, m.step)
  }

  lemma {:induction false} RunKeeps(w: World, moves: seq<Act>, v: World)
    requires Inv(w) && Leads(w, moves, v)
    ensures Inv(v) && v.init == w.init && v.n == w.n
    ensures forall i :: i in w.reaped ==> i in v.reaped && v.reaped[i] == w.reaped[i]
    decreases |moves|
  {
    hide Inv;
    if moves != [] {
      var m := moves[|moves| - 1];
      var u :| Leads(w, moves[..|moves| - 1], u) && Enabled(u, m.p, m.step) && v == After(u, m.p, m.step);
      RunKeeps(w, moves[..|moves| - 1], u);
      StepKeeps(u, m.p, m.step);
      StepKeepsReaped(u, m.p, m.step);
    }
  }

  /** A pid once reaped stays so, with the status it was reaped with. */
  lemma StepKeepsReaped(w: World, p: nat, a: Step)
    requires Inv(w) && Enabled(w, p, a)
    ensures var v := After(w, p, a);
            && v.init == w.init && v.n == w.n
            && (forall i :: i in w.reaped ==> i in v.reaped && v.reaped[i] == w.reaped[i])
  {
    hide Protocol;
    if a.Go? && w.pc[p].Look? { assert Pids(w, w.pc[p].np); }
  }

  /** In every run, a process other than init asleep in wait has no zombie child. */
  lemma NoLostExit(n: nat, init: nat, moves: seq<Act>, w: World, q: nat, c: nat)
    requires init < n && Leads(Boot(n, init), moves, w) && q < n && c < n && |w.pc| == |w.parent| == |w.status| == n
    requires q != init && w.pc[q].Asleep? && w.parent[c] == q
    ensures !w.status[c].Zombie?
  {
    hide Leads;
    BootInv(n, init);
    RunKeeps(Boot(n, init), moves, w);
    assert Family(w, c) && Shape(w, c);
  }

  /** In every run, a zombie child that init sleeps through had another parent when it exited:
      it woke that one, and was given to init afterwards. */
  lemma InitMissesAdopted(n: nat, init: nat, moves: seq<Act>, w: World, c: nat)
    requires init < n && Leads(Boot(n, init), moves, w) && Sized(w) && c < w.n
    requires w.pc[w.init].Asleep? && w.parent[c] == w.init && w.status[c].Zombie?
    ensures w.noted[c] != w.init
  {
    hide Leads;
    BootInv(n, init);
    RunKeeps(Boot(n, init), moves, w);
    assert Family(w, c);
  }

  /** And only so: a child of init that exits while init sleeps leaves it asleep exactly when
      it noted another parent. */
  lemma InitSleepsOn(n: nat, init: nat, moves: seq<Act>, w: World, c: nat)
    requires init < n && Leads(Boot(n, init), moves, w) && Enabled(w, c, Go) && w.pc[c].Exit6? && w.parent[c] == w.init
    requires w.pc[w.init].Asleep?
    ensures After(w, c, Go).pc[w.init].Asleep? <==> w.pc[c].op != w.init
  {
    hide Leads;
    BootInv(n, init);
    RunKeeps(Boot(n, init), moves, w);
    assert Shape(w, c);
  }

  /** In every run, wait hands its caller one of its own children, with that child's pid and
      exit status, and no pid twice. */
  lemma ReapedOnce(n: nat, init: nat, moves: seq<Act>, w: World, p: nat)
    requires init < n && Leads(Boot(n, init), moves, w) && Enabled(w, p, Go)
    requires w.pc[p].Look? && w.status[w.pc[p].np].Zombie?
    ensures var np := w.pc[p].np;
            var v := After(w, p, Go);
            && w.parent[np] == p && w.pid[np] in w.exited && w.pid[np] !in w.reaped
            && v.reaped == w.reaped[w.pid[np] := w.exited[w.pid[np]]]
  {
    hide Leads;
    BootInv(n, init);
    RunKeeps(Boot(n, init), moves, w);
    assert Shape(w, p) && Pids(w, w.pc[p].np);
  }

  /** In every run, a pid that exited has been reaped or is a zombie in the table. */
  lemma NoExitForgotten(n: nat, init: nat, moves: seq<Act>, w: World, i: nat)
    requires init < n && Leads(Boot(n, init), moves, w) && i in w.exited
    ensures i in w.reaped || (Sized(w) &&
            exists q :: 0 <= q < w.n && w.pid[q] == i && w.status[q].Zombie? && w.xstate[q] == w.exited[i])
  {
    hide Leads;
    BootInv(n, init);
    RunKeeps(Boot(n, init), moves, w);
    if i !in w.reaped { assert Pids(w, w.slot[i]); }
  }

  /** In every run, wait by a process other than init returns -1 only without children. */
  lemma WaitFailsChildless(n: nat, init: nat, moves: seq<Act>, w: World, p: nat, c: nat)
    requires init < n && Leads(Boot(n, init), moves, w) && Sized(w) && p < w.n && c < w.n && p != init
    requires w.pc[p].Scan? && w.pc[p].np >= w.n && !w.pc[p].kids
    ensures w.parent[c] != p
  {
    hide Leads;
    BootInv(n, init);
    RunKeeps(Boot(n, init), moves, w);
    assert Family(w, c);
  }

  /** In every run, a process that has not been reaped has a live parent, or is init. */
  lemma OrphansAdopted(n: nat, init: nat, moves: seq<Act>, w: World, c: nat)
    requires init < n && Leads(Boot(n, init), moves, w) && Sized(w) && c < w.n
    requires !w.status[c].Unused? && c != init
    ensures 0 <= w.parent[c] < w.n && w.status[w.parent[c]].Live?
  {
    hide Leads;
    BootInv(n, init);
    RunKeeps(Boot(n, init), moves, w);
    assert Shape(w, c) && Family(w, c);
  }
}
