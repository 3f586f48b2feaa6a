/** fork, exit and wait in terms of the calls made (kernel/proc.c), over every run of ExitWait:
    what wait hands over is the argument of an exit call, and who is whose child is decided by
    the fork calls. */
module ExitCalls {
  import opened ExitWait

  ghost predicate IsRun(n: nat, init: nat, ws: seq<World>, acts: seq<Act>)
    ensures IsRun(n, init, ws, acts) ==> |ws| == |acts| + 1
  {
    && init < n && |ws| == |acts| + 1 && ws[0] == Boot(n, init)
    && forall k :: 0 <= k < |acts| ==>
         Enabled(ws[k], acts[k].p, acts[k].step) && ws[k + 1] == After(ws[k], acts[k].p, acts[k].step)
  }

  lemma {:induction false} Holds(n: nat, init: nat, ws: seq<World>, acts: seq<Act>, k: nat)
    requires IsRun(n, init, ws, acts) && k <= |acts|
    ensures Inv(ws[k]) && ws[k].n == n && ws[k].init == init
  {
    hide Inv, Enabled, After, Boot;
    if k == 0 {
      BootInv(n, init);
      BootIs(n, init);
    } else {
      Holds(n, init, ws, acts, k - 1);
      StepKeeps(ws[k - 1], acts[k - 1].p, acts[k - 1].step);
      StepKeepsReaped(ws[k - 1], acts[k - 1].p, acts[k - 1].step);
    }
  }

  lemma BootIs(n: nat, init: nat)
    requires init < n
    ensures Boot(n, init).n == n && Boot(n, init).init == init
  {
  }

  // ----- exit -----

  /** The last exit call of process p before step k, named by its step; -1 for none. */
  ghost function LastExit(acts: seq<Act>, k: nat, p: nat): (m: int)
    requires k <= |acts|
    ensures -1 <= m < k && (m >= 0 ==> acts[m].p == p && acts[m].step.StartExit?)
  {
    if k == 0 then -1
    else if acts[k - 1].p == p && acts[k - 1].step.StartExit? then k - 1 else LastExit(acts, k - 1, p)
  }

  /** Step m is an exit call with status x of the process with this pid. */
  ghost predicate Exited(ws: seq<World>, acts: seq<Act>, k: nat, m: nat, pid: nat, x: int)
    requires k <= |acts| < |ws|
  {
    && m < k && acts[m].step == StartExit(x) && acts[m].p < |ws[m].pid| && ws[m].pid[acts[m].p] == pid
  }

  /** In exit, before the process is a zombie. */
  predicate Exiting(c: Pc) { c.Exit0? || c.Exit1? || c.Exit2? || HoldsOp(c) }

  ghost predicate ExitFine(ws: seq<World>, acts: seq<Act>, k: nat, p: nat)
    requires k <= |acts| < |ws| && Sized(ws[k]) && p < ws[k].n
  {
    var c := ws[k].pc[p];
    Exiting(c) ==> LastExit(acts, k, p) >= 0 && Exited(ws, acts, k, LastExit(acts, k, p), ws[k].pid[p], c.x)
  }

  /** Over a step, a process in exit got there by its call, or stays there with its status and pid. */
  lemma ExitMoves(w: World, q: nat, a: Step, p: nat)
    requires Inv(w) && Enabled(w, q, a) && p < w.n
    ensures var v := After(w, q, a);
            && |v.pc| == w.n && |v.pid| == w.n
            && (Exiting(v.pc[p]) && q == p && a.StartExit? ==> v.pc[p].x == a.x && v.pid[p] == w.pid[p])
            && (Exiting(v.pc[p]) && !(q == p && a.StartExit?) ==>
                  Exiting(w.pc[p]) && v.pc[p].x == w.pc[p].x && v.pid[p] == w.pid[p])
  {
    assert Shape(w, p) && Shape(w, q);
    hide Inv, Family, Locks, Pids, Records;
    if a.Go? { ExitGoes(w, q, p); }
  }

  lemma ExitGoes(w: World, q: nat, p: nat)
    requires Sized(w) && p < w.n && q < w.n && Enabled(w, q, Go) && Shape(w, p) && Shape(w, q)
    ensures var v := Advance(w, q);
            && |v.pc| == w.n && |v.pid| == w.n
            && (Exiting(v.pc[p]) ==> Exiting(w.pc[p]) && v.pc[p].x == w.pc[p].x && v.pid[p] == w.pid[p])
  {
    hide Advance, Shape;
    if q == p { OwnGo(w, p); } else { OtherGo(w, q, p); }
  }

  lemma OwnGo(w: World, p: nat)
    requires Sized(w) && p < w.n && Enabled(w, p, Go) && Shape(w, p)
    ensures var v := Advance(w, p);
            && |v.pc| == w.n && |v.pid| == w.n
            && (Exiting(v.pc[p]) ==> Exiting(w.pc[p]) && v.pc[p].x == w.pc[p].x && v.pid[p] == w.pid[p])
  {
    hide Advance, Shape;
    if Exiting(w.pc[p]) { OwnExit(w, p); } else { OwnWait(w, p); }
  }

  lemma OwnExit(w: World, p: nat)
    requires Sized(w) && p < w.n && Enabled(w, p, Go) && Exiting(w.pc[p])
    ensures var v := Advance(w, p);
            && |v.pc| == w.n && |v.pid| == w.n && v.pid[p] == w.pid[p]
            && (v.pc[p].Exit8? || (Exiting(v.pc[p]) && v.pc[p].x == w.pc[p].x))
  {
    hide Wake, Died, Scanned, Reaped;
    if w.pc[p].Exit7? { DiedAlone(w, p, w.pc[p].x, w.pc[p].op); }
  }

  lemma OwnWait(w: World, p: nat)
    requires Sized(w) && p < w.n && Enabled(w, p, Go) && !Exiting(w.pc[p])
    ensures var v := Advance(w, p);
            |v.pc| == w.n && |v.pid| == w.n && !Exiting(v.pc[p])
  {
    hide Wake, Scanned, Reaped;
    match w.pc[p]
    case Scan(np, kids) => ScanStays(w, p, np, kids);
    case Look(np, kids) => if w.status[np].Zombie? { ReapStays(w, p, np); }
    case _ =>
  }

  lemma ScanStays(w: World, p: nat, np: nat, kids: bool)
    requires Sized(w) && p < w.n
    ensures var v := Scanned(w, p, np, kids); |v.pc| == w.n && v.pid == w.pid && !Exiting(v.pc[p])
  {
  }

  lemma ReapStays(w: World, p: nat, np: nat)
    requires Sized(w) && p < w.n && np < w.n
    ensures var v := Reaped(w, p, np); |v.pc| == w.n && |v.pid| == w.n && !Exiting(v.pc[p])
  {
  }

  /** Another's step wakes this process, reaps it, or leaves it. */
  lemma OtherGo(w: World, q: nat, p: nat)
    requires Sized(w) && p < w.n && q < w.n && q != p && Enabled(w, q, Go)
    ensures var v := Advance(w, q);
            && |v.pc| == w.n && |v.pid| == w.n
            && ((v.pc[p] == w.pc[p] && v.pid[p] == w.pid[p]) || v.pc[p].Woken? || v.pc[p].Gone?)
  {
    hide Wake, Died, Scanned;
    var c := w.pc[q];
    if c.Look? && w.status[c.np].Zombie? { assert Advance(w, q) == Reaped(w, q, c.np); }
    if c.Scan? { ScanOther(w, q, c.np, c.kids, p); }
    if c.Exit7? { DiedOther(w, q, c.x, c.op, p); }
  }

  lemma {:induction false} ExitCall(n: nat, init: nat, ws: seq<World>, acts: seq<Act>, k: nat, p: nat)
    requires IsRun(n, init, ws, acts) && k <= |acts| && p < n
    ensures Inv(ws[k]) && ws[k].n == n && ExitFine(ws, acts, k, p)
  {
    hide Inv, Enabled, After, Boot;
    Holds(n, init, ws, acts, k);
    if k == 0 {
      NotExiting(n, init, p);
    } else {
      ExitCall(n, init, ws, acts, k - 1, p);
      ExitMoves(ws[k - 1], acts[k - 1].p, acts[k - 1].step, p);
      SizedInv(ws[k - 1]);
    }
  }

  lemma SizedInv(w: World)
    requires Inv(w)
    ensures Sized(w)
  {
  }

  lemma NotExiting(n: nat, init: nat, p: nat)
    requires init < n && p < n
    ensures Sized(Boot(n, init)) && !Exiting(Boot(n, init).pc[p])
  {
  }

  /** In every run the status recorded for a pid is the argument of an exit call that the process
      with that pid made. */
  lemma {:induction false} StatusIsArgument(n: nat, init: nat, ws: seq<World>, acts: seq<Act>, k: nat, i: nat)
    returns (m: nat)
    requires IsRun(n, init, ws, acts) && k <= |acts| && i in ws[k].exited
    ensures Exited(ws, acts, k, m, i, ws[k].exited[i])
  {
    hide Inv, Enabled, After, Boot, LastExit;
    if k == 0 {
      NoneExited(n, init);
    } else {
      var w, q, a := ws[k - 1], acts[k - 1].p, acts[k - 1].step;
      Holds(n, init, ws, acts, k - 1);
      Records1(w, q, a);
      if i in w.exited && ws[k].exited[i] == w.exited[i] {
        m := StatusIsArgument(n, init, ws, acts, k - 1, i);
      } else {
        ExitCall(n, init, ws, acts, k - 1, q);
        m := LastExit(acts, k - 1, q);
      }
    }
  }

  lemma NoneExited(n: nat, init: nat)
    requires init < n
    ensures Boot(n, init).exited == map[]
  {
  }

  /** A step records at most the exit of the process that takes it, with its own status. */
  lemma Records1(w: World, q: nat, a: Step)
    requires Inv(w) && Enabled(w, q, a)
    ensures var v := After(w, q, a);
            q < w.n && (v.exited == w.exited || (Exiting(w.pc[q]) && v.exited == w.exited[w.pid[q] := w.pc[q].x]))
  {
    hide Inv, Wake;
  }

  // ----- fork -----

  /** The last fork that made entry q before step k; -1 for none. */
  ghost function LastFork(acts: seq<Act>, k: nat, q: nat): (m: int)
    requires k <= |acts|
    ensures -1 <= m < k && (m >= 0 ==> acts[m].step == Fork(q))
  {
    if k == 0 then -1 else if acts[k - 1].step == Fork(q) then k - 1 else LastFork(acts, k - 1, q)
  }

  /** The parent of entry c is the process that forked it, or init after that process called exit. */
  ghost predicate ChildFine(ws: seq<World>, acts: seq<Act>, k: nat, c: nat)
    requires k <= |acts| < |ws| && Sized(ws[k]) && c < ws[k].n
  {
    var w, m := ws[k], LastFork(acts, k, c);
    c != w.init && !w.status[c].Unused? ==>
      && m >= 0 && c < |ws[m + 1].pid| && ws[m + 1].pid[c] == w.pid[c]
      && acts[m].p < w.n && acts[m].p < |ws[m].pid| && ByFork(ws, acts, k, c, m)
  }

  ghost predicate ByFork(ws: seq<World>, acts: seq<Act>, k: nat, c: nat, m: nat)
    requires k <= |acts| < |ws| && Sized(ws[k]) && c < ws[k].n && m < k && acts[m].p < ws[k].n
             && acts[m].p < |ws[m].pid|
  {
    var w, f := ws[k], acts[m].p;
    || (w.parent[c] == f && w.pid[f] == ws[m].pid[f])
    || (w.parent[c] == w.init && exists e: nat, x :: Exited(ws, acts, k, e, ws[m].pid[f], x))
  }

  /** Over a step a process keeps pid and parent, unless fork made it or its parent's exit gives it
      to init; its parent keeps its pid. */
  lemma ChildMoves(w: World, q: nat, a: Step, c: nat)
    requires Inv(w) && Enabled(w, q, a) && c < w.n
    ensures var v := After(w, q, a);
            && q < w.n && Sized(v) && v.n == w.n && v.init == w.init
            && (a == Fork(c) ==> q != c && v.parent[c] == q && v.pid[q] == w.pid[q])
            && (a != Fork(c) && !v.status[c].Unused? ==>
                  && !w.status[c].Unused? && v.pid[c] == w.pid[c]
                  && (v.parent[c] == w.parent[c]
                      || (Exiting(w.pc[q]) && w.parent[c] == q && q != w.init && v.parent[c] == w.init))
                  && (0 <= w.parent[c] ==> w.parent[c] < w.n && v.pid[w.parent[c]] == w.pid[w.parent[c]]))
  {
    assert Shape(w, c) && Shape(w, q) && Family(w, c);
    hide Inv, Locks, Pids, Records, Protocol, Book;
    if a.Go? {
      assert w.pc[q].Look? ==> Shape(w, q);
      ChildGoes(w, q, c);
    }
  }

  lemma ChildGoes(w: World, q: nat, c: nat)
    requires Sized(w) && c < w.n && q < w.n && Enabled(w, q, Go) && Shape(w, c) && Shape(w, q) && Family(w, c)
    ensures var v := Advance(w, q);
            && Sized(v) && v.n == w.n && v.init == w.init
            && (!v.status[c].Unused? ==>
                  && !w.status[c].Unused? && v.pid[c] == w.pid[c]
                  && (v.parent[c] == w.parent[c]
                      || (Exiting(w.pc[q]) && w.parent[c] == q && q != w.init && v.parent[c] == w.init))
                  && (0 <= w.parent[c] ==> w.parent[c] < w.n && v.pid[w.parent[c]] == w.pid[w.parent[c]]))
  {
    hide Advance, Shape;
    if w.pc[q].Look? && w.status[w.pc[q].np].Zombie? {
      GoReaps(w, q);
      ReapSame(w, q, w.pc[q].np, c);
    } else if w.pc[q].Exit5? {
      GoGives(w, q, c);
    } else {
      GoPlain(w, q);
      ParentThere(w, c);
    }
  }

  lemma GoReaps(w: World, q: nat)
    requires Sized(w) && q < w.n && Enabled(w, q, Go) && w.pc[q].Look? && w.status[w.pc[q].np].Zombie?
    ensures Advance(w, q) == Reaped(w, q, w.pc[q].np)
  {
  }

  lemma ParentThere(w: World, c: nat)
    requires Sized(w) && c < w.n && Shape(w, c)
    ensures w.parent[c] < w.n
  {
  }

  lemma GoGives(w: World, q: nat, c: nat)
    requires Sized(w) && c < w.n && q < w.n && Enabled(w, q, Go) && Shape(w, c) && Shape(w, q) && w.pc[q].Exit5?
    ensures var v := Advance(w, q);
            && Sized(v) && v.n == w.n && v.init == w.init && v.pid == w.pid && v.status == w.status && w.parent[c] < w.n
            && (v.parent[c] == w.parent[c] || (w.parent[c] == q && q != w.init && v.parent[c] == w.init))
  {
  }

  /** The other steps touch no pid and no parent. */
  lemma GoPlain(w: World, q: nat)
    requires Sized(w) && q < w.n && Enabled(w, q, Go) && Shape(w, q) && !w.pc[q].Exit5?
    requires !(w.pc[q].Look? && w.status[w.pc[q].np].Zombie?)
    ensures var v := Advance(w, q);
            && Sized(v) && v.n == w.n && v.init == w.init && v.pid == w.pid && v.parent == w.parent
            && forall c :: 0 <= c < w.n ==> (v.status[c].Unused? <==> w.status[c].Unused?)
  {
    hide Wake, Scanned, Reaped, Died;
    match w.pc[q]
    case Scan(np, kids) => ScanSame(w, q, np, kids);
    case Exit7(x, op) => DiedSame(w, q, x, op);
    case _ =>
  }

  lemma ScanSame(w: World, p: nat, np: nat, kids: bool)
    requires Sized(w) && p < w.n
    ensures var v := Scanned(w, p, np, kids);
            Sized(v) && v.n == w.n && v.init == w.init && v.pid == w.pid && v.parent == w.parent && v.status == w.status
  {
  }

  lemma DiedSame(w: World, p: nat, x: int, op: nat)
    requires Sized(w) && p < w.n && op < w.n && Shape(w, p) && w.pc[p] == Exit7(x, op)
    ensures var v := Died(w, p, x, op);
            && Sized(v) && v.n == w.n && v.init == w.init && v.pid == w.pid && v.parent == w.parent
            && forall c :: 0 <= c < w.n ==> (v.status[c].Unused? <==> w.status[c].Unused?)
  {
  }

  lemma ReapSame(w: World, p: nat, np: nat, c: nat)
    requires Sized(w) && p < w.n && np < w.n && c < w.n && w.status[np].Zombie? && Shape(w, c) && Family(w, c)
    ensures var v := Reaped(w, p, np);
            && Sized(v) && v.n == w.n && v.init == w.init
            && (!v.status[c].Unused? ==>
                  && c != np && !w.status[c].Unused? && v.pid[c] == w.pid[c] && v.parent[c] == w.parent[c]
                  && (0 <= w.parent[c] ==> w.parent[c] < w.n && v.pid[w.parent[c]] == w.pid[w.parent[c]]))
  {
  }

  lemma {:induction false} ForkCall(n: nat, init: nat, ws: seq<World>, acts: seq<Act>, k: nat, c: nat)
    requires IsRun(n, init, ws, acts) && k <= |acts| && c < n
    ensures Inv(ws[k]) && ws[k].n == n && ws[k].init == init && ChildFine(ws, acts, k, c)
  {
    hide Inv, Enabled, After, Boot;
    Holds(n, init, ws, acts, k);
    if k == 0 {
      InitOnly(n, init, c);
    } else {
      ForkCall(n, init, ws, acts, k - 1, c);
      ForkStep(n, init, ws, acts, k - 1, c);
    }
  }

  lemma InitOnly(n: nat, init: nat, c: nat)
    requires init < n && c < n
    ensures Sized(Boot(n, init)) && (c != init ==> Boot(n, init).status[c].Unused?)
  {
  }

  lemma ForkStep(n: nat, init: nat, ws: seq<World>, acts: seq<Act>, k: nat, c: nat)
    requires IsRun(n, init, ws, acts) && k < |acts| && c < n && Inv(ws[k]) && ws[k].n == n && ws[k].init == init
    requires ChildFine(ws, acts, k, c)
    ensures Sized(ws[k + 1]) && ws[k + 1].n == n && ChildFine(ws, acts, k + 1, c)
  {
    hide Inv, Enabled, After, Boot, Exited;
    var w, v, q, a := ws[k], ws[k + 1], acts[k].p, acts[k].step;
    SizedInv(w);
    ChildMoves(w, q, a, c);
    if a != Fork(c) && c != init && !v.status[c].Unused? {
      var m := LastFork(acts, k, c);
      assert LastFork(acts, k + 1, c) == m;
      var f := acts[m].p;
      if w.parent[c] == f && w.pid[f] == ws[m].pid[f] {
        if v.parent[c] != f {
          ExitCall(n, init, ws, acts, k, q);
          var e := LastExit(acts, k, q);
          ExitedLater(ws, acts, k, e, w.pid[q], w.pc[q].x);
          assert Exited(ws, acts, k + 1, e, ws[m].pid[f], w.pc[q].x);
        }
      } else {
        var e: nat, x :| Exited(ws, acts, k, e, ws[m].pid[f], x);
        ExitedLater(ws, acts, k, e, ws[m].pid[f], x);
        assert Exited(ws, acts, k + 1, e, ws[m].pid[f], x);
      }
    }
  }

  lemma ExitedLater(ws: seq<World>, acts: seq<Act>, k: nat, m: nat, pid: nat, x: int)
    requires k < |acts| < |ws| && Exited(ws, acts, k, m, pid, x)
    ensures Exited(ws, acts, k + 1, m, pid, x)
  {
  }

  // ----- the theorem -----

  /** In every run, what wait hands over is a process that its caller forked, or that init was given
      after its parent called exit, and the status is the argument of that process's own exit
      call. */
  lemma WaitGivesExit(n: nat, init: nat, ws: seq<World>, acts: seq<Act>, k: nat) returns (m: nat, e: nat, x: int)
    requires IsRun(n, init, ws, acts) && k < |acts| && acts[k].step.Go? && acts[k].p < |ws[k].pc|
    requires ws[k].pc[acts[k].p].Look? && ws[k].pc[acts[k].p].np < |ws[k].status|
    requires ws[k].status[ws[k].pc[acts[k].p].np].Zombie?
    ensures var p := acts[k].p;
            var c := ws[k].pc[p].np;
            && c < |ws[k].pid| && m < k && acts[m].step == Fork(c) && (acts[m].p == p || p == init)
            && Exited(ws, acts, k, e, ws[k].pid[c], x)
            && ws[k + 1].reaped == ws[k].reaped[ws[k].pid[c] := x] && ws[k].pid[c] !in ws[k].reaped
  {
    hide Inv, Enabled, Boot, After, LastFork, Exited;
    var p := acts[k].p;
    var c := ws[k].pc[p].np;
    Holds(n, init, ws, acts, k);
    ReapsChild(ws[k], p);
    ForkCall(n, init, ws, acts, k, c);
    m := LastFork(acts, k, c);
    e := StatusIsArgument(n, init, ws, acts, k, ws[k].pid[c]);
    x := ws[k].exited[ws[k].pid[c]];
  }

  lemma ReapsChild(w: World, p: nat)
    requires Inv(w) && Enabled(w, p, Go) && w.pc[p].Look? && w.status[w.pc[p].np].Zombie?
    ensures var c := w.pc[p].np;
            && c < w.n && c != w.init && w.parent[c] == p && w.pid[c] in w.exited && w.pid[c] !in w.reaped
            && After(w, p, Go).reaped == w.reaped[w.pid[c] := w.exited[w.pid[c]]]
  {
    assert Shape(w, p) && Pids(w, w.pc[p].np) && Shape(w, w.pc[p].np);
  }

  // ----- who sleeps in wait -----

  /** In wait, and a child has been seen. */
  predicate SawChild(c: Pc) { c.Asleep? || c.Woken? || ((c.Scan? || c.Look?) && c.kids) }

  ghost predicate HasChild(w: World, q: nat)
    requires Sized(w)
  {
    exists c :: 0 <= c < w.n && w.parent[c] == q
  }

  ghost predicate Expects(w: World, q: nat)
    requires Sized(w) && q < w.n
  {
    SawChild(w.pc[q]) ==> HasChild(w, q)
  }

  /** A step of the process itself. */
  lemma OwnExpects(w: World, q: nat)
    requires Sized(w) && q < w.n && Enabled(w, q, Go) && Shape(w, q) && Expects(w, q)
    ensures Sized(Advance(w, q)) && Advance(w, q).n == w.n && Expects(Advance(w, q), q)
  {
    hide Shape, Expects, Advance;
    if Leaving(w.pc[q]) {
      LeavesOff(w, q);
    } else if w.pc[q].Look? {
      LooksAt(w, q);
    } else {
      WaitsOn(w, q);
    }
  }

  lemma LeavesOff(w: World, q: nat)
    requires Sized(w) && q < w.n && Enabled(w, q, Go) && Leaving(w.pc[q])
    ensures Sized(Advance(w, q)) && Advance(w, q).n == w.n && Expects(Advance(w, q), q)
  {
    hide HasChild, Scanned, Reaped, Died, Wake;
    if w.pc[q].Exit7? { DiedAlone(w, q, w.pc[q].x, w.pc[q].op); }
    assert !SawChild(Advance(w, q).pc[q]);
  }

  lemma DiedAlone(w: World, q: nat, x: int, op: nat)
    requires Sized(w) && q < w.n && op < w.n
    ensures var v := Died(w, q, x, op); Sized(v) && v.n == w.n && v.pc[q].Exit8? && v.pid == w.pid
  {
  }

  lemma WaitsOn(w: World, q: nat)
    requires Sized(w) && q < w.n && Enabled(w, q, Go) && !Leaving(w.pc[q]) && !w.pc[q].Look? && Expects(w, q)
    ensures Sized(Advance(w, q)) && Advance(w, q).n == w.n && Expects(Advance(w, q), q)
  {
    hide Died, Reaped, Wake;
    var v := Advance(w, q);
    assert v.parent == w.parent && v.n == w.n && (SawChild(v.pc[q]) ==> SawChild(w.pc[q]));
  }

  lemma LooksAt(w: World, q: nat)
    requires Sized(w) && q < w.n && Enabled(w, q, Go) && Shape(w, q) && w.pc[q].Look?
    ensures Sized(Advance(w, q)) && Advance(w, q).n == w.n && Expects(Advance(w, q), q)
  {
    var np := w.pc[q].np;
    if !w.status[np].Zombie? { assert Advance(w, q).parent[np] == q; }
  }

  /** A step of another process takes no child away, and at most wakes the sleeper. */
  lemma OtherExpects(w: World, p: nat, q: nat)
    requires Sized(w) && q < w.n && p < w.n && p != q && Enabled(w, p, Go) && Shape(w, p) && Expects(w, q)
    ensures var v := Advance(w, p); Sized(v) && v.n == w.n && Expects(v, q)
  {
    hide Shape;
    OtherKeeps(w, p, q);
    var v := Advance(w, p);
    if SawChild(v.pc[q]) {
      var c :| 0 <= c < w.n && w.parent[c] == q;
      assert v.parent[c] == q;
    }
  }

  lemma OtherKeeps(w: World, p: nat, q: nat)
    requires Sized(w) && q < w.n && p < w.n && p != q && Enabled(w, p, Go) && Shape(w, p)
    ensures var v := Advance(w, p);
            && Sized(v) && v.n == w.n && (SawChild(v.pc[q]) ==> SawChild(w.pc[q]))
            && forall c :: 0 <= c < w.n && w.parent[c] == q ==> v.parent[c] == q
  {
    hide Advance;
    if Leaving(w.pc[p]) { ExitOther(w, p, q); } else { WaitOther(w, p, q); }
  }

  lemma ExitOther(w: World, p: nat, q: nat)
    requires Sized(w) && q < w.n && p < w.n && p != q && Enabled(w, p, Go) && Shape(w, p) && Leaving(w.pc[p])
    ensures var v := Advance(w, p);
            && Sized(v) && v.n == w.n && (SawChild(v.pc[q]) ==> SawChild(w.pc[q]))
            && forall c :: 0 <= c < w.n && w.parent[c] == q ==> v.parent[c] == q
  {
    hide Scanned, Died, Wake, Reaped;
    if w.pc[p].Exit7? { DiedOther(w, p, w.pc[p].x, w.pc[p].op, q); }
  }

  lemma WaitOther(w: World, p: nat, q: nat)
    requires Sized(w) && q < w.n && p < w.n && p != q && Enabled(w, p, Go) && Shape(w, p) && !Leaving(w.pc[p])
    ensures var v := Advance(w, p);
            && Sized(v) && v.n == w.n && (SawChild(v.pc[q]) ==> SawChild(w.pc[q]))
            && forall c :: 0 <= c < w.n && w.parent[c] == q ==> v.parent[c] == q
  {
    hide Scanned, Died, Wake, Reaped;
    match w.pc[p]
    case Scan(np, kids) => ScanOther(w, p, np, kids, q);
    case Look(np, kids) => ReapOther(w, p, np, q);
    case _ =>
  }

  lemma ReapOther(w: World, p: nat, np: nat, q: nat)
    requires Sized(w) && p < w.n && np < w.n && q < w.n && p != q && w.parent[np] == p
    ensures var v := Reaped(w, p, np);
            && Sized(v) && v.n == w.n && (SawChild(v.pc[q]) ==> SawChild(w.pc[q]))
            && forall c :: 0 <= c < w.n && w.parent[c] == q ==> v.parent[c] == q
  {
  }

  lemma ScanOther(w: World, p: nat, np: nat, kids: bool, q: nat)
    requires Sized(w) && p < w.n && q < w.n && p != q
    ensures var v := Scanned(w, p, np, kids);
            Sized(v) && v.n == w.n && v.parent == w.parent && v.pc[q] == w.pc[q] && v.pid == w.pid
  {
  }

  lemma DiedOther(w: World, p: nat, x: int, op: nat, q: nat)
    requires Sized(w) && p < w.n && op < w.n && q < w.n && p != q
    ensures var v := Died(w, p, x, op);
            Sized(v) && v.n == w.n && v.parent == w.parent && v.pc[q] == w.pc[q] && v.pid == w.pid
  {
  }

  lemma StepExpects(w: World, p: nat, a: Step, q: nat)
    requires Inv(w) && Enabled(w, p, a) && q < w.n && Expects(w, q)
    ensures Sized(After(w, p, a)) && After(w, p, a).n == w.n && Expects(After(w, p, a), q)
  {
    assert Shape(w, p) && forall c :: 0 <= c < w.n ==> Shape(w, c);
    hide Inv, Locks, Pids, Records, Protocol, Book, Family, Advance, HasChild;
    if a.Go? {
      if p == q { OwnExpects(w, q); } else { OtherExpects(w, p, q); }
    } else {
      PlainExpects(w, p, a, q);
    }
  }

  lemma PlainExpects(w: World, p: nat, a: Step, q: nat)
    requires Sized(w) && Enabled(w, p, a) && !a.Go? && q < w.n && Expects(w, q)
    requires forall c :: 0 <= c < w.n ==> Shape(w, c)
    ensures Sized(After(w, p, a)) && After(w, p, a).n == w.n && Expects(After(w, p, a), q)
  {
    var v := After(w, p, a);
    assert a.Fork? ==> Shape(w, a.np);
    if SawChild(v.pc[q]) {
      var c :| 0 <= c < w.n && w.parent[c] == q;
      assert v.parent[c] == q;
    }
  }

  /** In every run, whoever sleeps in wait has a child to wait for. */
  lemma {:induction false} SleeperHasChild(n: nat, init: nat, ws: seq<World>, acts: seq<Act>, k: nat, q: nat)
    requires IsRun(n, init, ws, acts) && k <= |acts| && q < n
    ensures Sized(ws[k]) && ws[k].n == n
    ensures SawChild(ws[k].pc[q]) ==> exists c :: 0 <= c < n && ws[k].parent[c] == q
  {
    hide Inv, Enabled, After, Boot;
    Holds(n, init, ws, acts, k);
    SizedInv(ws[k]);
    if k == 0 {
      NoSleeper(n, init, q);
    } else {
      SleeperHasChild(n, init, ws, acts, k - 1, q);
      Holds(n, init, ws, acts, k - 1);
      StepExpects(ws[k - 1], acts[k - 1].p, acts[k - 1].step, q);
    }
  }

  lemma NoSleeper(n: nat, init: nat, q: nat)
    requires init < n && q < n
    ensures Sized(Boot(n, init)) && !SawChild(Boot(n, init).pc[q])
  {
  }
}
