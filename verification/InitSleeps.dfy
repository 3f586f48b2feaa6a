/** init can sleep in wait with a zombie child, as the comment in exit (kernel/proc.c) admits:
    a run of three processes after which nothing can run any more. */
module InitSleeps {
  import opened ExitWait

  ghost predicate Reachable(w: World) { exists moves :: Leads(Boot(3, 0), moves, w) }

  lemma Reach(w: World, p: nat, a: Step, v: World)
    requires Reachable(w) && Enabled(w, p, a) && v == After(w, p, a)
    ensures Reachable(v)
  {
    hide Boot, After, Enabled;
    var moves :| Leads(Boot(3, 0), moves, w);
    LeadsMore(Boot(3, 0), moves, w, p, a);
  }

  lemma LeadsMore(b: World, moves: seq<Act>, w: World, p: nat, a: Step)
    requires Leads(b, moves, w) && Enabled(w, p, a)
    ensures Leads(b, moves + [Act(p, a)], After(w, p, a))
  {
    hide After, Enabled;
    var more := moves + [Act(p, a)];
    var m := more[|more| - 1];
    assert more[..|more| - 1] == moves && m == Act(p, a);
    assert Leads(b, more[..|more| - 1], w) && Enabled(w, m.p, m.step);
  }

  /** Booted. */
  const W0 := World(3, 0, [Run, Pc.Gone, Pc.Gone], [-1, -1, -1], [-1, -1, -1], [Live, Unused, Unused],
          [1, 0, 0], [0, 0, 0], [-1, -1, -1], 2, map[], map[], map[1 := 0])

  lemma Start()
    ensures Reachable(W0)
  {
    assert Boot(3, 0) == W0;
    assert Leads(Boot(3, 0), [], W0);
  }

  /** init forks 1, which forks 2; 2 starts to exit and notes 1 as its parent. */
  const W1 := World(3, 0, [Run, Run, Exit2(7, 1)], [-1, -1, -1], [-1, 0, 1], [Live, Live, Live],
          [1, 2, 3], [0, 0, 0], [-1, -1, -1], 4, map[], map[], map[1 := 0, 2 := 1, 3 := 2])

  lemma PartA()
    ensures Reachable(W1)
  {
    Start();
    hide Reachable;
    var w0 := After(W0, 0, Fork(1));
    Reach(W0, 0, Fork(1), w0);
    var w1 := After(w0, 1, Fork(2));
    Reach(w0, 1, Fork(2), w1);
    var w2 := After(w1, 2, StartExit(7));
    Reach(w1, 2, StartExit(7), w2);
    var w3 := After(w2, 2, Go);
    Reach(w2, 2, Go, w3);
    Reach(w3, 2, Go, W1);
  }

  /** 1 exits: it locks init, its parent, and itself. */
  const W2 := World(3, 0, [Run, Exit4(5, 0, 0), Exit2(7, 1)], [1, 1, -1], [-1, 0, 1], [Live, Live, Live],
          [1, 2, 3], [0, 0, 0], [-1, -1, -1], 4, map[], map[], map[1 := 0, 2 := 1, 3 := 2])

  lemma PartB()
    ensures Reachable(W2)
  {
    PartA();
    hide Reachable;
    var w0 := After(W1, 1, StartExit(5));
    Reach(W1, 1, StartExit(5), w0);
    var w1 := After(w0, 1, Go);
    Reach(w0, 1, Go, w1);
    var w2 := After(w1, 1, Go);
    Reach(w1, 1, Go, w2);
    var w3 := After(w2, 1, Go);
    Reach(w2, 1, Go, w3);
    Reach(w3, 1, Go, W2);
  }

  /** 1 gives 2 to init. */
  const W3 := World(3, 0, [Run, Exit6(5, 0), Exit2(7, 1)], [1, 1, -1], [-1, 0, 0], [Live, Live, Live],
          [1, 2, 3], [0, 0, 0], [-1, -1, -1], 4, map[], map[], map[1 := 0, 2 := 1, 3 := 2])

  lemma PartC()
    ensures Reachable(W3)
  {
    PartB();
    hide Reachable;
    var w0 := After(W2, 1, Go);
    Reach(W2, 1, Go, w0);
    var w1 := After(w0, 1, Go);
    Reach(w0, 1, Go, w1);
    var w2 := After(w1, 1, Go);
    Reach(w1, 1, Go, w2);
    var w3 := After(w2, 1, Go);
    Reach(w2, 1, Go, w3);
    Reach(w3, 1, Go, W3);
  }

  /** 1 is a zombie. */
  const W4 := World(3, 0, [Run, Pc.Gone, Exit2(7, 1)], [-1, -1, -1], [-1, 0, 0], [Live, Zombie, Live],
          [1, 2, 3], [0, 5, 0], [-1, 0, -1], 4, map[2 := 5], map[], map[1 := 0, 2 := 1, 3 := 2])

  lemma PartD()
    ensures Reachable(W4)
  {
    PartC();
    hide Reachable;
    var w0 := After(W3, 1, Go);
    Reach(W3, 1, Go, w0);
    var w1 := After(w0, 1, Go);
    Reach(w0, 1, Go, w1);
    Reach(w1, 1, Sched, W4);
  }

  /** init reaps 1. */
  const W5 := World(3, 0, [Run, Pc.Gone, Exit2(7, 1)], [-1, -1, -1], [-1, -1, 0], [Live, Unused, Live],
          [1, 0, 3], [0, 0, 0], [-1, 0, -1], 4, map[2 := 5], map[2 := 5], map[1 := 0, 3 := 2])

  lemma PartE()
    ensures Reachable(W5)
  {
    PartD();
    hide Reachable;
    var w0 := After(W4, 0, StartWait);
    Reach(W4, 0, StartWait, w0);
    var w1 := After(w0, 0, Go);
    Reach(w0, 0, Go, w1);
    var w2 := After(w1, 0, Go);
    Reach(w1, 0, Go, w2);
    var w3 := After(w2, 0, Go);
    Reach(w2, 0, Go, w3);
    Reach(w3, 0, Go, W5);
  }

  /** init waits again; 2 is not a zombie yet, so init sleeps. */
  const W6 := World(3, 0, [Asleep, Pc.Gone, Exit2(7, 1)], [-1, -1, -1], [-1, -1, 0], [Live, Unused, Live],
          [1, 0, 3], [0, 0, 0], [-1, 0, -1], 4, map[2 := 5], map[2 := 5], map[1 := 0, 3 := 2])

  lemma PartF()
    ensures Reachable(W6)
  {
    PartE();
    hide Reachable;
    var w0 := After(W5, 0, StartWait);
    Reach(W5, 0, StartWait, w0);
    var w1 := After(w0, 0, Go);
    Reach(w0, 0, Go, w1);
    var w2 := After(w1, 0, Go);
    Reach(w1, 0, Go, w2);
    var w3 := After(w2, 0, Go);
    Reach(w2, 0, Go, w3);
    var w4 := After(w3, 0, Go);
    Reach(w3, 0, Go, w4);
    var w5 := After(w4, 0, Go);
    Reach(w4, 0, Go, w5);
    Reach(w5, 0, Go, W6);
  }

  /** 2 goes on, with the lock of entry 1, where nobody is. */
  const W7 := World(3, 0, [Asleep, Pc.Gone, Exit4(7, 1, 3)], [-1, 2, 2], [-1, -1, 0], [Live, Unused, Live],
          [1, 0, 3], [0, 0, 0], [-1, 0, -1], 4, map[2 := 5], map[2 := 5], map[1 := 0, 3 := 2])

  lemma PartG()
    ensures Reachable(W7)
  {
    PartF();
    hide Reachable;
    var w0 := After(W6, 2, Go);
    Reach(W6, 2, Go, w0);
    var w1 := After(w0, 2, Go);
    Reach(w0, 2, Go, w1);
    var w2 := After(w1, 2, Go);
    Reach(w1, 2, Go, w2);
    var w3 := After(w2, 2, Go);
    Reach(w2, 2, Go, w3);
    Reach(w3, 2, Go, W7);
  }

  /** 2 is a zombie; its wakeup went to entry 1. */
  const W8 := World(3, 0, [Asleep, Pc.Gone, Pc.Gone], [-1, -1, -1], [-1, -1, 0], [Live, Unused, Zombie],
          [1, 0, 3], [0, 0, 7], [-1, 0, 1], 4, map[2 := 5, 3 := 7], map[2 := 5], map[1 := 0, 3 := 2])

  lemma PartH()
    ensures Reachable(W8)
  {
    PartG();
    hide Reachable;
    var w0 := After(W7, 2, Go);
    Reach(W7, 2, Go, w0);
    var w1 := After(w0, 2, Go);
    Reach(w0, 2, Go, w1);
    var w2 := After(w1, 2, Go);
    Reach(w1, 2, Go, w2);
    Reach(w2, 2, Sched, W8);
  }

  /** init is asleep, its child is a zombie, and no process can take a step. */
  lemma InitMayMiss()
    ensures Reachable(W8) && W8.pc[0].Asleep? && W8.parent[2] == 0 && W8.status[2].Zombie?
    ensures forall p, a :: !Enabled(W8, p, a)
  {
    PartH();
  }
}
