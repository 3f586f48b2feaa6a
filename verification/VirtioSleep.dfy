/** Who sleeps in virtio_disk_rw, and who wakes them (kernel/virtio_disk.c): the ring of
    VirtioRing with its callers. */
module VirtioSleep {
  import opened V = VirtioRing

  /** `asleep` sleep on &disk.free[0] and `waiting` on their buffers; `mine` has the chain of
      each process whose request is in flight. */
  datatype State = State(d: V.Disk, asleep: set<nat>, mine: map<nat, nat>, waiting: set<nat>)

  datatype Act =
    | Try(p: nat, b: nat, h: nat, d1: nat, d2: nat)  // alloc3_desc, and the request if it succeeds
    | Wait(p: nat)                                   // b->disk is 1: sleep(b)
    | Device(a: V.Step)                              // Take or Complete
    | Handle                                         // a turn of virtio_disk_intr
    | Return(p: nat)                                 // b->disk is 0: free_chain

  /** Whether alloc3_desc succeeds. */
  predicate ThreeFree(d: V.Disk) {
    exists i, j, k :: 0 <= i < j < k < |d.free| && d.free[i] && d.free[j] && d.free[k]
  }

  predicate SomeFree(d: V.Disk) { exists i :: 0 <= i < |d.free| && d.free[i] }

  ghost predicate Can(x: State, a: Act) {
    match a
    case Try(p, b, h, d1, d2) =>
      && p !in x.mine && p !in x.asleep
      && if ThreeFree(x.d) then Enabled(x.d, Submit(b, h, d1, d2)) else true
    case Wait(p) => p in x.mine && x.mine[p] in x.d.reqs && x.d.reqs[x.mine[p]].buf in x.d.busy
    case Device(s) => (s.Take? || s.Complete?) && Enabled(x.d, s)
    case Handle => Enabled(x.d, Intr)
    case Return(p) => p in x.mine && p !in x.waiting && Enabled(x.d, Finish(x.mine[p]))
  }

  /** The processes waiting for the buffer of the completion the handler finds. */
  ghost function Woken(x: State): (ps: set<nat>)
    requires Sized(x.d)
  {
    set p | p in x.waiting && p in x.mine && x.mine[p] in x.d.reqs && x.d.reqs[x.mine[p]].buf == Found(x.d)
  }

  /** free_desc wakes everyone who wants descriptors, also when alloc3_desc gives back the one
      or two it got. */
  ghost function Next(x: State, a: Act): (y: State)
    requires Can(x, a)
  {
    match a
    case Try(p, b, h, d1, d2) =>
      if ThreeFree(x.d) then x.(d := After(x.d, Submit(b, h, d1, d2)), mine := x.mine[p := h])
      else x.(asleep := (if SomeFree(x.d) then {} else x.asleep) + {p})
    case Wait(p) => x.(waiting := x.waiting + {p})
    case Device(s) => x.(d := After(x.d, s))
    case Handle => x.(d := After(x.d, Intr), waiting := x.waiting - Woken(x))
    case Return(p) => x.(d := After(x.d, Finish(x.mine[p])), asleep := {}, mine := x.mine - {p})
  }

  /** Each request in flight has the process that made it. */
  ghost predicate Mine(x: State) {
    && (forall p :: p in x.mine ==> x.mine[p] in x.d.reqs)
    && (forall p, q :: p in x.mine && q in x.mine && p != q ==> x.mine[p] != x.mine[q])
    && (forall h :: h in x.d.reqs ==> exists p :: p in x.mine && x.mine[p] == h)
  }

  /** Sleepers have something to wait for. */
  ghost predicate Sleep(x: State) {
    && (x.asleep != {} ==> !ThreeFree(x.d))
    && (forall p :: p in x.waiting ==> p in x.mine && x.mine[p] in x.d.reqs && x.d.reqs[x.mine[p]].buf in x.d.busy)
  }

  ghost predicate Stable(x: State)
    ensures Stable(x) ==> V.Inv(x.d)
  {
    V.Inv(x.d) && Mine(x) && Sleep(x)
  }

  lemma NewChain(d: V.Disk, b: nat, h: nat, d1: nat, d2: nat)
    requires V.Inv(d) && Enabled(d, Submit(b, h, d1, d2))
    ensures h !in d.reqs
  {
    if h in d.reqs { FreesChain(d, h); }
  }

  lemma TryStable(x: State, a: Act)
    requires Stable(x) && Can(x, a) && a.Try?
    ensures Stable(Next(x, a))
  {
    hide V.Inv;
    if ThreeFree(x.d) {
      var y := Next(x, a);
      NewChain(x.d, a.b, a.h, a.d1, a.d2);
      StepKeeps(x.d, Submit(a.b, a.h, a.d1, a.d2));
      forall h | h in y.d.reqs ensures exists p :: p in y.mine && y.mine[p] == h {
        if h == a.h { assert y.mine[a.p] == h; } else {
          var p :| p in x.mine && x.mine[p] == h;
          assert p in y.mine && y.mine[p] == h;
        }
      }
    }
  }

  lemma DeviceStable(x: State, a: Act)
    requires Stable(x) && Can(x, a) && a.Device?
    ensures Stable(Next(x, a))
  {
    hide V.Inv;
    StepKeeps(x.d, a.a);
    SamePhases(x.d, a.a);
  }

  /** Device and handler touch no descriptor, and of a request only its phase. */
  lemma SamePhases(d: V.Disk, a: V.Step)
    requires Enabled(d, a) && (a.Take? || a.Complete? || a.Intr?)
    ensures After(d, a).free == d.free && After(d, a).reqs.Keys == d.reqs.Keys
    ensures forall h :: h in d.reqs ==> After(d, a).reqs[h].buf == d.reqs[h].buf
    ensures !a.Intr? ==> After(d, a).busy == d.busy
  {
  }

  lemma HandleStable(x: State)
    requires Stable(x) && Can(x, Handle)
    ensures Stable(Next(x, Handle))
  {
    hide V.Inv;
    StepKeeps(x.d, Intr);
    SamePhases(x.d, Intr);
    IntrFinds(x.d);
  }

  lemma ReturnStable(x: State, p: nat)
    requires Stable(x) && Can(x, Return(p))
    ensures Stable(Next(x, Return(p)))
  {
    hide V.Inv, Freed;
    var y := Next(x, Return(p));
    StepKeeps(x.d, Finish(x.mine[p]));
    forall h | h in y.d.reqs ensures exists q :: q in y.mine && y.mine[q] == h {
      var q :| q in x.mine && x.mine[q] == h;
      assert q in y.mine && y.mine[q] == h;
    }
  }

  lemma StepStable(x: State, a: Act)
    requires Stable(x) && Can(x, a)
    ensures Stable(Next(x, a))
  {
    hide V.Inv;
    match a
    case Try(_, _, _, _, _) => TryStable(x, a);
    case Wait(_) =>
    case Device(_) => DeviceStable(x, a);
    case Handle => HandleStable(x);
    case Return(p) => ReturnStable(x, p);
  }

  ghost predicate IsRun(xs: seq<State>, acts: seq<Act>)
    ensures IsRun(xs, acts) ==> |xs| == |acts| + 1
  {
    && |xs| == |acts| + 1 && xs[0] == State(Start(), {}, map[], {})
    && forall k :: 0 <= k < |acts| ==> Can(xs[k], acts[k]) && xs[k + 1] == Next(xs[k], acts[k])
  }

  lemma {:induction false} RunStable(xs: seq<State>, acts: seq<Act>, k: nat)
    requires IsRun(xs, acts) && k <= |acts|
    ensures Stable(xs[k])
  {
    hide Stable, Can, Next;
    if k == 0 {
      BootStable();
    } else {
      RunStable(xs, acts, k - 1);
      StepStable(xs[k - 1], acts[k - 1]);
    }
  }

  lemma BootStable()
    ensures Stable(State(Start(), {}, map[], {}))
  {
    StartInv();
  }

  /** In every run no wakeup is lost.  While a process sleeps for descriptors, fewer than three
      are free, and some process has a request in flight, whose end wakes all sleepers.  A
      process that sleeps for its buffer has a request the handler has not seen yet. */
  lemma NoneStranded(xs: seq<State>, acts: seq<Act>, k: nat)
    requires IsRun(xs, acts) && k <= |acts|
    ensures xs[k].asleep != {} ==> !ThreeFree(xs[k].d) && exists p :: p in xs[k].mine
    ensures forall p :: p in xs[k].waiting ==>
              p in xs[k].mine && xs[k].mine[p] in xs[k].d.reqs && !xs[k].d.reqs[xs[k].mine[p]].phase.Seen?
  {
    RunStable(xs, acts, k);
    var x := xs[k];
    SomeRequest(x.d);
    assert x.asleep != {} ==> exists h :: h in x.d.reqs;
    forall p | p in x.waiting ensures !x.d.reqs[x.mine[p]].phase.Seen? { ChainFacts(x.d, x.mine[p]); }
  }

  /** With nothing in flight every descriptor is free. */
  lemma SomeRequest(d: V.Disk)
    requires V.Inv(d)
    ensures d.reqs == map[] ==> ThreeFree(d)
  {
    assert Owned(d, 0) && Owned(d, 1) && Owned(d, 2);
    assert d.reqs == map[] ==> d.free[0] && d.free[1] && d.free[2];
  }
}
