/** A run in which a reader stops a commit (kernel/log.c, kernel/bio.c): three operations log
    29 blocks, the commit writes its first log block, a reader takes the last buffer, and the
    commit's next bread finds none. */
module JournalStuck {
  import opened Machine
  import opened Param
  import opened Blocks
  import opened LogDisk
  import opened BufferCache
  import opened C = CacheRuns
  import opened J = Journal
  import opened R = JournalRuns
  import opened Counting
  import S = LogOps
  import Log

  const LOG := Layout(2, 31)
  const FIRST := 40              // the first home block logged
  const OTHER := 90              // the block the reader reads
  const LAST := NBUF - 1         // how many blocks are logged

  // ----- boot -----

  lemma EmptyTidy(d: Disk)
    ensures Log.Tidy(Empty(d), map[], {})
  {
    var c := Empty(d);
    forall i: nat | i < NBUF ensures i in c.order { assert c.order[NBUF - 1 - i] == i; }
  }

  lemma Boot() returns (j: J.J)
    ensures Booted(LOG, j) && |j.c.disk| == 100
  {
    var d := seq(100, i => ZERO);
    EmptyTidy(d);
    j := J(Empty(d), S.Boot, map[], Rest, [], [], d, [], d);
  }

  // ----- runs -----

  ghost predicate Reaches(j: J.J) {
    exists js: seq<J.J>, acts: seq<Act> :: R.IsRun(LOG, js, acts) && js[|acts|] == j
  }

  lemma Reach(j: J.J, a: Act)
    requires Reaches(j) && J.Enabled(LOG, j, a)
    ensures Reaches(J.After(LOG, j, a)) && J.Inv(LOG, J.After(LOG, j, a))
  {
    hide Booted, J.Enabled, J.After, J.Inv;
    var js: seq<J.J>, acts: seq<Act> :| R.IsRun(LOG, js, acts) && js[|acts|] == j;
    var js', acts' := js + [J.After(LOG, j, a)], acts + [a];
    assert R.IsRun(LOG, js', acts');
    assert js'[|acts'|] == J.After(LOG, j, a);
    Reachable(LOG, js', acts', |acts'|);
  }

  /** Nobody holds a buffer, and only the committer waits for one. */
  ghost predicate Quiet(j: J.J) {
    j.hold == map[] && forall b: nat :: Awaiting(j.c, b) == if b in Await(LOG, j) then 1 else 0
  }

  /** Three operations have logged the first k blocks, ten each. */
  ghost predicate Logged(j: J.J, k: nat)
    ensures Logged(j, k) ==> j.pc.Rest? && |j.c.disk| == 100 && |j.s.lh| == k
  {
    && j.pc.Rest? && |j.c.disk| == 100 && |j.s.lh| == k && (forall i :: 0 <= i < k ==> j.s.lh[i] == FIRST + i)
    && !j.s.committing && (forall p: nat :: p in j.s.active <==> p < 3)
    && (forall p, b :: p in j.s.active && b in j.s.active[p].wrote ==> b < FIRST + k && b / 10 == p + 4)
  }

  lemma MayLog(j: J.J, k: nat, p: nat, b: nat)
    requires Logged(j, k) && k < LOGSIZE && p == k / 10 && b == FIRST + k
    ensures S.Enabled(j.s, S.Write(p, b)) && b !in j.s.lh
  {
    S.DecadeSize(j.s.active[p].wrote + {b}, p + 4, 10);
  }

  /** While only pinned blocks are in use and they are fewer than the buffers, bget succeeds. */
  lemma FindsFree(j: J.J, b: nat)
    requires J.Inv(LOG, j) && Quiet(j) && Mine(LOG, j) == {} && Await(LOG, j) == {} && |j.s.lh| < NBUF
    requires forall x :: x in Pinned(j) ==> x in j.s.lh
    ensures !Panics(j.c, b)
  {
    hide J.Inv, RunInv, Busy, Pinned, Mine, Await, Awaiting;
    forall x | x in Busy(j.c) ensures x in Log.PinAll(j.s.lh).Keys { BusyIs(LOG, j, x); }
    SubsetCount(Busy(j.c), Log.PinAll(j.s.lh).Keys);
    HeaderSize(j.s.lh);
    RunOf(j);
    FreeIffNotAllBusy(j.c);
  }

  lemma RunOf(j: J.J)
    requires J.Inv(LOG, j)
    ensures RunInv(j.c)
  {
  }

  lemma {:induction false} HeaderSize(bs: seq<nat>)
    ensures |Log.PinAll(bs).Keys| <= |bs|
  {
    if |bs| > 0 {
      var m := |bs| - 1;
      HeaderSize(bs[..m]);
      assert Log.PinAll(bs).Keys == Log.PinAll(bs[..m]).Keys + {bs[m]};
    }
  }

  // ----- one block is read -----

  /** bread of block b by process p, when nobody is in the cache. */
  lemma ReadOne(j: J.J, p: nat, b: nat) returns (r: J.J)
    requires Reaches(j) && J.Inv(LOG, j) && Quiet(j) && Mine(LOG, j) == {} && Await(LOG, j) == {} && |j.s.lh| < NBUF
    requires (forall x :: x in Pinned(j) ==> x in j.s.lh) && b < |j.c.disk| && !LOG.InLog(b)
    ensures Reaches(r) && J.Inv(LOG, r) && r == j.(c := r.c, hold := map[b := Held(p, false, false)])
    ensures r.c.disk == j.c.disk && forall x: nat :: Awaiting(r.c, x) == 0
  {
    hide J.Inv, RunInv, Pinned, Mine, Await, Panics, C.Can, C.Next, Reaches, Map, PinsOf;
    RunOf(j);
    FindsFree(j, b);
    var i := Found(j.c, b);
    var a := Bget(i, b);
    Allowed(LOG, j, a);
    Does(j.c, C.Get(i, b));
    Reach(j, a);
    var m := J.After(LOG, j, a);
    forall x: nat ensures Awaiting(m.c, x) == if x == b then 1 else 0 { assert DidAt(j.c, C.Get(i, b), m.c, x); }
    SamePlace(LOG, j, m);
    NotLocked(m, b);
    CanTake(m.c, b);
    Allowed(LOG, m, Acquire(p, b));
    var op := C.Take(BufferOf(m.c, b), b);
    Does(m.c, op);
    Reach(m, Acquire(p, b));
    r := J.After(LOG, m, Acquire(p, b));
    forall x: nat ensures Awaiting(r.c, x) == 0 { assert DidAt(m.c, op, r.c, x); }
  }

  lemma NotLocked(j: J.J, b: nat)
    requires J.Inv(LOG, j) && j.hold == map[] && Mine(LOG, j) == {}
    ensures !IsLocked(j.c, b)
  {
  }

  // ----- filling the log -----

  /** The next block is read, logged and let go of. */
  lemma LogOne(j: J.J, k: nat) returns (r: J.J)
    requires Reaches(j) && J.Inv(LOG, j) && Quiet(j) && Logged(j, k) && k < LAST
    ensures Reaches(r) && J.Inv(LOG, r) && Quiet(r) && Logged(r, k + 1)
  {
    hide J.Inv, Pinned, Reaches, Awaiting, Logged;
    AtRest(LOG, j);
    PinnedAtRest(j);
    var m := ReadOne(j, k / 10, FIRST + k);
    SameLogged(j, m, k);
    var n := WriteOne(m, k);
    r := LetGo(n, k);
    AtRest(LOG, r);
  }

  /** Process k / 10 has block k, and nobody waits. */
  ghost predicate Holding(j: J.J, k: nat) {
    j.hold.Keys == {FIRST + k} && j.hold[FIRST + k].p == k / 10 && !j.hold[FIRST + k].changed
    && forall x: nat :: Awaiting(j.c, x) == 0
  }

  lemma WriteOne(m: J.J, k: nat) returns (n: J.J)
    requires Reaches(m) && J.Inv(LOG, m) && Logged(m, k) && k < LAST && Holding(m, k)
    ensures Reaches(n) && J.Inv(LOG, n) && Logged(n, k + 1) && Holding(n, k)
  {
    hide J.Inv, RunInv, C.Can, C.Next, Reaches, Map, PinsOf, IsLocked, Awaiting, Logged, S.Enabled, S.Step;
    var p, b := k / 10, FIRST + k;
    MayLog(m, k, p, b);
    HeldHere(m, b);
    Allowed(LOG, m, LogWrite(p, b));
    var op := C.PinIt(BufferOf(m.c, b), b);
    Does(m.c, op);
    Reach(m, LogWrite(p, b));
    n := J.After(LOG, m, LogWrite(p, b));
    forall x: nat ensures Awaiting(n.c, x) == 0 { assert DidAt(m.c, op, n.c, x); }
    GrowLogged(m, n, k, p, b);
  }

  lemma LetGo(n: J.J, k: nat) returns (r: J.J)
    requires Reaches(n) && J.Inv(LOG, n) && Logged(n, k + 1) && Holding(n, k)
    ensures Reaches(r) && J.Inv(LOG, r) && Logged(r, k + 1) && r.hold == map[] && forall x: nat :: Awaiting(r.c, x) == 0
  {
    hide J.Inv, RunInv, C.Can, C.Next, Reaches, Map, PinsOf, IsLocked, Awaiting, Logged;
    var p, b := k / 10, FIRST + k;
    HeldHere(n, b);
    Allowed(LOG, n, Drop(p, b));
    var op := C.Done(BufferOf(n.c, b), b);
    Does(n.c, op);
    Reach(n, Drop(p, b));
    r := J.After(LOG, n, Drop(p, b));
    forall x: nat ensures Awaiting(r.c, x) == 0 { assert DidAt(n.c, op, r.c, x); }
    SameLogged(n, r, k + 1);
  }

  lemma HeldHere(j: J.J, b: nat)
    requires J.Inv(LOG, j) && b in j.hold
    ensures RunInv(j.c) && IsLocked(j.c, b) && Holds(j.c, BufferOf(j.c, b), b) && b < |j.c.disk|
    ensures C.Can(j.c, C.PinIt(BufferOf(j.c, b), b)) && C.Can(j.c, C.Done(BufferOf(j.c, b), b))
  {
    CanUse(j.c, b);
  }

  lemma SameLogged(j: J.J, r: J.J, k: nat)
    requires Logged(j, k) && r.pc == j.pc && r.s == j.s && |r.c.disk| == |j.c.disk|
    ensures Logged(r, k)
  {
  }

  lemma GrowLogged(j: J.J, r: J.J, k: nat, p: nat, b: nat)
    requires Logged(j, k) && k < LOGSIZE && p == k / 10 && b == FIRST + k && b !in j.s.lh
    requires S.Enabled(j.s, S.Write(p, b)) && r.s == S.Step(j.s, S.Write(p, b)) && r.pc == j.pc
             && |r.c.disk| == |j.c.disk|
    ensures Logged(r, k + 1)
  {
  }

  lemma BeginAll() returns (j: J.J)
    ensures Reaches(j) && J.Inv(LOG, j) && Quiet(j) && Logged(j, 0)
  {
    hide J.Inv, RunInv, Map, Booted, Reaches;
    j := Boot();
    StartReaches(j);
    QuietAtBoot(j);
    AtRest(LOG, j);
    for p := 0 to 3
      invariant Reaches(j) && J.Inv(LOG, j) && Quiet(j) && j.pc.Rest? && |j.c.disk| == 100
      invariant j.s.outstanding == p && !j.s.committing && j.s.lh == [] && j.s.committer == S.Nobody
      invariant (forall q: nat :: q in j.s.active <==> q < p) && forall q :: q in j.s.active ==>
                j.s.active[q].wrote == {}
    {
      Reach(j, Begin(p));
      j := J.After(LOG, j, Begin(p));
    }
  }

  lemma StartReaches(j: J.J)
    requires Booted(LOG, j)
    ensures Reaches(j) && J.Inv(LOG, j) && j.s == S.Boot && j.pc.Rest?
  {
    hide J.Inv;
    BootedKeeps(LOG, j);
    var js: seq<J.J>, acts: seq<Act> := [j], [];
    assert R.IsRun(LOG, js, acts) && js[|acts|] == j;
  }

  lemma QuietAtBoot(j: J.J)
    requires Booted(LOG, j)
    ensures Quiet(j)
  {
    AtRest(LOG, j);
    forall i: nat | i < NBUF ensures j.c.waiting[i] == 0 { assert Log.BufTidy(j.c, i, map[], {}); }
  }

  lemma {:induction false} FillLog(k: nat) returns (j: J.J)
    requires k <= LAST
    ensures Reaches(j) && J.Inv(LOG, j) && Quiet(j) && Logged(j, k)
  {
    hide Reaches, J.Inv, Quiet, Logged;
    if k == 0 {
      j := BeginAll();
    } else {
      var i := FillLog(k - 1);
      j := LogOne(i, k - 1);
    }
  }

  // ----- the commit -----

  /** The three operations end, and the commit starts. */
  lemma StartCommit() returns (j: J.J)
    ensures Reaches(j) && J.Inv(LOG, j) && Quiet(j) && j.pc == Fill(0, 0) && |j.s.lh| == LAST && j.ws == []
    ensures |j.bs| == LAST && |j.c.disk| == 100 && OTHER !in j.s.lh
  {
    hide J.Inv, RunInv, Map, Reaches, Latest;
    j := FillLog(LAST);
    AtRest(LOG, j);
    Outstanding(j);
    for p := 0 to 3
      invariant Reaches(j) && J.Inv(LOG, j) && Quiet(j) && j.pc.Rest? && |j.s.lh| == LAST && |j.c.disk| == 100
      invariant OTHER !in j.s.lh
      invariant (forall q: nat :: q in j.s.active <==> p <= q < 3) && j.s.outstanding == 3 - p
      invariant p == 3 ==> j.s.committing
    {
      Reach(j, End(p));
      j := J.After(LOG, j, End(p));
    }
    Reach(j, Start);
    j := J.After(LOG, j, Start);
  }

  lemma Outstanding(j: J.J)
    requires J.Inv(LOG, j) && forall q: nat :: q in j.s.active <==> q < 3
    ensures j.s.outstanding == 3
  {
    assert j.s.active.Keys == Below(3);
  }

  /** The committer takes its next step. */
  lemma MoveOn(j: J.J) returns (r: J.J)
    requires Reaches(j) && J.Inv(LOG, j) && Quiet(j) && j.pc.Fill? && |j.s.lh| == LAST && |j.bs| == LAST
    ensures Reaches(r) && J.Inv(LOG, r) && Quiet(r) && r.pc == NextPc(j.pc, LAST) && r.bs == j.bs && r.hold == j.hold
    ensures |r.c.disk| == |j.c.disk| && j.s.lh == j.bs && (r.pc.Fill? ==> r.s.lh == r.bs)
  {
    hide J.Inv, RunInv, Map, Reaches, Mine, Await, CommitOp, C.Next, C.Can, Awaiting, Pinned, NextPc, J.After,
         J.Enabled,
         Did, Writing, Source;
    RunOf(j);
    var i := PickMove(j);
    MoveFields(LOG, j, i);
    MoveAllowed(LOG, j, i);
    Does(j.c, CommitOp(LOG, j, i));
    Reach(j, Move(i));
    r := J.After(LOG, j, Move(i));
    InvParts(LOG, j);
    IsPlaced(LOG, j);
    MoveLocks(LOG, j, r, i);
    MoveUses(LOG, j, i);
    GetsNew(j, i);
    QuietNext(j, r, CommitOp(LOG, j, i));
    ListedNow(j);
    ListedNow(r);
  }

  lemma PickMove(j: J.J) returns (i: nat)
    requires J.Inv(LOG, j) && Quiet(j) && j.pc.Fill? && |j.s.lh| == LAST
    ensures J.Enabled(LOG, j, Move(i))
  {
    hide J.Inv, Await, Wants, Panics, Awaiting, J.Enabled;
    forall b: nat | Wants(LOG, j, b) ensures !Panics(j.c, b) && Awaiting(j.c, b) < NPROC { WantsFree(j, b); }
    i := MovesAt(LOG, j);
  }

  lemma GetsNew(j: J.J, i: nat)
    requires Placed(LOG, j)
    ensures CommitOp(LOG, j, i).Get? ==> Await(LOG, j) == {}
  {
  }

  lemma ListedNow(j: J.J)
    requires J.Inv(LOG, j)
    ensures j.pc.Fill? ==> j.s.lh == j.bs
  {
  }

  lemma QuietNext(j: J.J, r: J.J, op: C.Op)
    requires RunInv(j.c) && Quiet(j) && Did(j.c, op, r.c) && r.hold == j.hold
    requires op.Get? ==> op.b !in Await(LOG, j)
    requires op.Take? ==> op.b in Await(LOG, j)
    requires Await(LOG, r) == if op.Get? then Await(LOG, j) + {op.b}
                              else if op.Take? then Await(LOG, j) - {op.b} else Await(LOG, j)
    ensures Quiet(r) && |r.c.disk| == |j.c.disk|
  {
    hide RunInv, Map, Await, Awaiting, PinsOf, IsLocked;
    forall b: nat ensures Awaiting(r.c, b) == if b in Await(LOG, r) then 1 else 0 { assert DidAt(j.c, op, r.c, b); }
  }

  /** Where the commit of LAST blocks wants a buffer and nobody reads, there is one. */
  lemma WantsFree(j: J.J, b: nat)
    requires J.Inv(LOG, j) && Quiet(j) && j.pc.Fill? && |j.s.lh| == LAST && Wants(LOG, j, b)
    ensures !Panics(j.c, b) && Awaiting(j.c, b) < NPROC
  {
    hide J.Inv, RunInv, Panics, Awaiting, Pinned;
    if LOG.InLog(b) {
      DistinctSize(LOG, j);
      WantsLog(j, b);
      FindsFree(j, b);
    } else {
      HomeIsCached(LOG, j, b);
      assert !Panics(j.c, b) by { Cached(j.c, b); }
    }
  }

  lemma Cached(c: State, b: nat)
    requires b in c.index
    ensures !Panics(c, b)
  {
  }

  lemma WantsLog(j: J.J, b: nat)
    requires J.Inv(LOG, j) && j.pc.Fill? && Wants(LOG, j, b) && LOG.InLog(b)
    ensures j.pc.at == 0 && Mine(LOG, j) == {} && Await(LOG, j) == {}
  {
    hide RunInv, Pins, Locks, Differs, Source;
    IsPlaced(LOG, j);
  }

  /** After one log block is written, a reader takes the last buffer; the commit's next bread
      panics, with one of its writes done. */
  lemma ReaderStopsCommitMidway() returns (js: seq<J.J>, acts: seq<Act>)
    ensures R.IsRun(LOG, js, acts)
    ensures var j := js[|acts|];
            && j.pc == Fill(1, 0) && |j.s.lh| == NBUF - 1 && |j.ws| == 1 && |j.hold| == 1
            && Wants(LOG, j, LogAddr(LOG, 1)) && Panics(j.c, LogAddr(LOG, 1))
  {
    hide J.Inv, Panics;
    var j := StartCommit();
    for at := 0 to 8
      invariant Reaches(j) && J.Inv(LOG, j) && Quiet(j) && |j.s.lh| == LAST && |j.bs| == LAST && |j.c.disk| == 100
      invariant OTHER !in j.s.lh
      invariant j.pc == if at < 8 then Fill(0, at) else Fill(1, 0)
    {
      j := MoveOn(j);
    }
    var r := ReadLast(j);
    Stuck(r);
    js, acts :| R.IsRun(LOG, js, acts) && js[|acts|] == r;
  }

  lemma ReadLast(j: J.J) returns (r: J.J)
    requires Reaches(j) && J.Inv(LOG, j) && Quiet(j) && j.pc == Fill(1, 0) && |j.s.lh| == LAST && |j.c.disk| == 100
    requires OTHER !in j.s.lh
    ensures Reaches(r) && J.Inv(LOG, r) && r.pc == Fill(1, 0) && |r.s.lh| == LAST && |r.hold| == 1
    ensures OTHER in r.hold && OTHER !in r.s.lh
    ensures forall x: nat :: Awaiting(r.c, x) == 0
  {
    hide J.Inv, Reaches, Quiet, Awaiting, Pinned;
    DistinctSize(LOG, j);
    r := ReadOne(j, 7, OTHER);
  }

  lemma Stuck(j: J.J)
    requires J.Inv(LOG, j) && j.pc == Fill(1, 0) && |j.s.lh| == LAST && OTHER in j.hold && OTHER !in j.s.lh
    requires forall x: nat :: Awaiting(j.c, x) == 0
    ensures Panics(j.c, LogAddr(LOG, 1)) && |j.ws| == 1
  {
    hide J.Inv, RunInv, Busy, Pinned, Awaiting;
    RunOf(j);
    FreeIffNotAllBusy(j.c);
    DistinctSize(LOG, j);
    forall x | x in Pinned(j) + {OTHER} ensures x in Busy(j.c) { BusyIs(LOG, j, x); }
    UnionCount(Pinned(j), {OTHER});
    SubsetCount(Pinned(j) + {OTHER}, Busy(j.c));
    BusyIs(LOG, j, LogAddr(LOG, 1));
    LogBlockUnused(j);
  }

  lemma LogBlockUnused(j: J.J)
    requires J.Inv(LOG, j) && j.pc == Fill(1, 0)
    ensures LogAddr(LOG, 1) !in j.s.lh && LogAddr(LOG, 1) !in j.hold && Mine(LOG, j) == {} && |j.ws| == 1
  {
    hide RunInv, Differs, Source, Pins, CommitDisk;
  }
}
