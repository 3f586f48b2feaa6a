/** What holds in every run of the cache and the log together: the block map is refined, pins
    follow the header, a commit writes what the crash model writes whoever reads meanwhile, and
    a crash at any point loses whole groups of operations only. */
module JournalRuns {
  import opened Param
  import opened Blocks
  import opened LogDisk
  import opened BufferCache
  import opened C = CacheRuns
  import opened J = Journal
  import S = LogOps
  import Log
  import opened Counting

  /** A machine that has booted with an empty log, as recovery leaves it. */
  ghost predicate Booted(L: Layout, j: J.J) {
    && Log.Tidy(j.c, map[], {}) && Loggable(L, j.c.disk) && HeadCount(j.c.disk[L.start]) == 0
    && j.s == S.Boot && j.hold == map[] && j.pc.Rest? && j.durable == j.c.disk
  }

  ghost predicate IsRun(L: Layout, js: seq<J.J>, acts: seq<Act>)
    ensures IsRun(L, js, acts) ==> |js| == |acts| + 1
  {
    && |js| == |acts| + 1 && Booted(L, js[0])
    && forall k :: 0 <= k < |acts| ==> J.Enabled(L, js[k], acts[k]) && js[k + 1] == J.After(L, js[k], acts[k])
  }

  lemma BootedBuffers(c: State, b: nat)
    requires Log.Tidy(c, map[], {})
    ensures RunInv(c) && PinsOf(c, b) == 0 && !IsLocked(c, b) && (b < |c.disk| ==> Map(c)[b] == c.disk[b])
  {
    forall i: nat | i < NBUF ensures !c.buf[i].locked && c.waiting[i] == 0 && c.pins[i] == 0 {
      assert Log.BufTidy(c, i, map[], {});
    }
  }

  lemma BootedKeeps(L: Layout, j: J.J)
    requires Booted(L, j)
    ensures J.Inv(L, j) && Map(j.c) == j.c.disk
  {
    hide Log.Tidy, RunInv, Map, PinsOf, IsLocked, Awaiting, S.Inv, HeadCount, Mine, Await, Pending;
    forall b: nat ensures RunInv(j.c) && PinsOf(j.c, b) == 0 && !IsLocked(j.c, b)
        && (b < |j.c.disk| ==> Map(j.c)[b] == j.c.disk[b]) {
      BootedBuffers(j.c, b);
    }
    BootedBuffers(j.c, 0);
    AtRest(L, j);
    PinnedAtRest(j);
    S.BootInv();
    SameHomeRefl(L, j.c.disk);
  }

  lemma {:induction false} Reachable(L: Layout, js: seq<J.J>, acts: seq<Act>, k: nat)
    requires IsRun(L, js, acts) && k <= |acts|
    ensures J.Inv(L, js[k])
  {
    hide J.Inv, J.Enabled, J.After, Booted;
    if k == 0 {
      BootedKeeps(L, js[0]);
    } else {
      Reachable(L, js, acts, k - 1);
      Keeps(L, js[k - 1], acts[k - 1]);
    }
  }

  // ----- the block map -----

  /** A plain block map under the operations' changes. */
  ghost function Replay(m: Disk, acts: seq<Act>): (r: Disk)
    ensures |r| == |m|
  {
    if acts == [] then m
    else
      var n, a := Replay(m, acts[..|acts| - 1]), acts[|acts| - 1];
      if a.Alter? && a.b < |m| then n[a.b := a.x] else n
  }

  /** In every run the cache and the log together are a plain block map: home blocks change
      only by what operations do to the buffers they hold, and whoever acquires a buffer,
      operation or reader, at any point of a commit, finds the map's contents in it. */
  lemma {:induction false} RunsRefineMap(L: Layout, js: seq<J.J>, acts: seq<Act>, k: nat)
    requires IsRun(L, js, acts) && k <= |acts|
    ensures RunInv(js[k].c) && SameHome(L, Map(js[k].c), Replay(js[0].c.disk, acts[..k]))
    ensures k < |acts| && acts[k].Acquire? ==>
              && acts[k].b < |js[0].c.disk|
              && DataOf(js[k + 1].c, acts[k].b) == Replay(js[0].c.disk, acts[..k])[acts[k].b]
  {
    hide J.Inv, J.After, J.Enabled, Map, RunInv;
    Refined(L, js, acts, k);
    if k < |acts| && acts[k].Acquire? {
      Reachable(L, js, acts, k);
      Acquired(L, js[k], acts[k]);
    }
  }

  lemma {:induction false} Refined(L: Layout, js: seq<J.J>, acts: seq<Act>, k: nat)
    requires IsRun(L, js, acts) && k <= |acts|
    ensures RunInv(js[k].c) && SameHome(L, Map(js[k].c), Replay(js[0].c.disk, acts[..k]))
  {
    hide J.Inv, J.After, J.Enabled, Map, RunInv, SameHome, Replay, Booted;
    var d := js[0].c.disk;
    if k == 0 {
      BootedKeeps(L, js[0]);
      ReplayNone(d, acts[..0]);
      SameHomeRefl(L, d);
    } else {
      var a := acts[k - 1];
      Refined(L, js, acts, k - 1);
      Reachable(L, js, acts, k - 1);
      Keeps(L, js[k - 1], a);
      ReplayStep(d, acts, k);
      var m, r := Map(js[k - 1].c), Replay(d, acts[..k - 1]);
      SameSizes(L, m, r);
      if a.Alter? && a.b < |m| { SameHomeUpdate(L, m, r, a.b, a.x); }
      SameHomeTrans(L, Map(js[k].c), if a.Alter? && a.b < |m| then m[a.b := a.x] else m, Replay(d, acts[..k]));
    }
  }

  lemma ReplayNone(m: Disk, acts: seq<Act>)
    requires acts == []
    ensures Replay(m, acts) == m
  {
  }

  lemma ReplayStep(m: Disk, acts: seq<Act>, k: nat)
    requires 0 < k <= |acts|
    ensures var a, r := acts[k - 1], Replay(m, acts[..k - 1]);
            Replay(m, acts[..k]) == if a.Alter? && a.b < |m| then r[a.b := a.x] else r
  {
    assert acts[..k][..k - 1] == acts[..k - 1];
  }

  lemma SameSizes(L: Layout, d: Disk, e: Disk)
    requires SameHome(L, d, e)
    ensures |d| == |e|
  {
  }

  lemma SameHomeUpdate(L: Layout, d: Disk, e: Disk, b: nat, x: Block)
    requires SameHome(L, d, e) && b < |d|
    ensures SameHome(L, d[b := x], e[b := x])
  {
  }

  lemma Acquired(L: Layout, j: J.J, a: Act)
    requires J.Inv(L, j) && J.Enabled(L, j, a) && a.Acquire?
    ensures a.b < |j.c.disk| && !L.InLog(a.b) && DataOf(J.After(L, j, a).c, a.b) == Map(j.c)[a.b]
  {
    hide J.Inv, J.After, Map, RunInv;
    AcquireKeeps(L, j, a);
    CanUse(J.After(L, j, a).c, a.b);
  }

  // ----- pins and the header -----

  /** In every run: outside install_trans a block is pinned, once, exactly when it is in the
      header; a block that is neither pinned nor being changed by its holder, nor the log
      block a commit is about to write, is as on the disk, so evicting it loses nothing; and
      no two buffers have one block. */
  lemma PinsFollowHeader(L: Layout, js: seq<J.J>, acts: seq<Act>, k: nat, b: nat)
    requires IsRun(L, js, acts) && k <= |acts|
    ensures BufferCache.Inv(js[k].c)
    ensures !js[k].pc.Install? ==> PinsOf(js[k].c, b) == if b in js[k].s.lh then 1 else 0
    ensures PinsOf(js[k].c, b) != 0 ==> b in js[k].s.lh
    ensures b < |js[k].c.disk| && PinsOf(js[k].c, b) == 0 && !(b in js[k].hold && js[k].hold[b].changed)
            && !L.InLog(b) ==>
              Map(js[k].c)[b] == js[k].c.disk[b]
  {
    hide RunInv, Map, PinsOf, Locks, S.Inv;
    var j := js[k];
    Reachable(L, js, acts, k);
    HomeNotPending(L, j, b);
    assert PinsOf(j.c, b) == if b in Pinned(j) then 1 else 0;
    if j.pc.Install? { PinnedListed(j, b); }
  }

  // ----- commits -----

  /** The commit under way began at some earlier step, with no operation open; it writes the
      header and the contents the blocks had then. */
  lemma {:induction false} CommitBegan(L: Layout, js: seq<J.J>, acts: seq<Act>, k: nat) returns (m: nat)
    requires IsRun(L, js, acts) && k <= |acts| && !js[k].pc.Rest?
    ensures m < k && acts[m].Start? && RunInv(js[m].c) && js[m].s.active == map[]
    ensures js[k].bs == js[m].s.lh && js[k].base == js[m].c.disk && js[k].data == Latest(Map(js[m].c), js[m].s.lh)
    ensures forall i :: m < i <= k ==> !js[i].pc.Rest?
  {
    hide J.Inv, Map, RunInv, C.Can, C.Next, Latest;
    Reachable(L, js, acts, k - 1);
    var j, a := js[k - 1], acts[k - 1];
    assert j.pc.Rest? ==> a.Start?;
    if a.Start? {
      StartsAlone(L, j);
      m := k - 1;
    } else {
      m := CommitBegan(L, js, acts, k - 1);
    }
  }

  lemma StartsAlone(L: Layout, j: J.J)
    requires J.Inv(L, j) && (j.s.committing || !j.pc.Rest?)
    ensures RunInv(j.c) && j.s.active == map[]
  {
  }

  /** In every run, at every point of a commit, whatever others read meanwhile, the writes done
      are the first ones of the crash model's 2n + 2, and the disk is what they leave. */
  lemma CommitPrefix(L: Layout, js: seq<J.J>, acts: seq<Act>, k: nat)
    requires IsRun(L, js, acts) && k <= |acts| && !js[k].pc.Rest?
    ensures var j, n := js[k], |js[k].bs|;
            && CanCommit(L, j.base, j.bs, j.data) && |j.ws| <= 2 * n + 2
            && j.ws == Log.CommitTrace(L, j.base, j.bs, j.data, 2 * n + 2)[..|j.ws|]
            && j.c.disk == (if j.ws == [] then j.base else j.ws[|j.ws| - 1])
            && (j.pc == Clear(4) ==> |j.ws| == 2 * n + 2)
  {
    hide RunInv, Locks, Pins, Changers, Differs, Source, S.Inv, HomeBlocks, Loggable;
    Reachable(L, js, acts, k);
  }

  // ----- crashes -----

  /** The write that makes a group of operations durable. */
  predicate HeaderWrite(j: J.J, a: Act) { a.Move? && j.pc == Head(3) }

  /** Crash a machine at any step of any run and recover: the disk shows the block map as it
      was when the last header was written (or at boot), with every change up to then and none
      since, and no operation was open then. */
  lemma CrashAnywhere(L: Layout, js: seq<J.J>, acts: seq<Act>, k: nat) returns (m: nat)
    requires IsRun(L, js, acts) && k <= |acts|
    ensures m <= k && js[m].s.active == map[] && (m == 0 || (m < k && HeaderWrite(js[m], acts[m])))
    ensures forall i :: m < i < k ==> !HeaderWrite(js[i], acts[i])
    ensures Loggable(L, js[k].c.disk)
    ensures SameHome(L, Recovered(L, js[k].c.disk), Replay(js[0].c.disk, acts[..m]))
  {
    hide J.Inv, J.After, J.Enabled, Map, RunInv, Recovered, Loggable, SameHome;
    m := LastHeader(L, js, acts, k);
    Reachable(L, js, acts, k);
    CrashHere(L, js[k]);
    Refined(L, js, acts, m);
    SameHomeTrans(L, Recovered(L, js[k].c.disk), js[k].durable, Replay(js[0].c.disk, acts[..m]));
  }

  lemma {:induction false} LastHeader(L: Layout, js: seq<J.J>, acts: seq<Act>, k: nat) returns (m: nat)
    requires IsRun(L, js, acts) && k <= |acts|
    ensures m <= k && js[m].s.active == map[] && (m == 0 || (m < k && HeaderWrite(js[m], acts[m])))
    ensures forall i :: m < i < k ==> !HeaderWrite(js[i], acts[i])
    ensures RunInv(js[m].c) && js[k].durable == Map(js[m].c)
  {
    hide J.Inv, Map, RunInv, J.After, J.Enabled;
    if k == 0 {
      BootedKeeps(L, js[0]);
      m := 0;
    } else {
      Reachable(L, js, acts, k - 1);
      DurableNext(L, js[k - 1], acts[k - 1]);
      if HeaderWrite(js[k - 1], acts[k - 1]) {
        StartsAlone(L, js[k - 1]);
        m := k - 1;
      } else {
        m := LastHeader(L, js, acts, k - 1);
      }
    }
  }

  lemma DurableNext(L: Layout, j: J.J, a: Act)
    requires J.Enabled(L, j, a)
    ensures J.After(L, j, a).durable == if HeaderWrite(j, a) then MapOf(j.c) else j.durable
  {
    hide C.Can, C.Next, Latest, OpOf;
  }

  lemma CrashHere(L: Layout, j: J.J)
    requires J.Inv(L, j)
    ensures Loggable(L, j.c.disk) && SameHome(L, Recovered(L, j.c.disk), j.durable)
  {
    hide RunInv, Locks, Pins, Changers, Differs, Source, S.Inv, HomeBlocks, CommitDisk, Log.CommitTrace, Apply,
         Recovered,
         HeadCount, HeadBlocks, SameHome;
    if j.pc.Rest? {
      EmptyLog(L, j.c.disk);
      SameHomeSym(L, j.durable, j.c.disk);
      SameHomeTrans(L, Recovered(L, j.c.disk), j.c.disk, j.durable);
    } else {
      IsPlaced(L, j);
      var t := Written(j.pc, |j.bs|);
      CrashInCommit(L, j.base, j.bs, j.data, t);
      SameHomeSym(L, j.durable, if t <= |j.bs| then j.base else Apply(j.base, j.bs, j.data));
      SameHomeTrans(L, Recovered(L, j.c.disk), if t <= |j.bs| then j.base else Apply(j.base, j.bs, j.data), j.durable);
    }
  }

  // ----- when the committer can move -----

  /** The blocks somebody holds, awaits or has pinned. */
  ghost function Busy(c: State): (bs: set<nat>) {
    set b | b in c.index && (PinsOf(c, b) > 0 || IsLocked(c, b) || Awaiting(c, b) > 0)
  }

  lemma FreeIffNotAllBusy(c: State)
    requires RunInv(c)
    ensures HasFree(c) <==> |Busy(c)| < NBUF
    ensures !HasFree(c) ==> c.index.Keys == Busy(c)
  {
    forall i: nat | i < NBUF ensures c.buf[i].refcnt == 0 <==> !Log.Caches(c, i, Busy(c)) {
      BusyBuffer(c, i);
    }
    Log.BusyCount(c, Busy(c));
  }

  lemma BusyBuffer(c: State, i: nat)
    requires RunInv(c) && i < NBUF
    ensures c.buf[i].refcnt == 0 <==> !Log.Caches(c, i, Busy(c))
  {
    hide Permutation;
  }

  /** The buffers in use are those of the header, of the committer, and of the others. */
  lemma BusyIs(L: Layout, j: J.J, b: nat)
    requires J.Inv(L, j)
    ensures b in Busy(j.c) <==> b in Pinned(j) || b in j.hold || b in Mine(L, j) || Awaiting(j.c, b) > 0
  {
    hide RunInv, Changers, Differs, Source, Writing, Idle, S.Inv, HomeBlocks, Pinned, Mine, Await;
  }

  /** Where the committer calls bget: the block it wants. */
  predicate Wants(L: Layout, j: J.J, b: nat) {
    match j.pc
    case Rest => false
    case Fill(k, at) => (at == 0 && b == LogAddr(L, k)) || (at == 2 && b == HomeAddr(j, k))
    case Install(k, at) => (at == 0 && b == LogAddr(L, k)) || (at == 2 && b == HomeAddr(j, k))
    case Head(at) => at == 0 && b == L.start
    case Clear(at) => at == 0 && b == L.start
  }

  /** bget panics on block b. */
  ghost predicate Panics(c: State, b: nat) { b !in c.index && !HasFree(c) }

  /** A bread inside a commit panics exactly when its block is not cached and the blocks of the
      header, those others hold or await and the committer's own take up all NBUF buffers.
      That is never so for a home block. */
  lemma CommitPanics(L: Layout, js: seq<J.J>, acts: seq<Act>, k: nat, b: nat)
    requires IsRun(L, js, acts) && k <= |acts| && Wants(L, js[k], b)
    ensures Panics(js[k].c, b) <==> b !in js[k].c.index && |Busy(js[k].c)| >= NBUF
    ensures !L.InLog(b) ==> !Panics(js[k].c, b)
    ensures forall x: nat :: x in Busy(js[k].c) <==>
              x in Pinned(js[k]) || x in js[k].hold || x in Mine(L, js[k]) || Awaiting(js[k].c, x) > 0
  {
    hide J.Inv, RunInv, Busy, Pinned, Mine, PinsOf, Awaiting, Await;
    var j := js[k];
    Reachable(L, js, acts, k);
    FreeIffNotAllBusy(j.c);
    forall x: nat ensures x in Busy(j.c) <==> x in Pinned(j) || x in j.hold || x in Mine(L, j) || Awaiting(j.c, x) > 0 {
      BusyIs(L, j, x);
    }
    if !L.InLog(b) { HomeIsCached(L, j, b); }
  }

  /** So one reader is enough to stop a commit that the cache had room for: with NBUF - 1
      blocks in the header, the block it holds takes the last buffer. */
  lemma ReaderStopsCommit(L: Layout, js: seq<J.J>, acts: seq<Act>, k: nat, b: nat, x: nat)
    requires IsRun(L, js, acts) && k <= |acts| && Wants(L, js[k], b) && b !in js[k].c.index
    requires js[k].pc.Fill? && |js[k].s.lh| == NBUF - 1 && x in js[k].hold && x !in js[k].s.lh
    ensures Panics(js[k].c, b)
  {
    hide J.Inv, RunInv, Busy, Panics, Mine, PinsOf, Awaiting, Await, Wants;
    var j := js[k];
    CommitPanics(L, js, acts, k, b);
    Reachable(L, js, acts, k);
    DistinctSize(L, j);
    assert |Pinned(j) + {x}| == NBUF;
    SubsetCount(Pinned(j) + {x}, Busy(j.c));
  }

  lemma DistinctSize(L: Layout, j: J.J)
    requires J.Inv(L, j) && j.pc.Fill?
    ensures |Pinned(j)| == |j.s.lh| && forall y :: y in Pinned(j) <==> y in j.s.lh
  {
    hide RunInv, Locks, Differs, Source, S.Inv, Pins, Changers;
    Log.PinAllSize(j.s.lh);
    assert Pinned(j) == Log.PinAll(j.s.lh).Keys;
  }

  lemma HomeIsCached(L: Layout, j: J.J, b: nat)
    requires J.Inv(L, j) && Wants(L, j, b) && !L.InLog(b)
    ensures b in j.c.index
  {
    hide RunInv, Locks, Differs, Source, S.Inv;
    IsPlaced(L, j);
    assert b in Pinned(j) by { if j.pc.Install? { FromNext(j.bs, j.pc.k); } }
    InUse(j.c, b);
  }

  /** In every run the committer's next step can be taken, unless it waits for a sleep lock
      that somebody else holds or bget panics (NPROC processes cannot all be waiting for the
      buffer it wants). */
  lemma CommitterMoves(L: Layout, js: seq<J.J>, acts: seq<Act>, k: nat) returns (i: nat)
    requires IsRun(L, js, acts) && k <= |acts| && !js[k].pc.Rest?
    requires forall b: nat :: Wants(L, js[k], b) ==> !Panics(js[k].c, b) && Awaiting(js[k].c, b) < NPROC
    requires forall b :: b in Await(L, js[k]) ==> b !in js[k].hold
    ensures J.Enabled(L, js[k], Move(i))
  {
    hide J.Inv, Panics, Awaiting, Await, Wants, J.Enabled;
    Reachable(L, js, acts, k);
    i := MovesAt(L, js[k]);
  }

  lemma MovesAt(L: Layout, j: J.J) returns (i: nat)
    requires J.Inv(L, j) && !j.pc.Rest?
    requires forall b: nat :: Wants(L, j, b) ==> !Panics(j.c, b) && Awaiting(j.c, b) < NPROC
    requires forall b :: b in Await(L, j) ==> b !in j.hold
    ensures J.Enabled(L, j, Move(i))
  {
    hide J.Inv, RunInv, CommitOp, Wants, Panics, Awaiting, Await, IsLocked;
    CommitSteps(L, j, 0);
    var op := CommitOp(L, j, 0);
    if op.Get? {
      i := Found(j.c, op.b);
      CommitSteps(L, j, i);
    } else {
      i := 0;
      CommitUses(L, j, i);
    }
  }

  /** The buffer bget returns. */
  lemma Found(c: State, b: nat) returns (i: nat)
    requires RunInv(c) && b < |c.disk| && !Panics(c, b) && Awaiting(c, b) < NPROC
    ensures C.Can(c, C.Get(i, b))
  {
    i := if b in c.index then c.index[b] else FindUnused(c);
  }

  /** The buffers the committer's steps are on. */
  lemma CommitSteps(L: Layout, j: J.J, i: nat)
    requires J.Inv(L, j) && !j.pc.Rest?
    ensures var op := CommitOp(L, j, i);
            && (op.Get? ==> op == C.Get(i, op.b) && Wants(L, j, op.b) && op.b < |j.c.disk|)
            && (op.Get? <==> CommitOp(L, j, 0).Get?) && op.b == CommitOp(L, j, 0).b
            && (!op.Get? ==> op.i == BufferOf(j.c, op.b))
  {
    hide RunInv, J.Inv, Writing, Source, BufferOf, CommitOp, Wants;
    CommitShape(L, j, i);
    CommitShape(L, j, 0);
    var op := CommitOp(L, j, i);
    if op.Get? { WantsOnDisk(L, j, op.b); }
  }

  lemma CommitShape(L: Layout, j: J.J, i: nat)
    requires !j.pc.Rest?
    ensures var op := CommitOp(L, j, i);
            && (op.Get? ==> op == C.Get(i, op.b) && Wants(L, j, op.b))
            && (op.Get? <==> CommitOp(L, j, 0).Get?) && op.b == CommitOp(L, j, 0).b
            && (!op.Get? ==> op.i == BufferOf(j.c, op.b))
  {
    hide BufferOf, DataOf, HeadValue;
  }

  lemma WantsOnDisk(L: Layout, j: J.J, b: nat)
    requires J.Inv(L, j) && !j.pc.Rest? && Wants(L, j, b)
    ensures b < |j.c.disk|
  {
    hide RunInv, J.Inv, Writing, Source, CommitDisk, HomeBlocks;
    InvParts(L, j);
    IsPlaced(L, j);
    LogFits(L, j);
  }

  lemma LogFits(L: Layout, j: J.J)
    requires J.Inv(L, j)
    ensures Fits(L, j.c.disk)
  {
  }

  lemma CommitUses(L: Layout, j: J.J, i: nat)
    requires J.Inv(L, j) && !j.pc.Rest? && !CommitOp(L, j, i).Get?
    requires forall b :: b in Await(L, j) ==> b !in j.hold
    ensures C.Can(j.c, CommitOp(L, j, i))
  {
    hide RunInv, Pins, Differs, Source, Writing, S.Inv, CommitOp, Mine, Await, Awaiting, IsLocked, BufferOf;
    var op := CommitOp(L, j, i);
    IsPlaced(L, j);
    MoveUses(L, j, i);
    CommitSteps(L, j, i);
    if op.Take? {
      AwaitNotMine(L, j, op.b);
      CanTake(j.c, op.b);
    } else {
      CanUse(j.c, op.b);
    }
  }

  lemma AwaitNotMine(L: Layout, j: J.J, b: nat)
    requires Placed(L, j) && b in Await(L, j)
    ensures b !in Mine(L, j)
  {
  }

  // ----- the undisturbed commit -----

  /** When a commit starts and nobody else is in the cache, the state is the one in which the
      code of Log.Commit is proved. */
  lemma ReadyAtStart(L: Layout, js: seq<J.J>, acts: seq<Act>, k: nat)
    requires IsRun(L, js, acts) && k < |acts| && acts[k].Start? && js[k].hold == map[]
    requires forall b: nat :: Awaiting(js[k].c, b) == 0
    ensures Log.Ready(L, js[k].c, js[k].s.lh, js[k + 1].data)
  {
    hide J.Inv, RunInv, Latest, Map, Awaiting, Log.Tidy;
    var j := js[k];
    Reachable(L, js, acts, k);
    StartApply(L, j, js[k + 1].data);
    Tidied(L, j);
  }

  lemma TidyAt(c: State, pin: map<nat, int>, i: nat)
    requires RunInv(c) && i < NBUF && forall b :: b in pin ==> pin[b] == 1
    requires forall b: nat :: Awaiting(c, b) == 0 && !IsLocked(c, b) && PinsOf(c, b) == if b in pin then 1 else 0
    ensures Log.BufTidy(c, i, pin, {})
  {
    hide Permutation;
    var b := c.buf[i].blockno;
    assert c.buf[i].dev == ROOTDEV ==> Awaiting(c, b) == c.waiting[i] && PinsOf(c, b) == c.pins[i];
    assert c.buf[i].dev == ROOTDEV ==> IsLocked(c, b) == c.buf[i].locked;
  }

  lemma Tidied(L: Layout, j: J.J)
    requires J.Inv(L, j) && j.pc.Rest? && j.hold == map[] && forall b: nat :: Awaiting(j.c, b) == 0
    ensures Log.Tidy(j.c, Log.PinAll(j.s.lh), {})
  {
    hide Differs, Changers, Idle, S.Inv, Mine, Await, Pinned, HomeBlocks;
    AtRest(L, j);
    PinnedAtRest(j);
    var pin := Log.PinAll(j.s.lh);
    forall i: nat | i < NBUF ensures Log.BufTidy(j.c, i, pin, {}) {
      TidyAt(j.c, pin, i);
    }
    forall b | b in pin ensures b in j.c.index { InUse(j.c, b); }
  }
}
