/** What virtio_disk_rw's descriptors say and what the device makes of them (kernel/virtio_disk.c;
    section 5.2.6 of VIRTIO 1.1): the ring of VirtioRing with the request headers, the buffers
    and the disk itself.  The device carries out a request when it completes it, from the chain
    it finds in memory. */
module VirtioTransfer {
  import opened Machine
  import opened Blocks
  import V = VirtioRing

  const NUM := V.NUM
  const SECTOR := 512

  /** A buffer of the cache: b->blockno and b->data. */
  datatype Buf = Buf(blockno: nat, data: Block)

  /** What a descriptor points to: buf0, a buffer's data, or info[h].status. */
  datatype Target =
    | Nothing
    | Header(write: bool, sector: nat)
    | Payload(b: nat, len: nat, deviceWrites: bool)
    | StatusOf(h: nat)

  datatype World = World(ring: V.Disk, target: seq<Target>, status: seq<byte>, bufs: map<nat, Buf>, disk: seq<byte>)

  predicate Sized(x: World) { V.Sized(x.ring) && |x.target| == NUM && |x.status| == NUM }

  /** buf0.sector, a product of 32-bit integers. */
  function Sector(blockno: nat): (s: nat) { blockno * (BSIZE / SECTOR) % UINT32 }

  /** It is the block's first sector exactly for blocks below 2^31. */
  lemma SectorExact(b: nat)
    requires b < UINT32
    ensures Sector(b) == 2 * b <==> b < 0x8000_0000
  {
  }

  // ----- bytes of the disk -----

  predicate InRange(disk: seq<byte>, b: nat) { BSIZE * (b + 1) <= |disk| }

  function BlockAt(disk: seq<byte>, b: nat): (r: seq<byte>)
    requires InRange(disk, b)
    ensures |r| == BSIZE
  {
    disk[BSIZE * b..BSIZE * b + BSIZE]
  }

  function Put(disk: seq<byte>, at: nat, data: seq<byte>): (r: seq<byte>)
    requires at + |data| <= |disk|
    ensures |r| == |disk|
  {
    disk[..at] + data + disk[at + |data|..]
  }

  lemma PutBlock(disk: seq<byte>, b: nat, data: seq<byte>, c: nat)
    requires InRange(disk, b) && InRange(disk, c) && |data| == BSIZE
    ensures BlockAt(Put(disk, BSIZE * b, data), c) == if c == b then data else BlockAt(disk, c)
  {
    var r := Put(disk, BSIZE * b, data);
    if c < b {
      PutBefore(disk, BSIZE * b, data, BSIZE * c);
    } else if c > b {
      PutAfter(disk, BSIZE * b, data, BSIZE * c);
    } else {
      assert r[BSIZE * b..BSIZE * b + BSIZE] == data;
    }
  }

  lemma PutBefore(disk: seq<byte>, at: nat, data: seq<byte>, i: nat)
    requires at + |data| <= |disk| && i + BSIZE <= at
    ensures Put(disk, at, data)[i..i + BSIZE] == disk[i..i + BSIZE]
  {
  }

  lemma PutAfter(disk: seq<byte>, at: nat, data: seq<byte>, i: nat)
    requires at + |data| <= i && i + BSIZE <= |disk|
    ensures Put(disk, at, data)[i..i + BSIZE] == disk[i..i + BSIZE]
  {
  }

  // ----- the steps -----

  datatype Step =
    | Rw(b: nat, write: bool, h: nat, d1: nat, d2: nat)  // virtio_disk_rw up to its wait
    | Take | Complete(h: nat)                            // the device
    | Intr                                               // one turn of virtio_disk_intr's loop
    | Finish(h: nat)                                     // virtio_disk_rw from its wait to its return
    | Use(b: nat, to: Buf)                               // the cache changes or recycles a buffer

  /** The step on the ring. */
  function OnRing(a: Step): (r: V.Step)
    requires !a.Use?
  {
    match a
    case Rw(b, _, h, d1, d2) => V.Submit(b, h, d1, d2)
    case Take => V.Take
    case Complete(h) => V.Complete(h)
    case Intr => V.Intr
    case Finish(h) => V.Finish(h)
  }

  /** A block has one buffer, whose holder is inside virtio_disk_rw while its request is in flight;
      the interrupt handler panics on a status that is not 0. */
  predicate Can(x: World, a: Step) {
    && Sized(x) && (!a.Use? ==> V.Enabled(x.ring, OnRing(a)))
    && match a
       case Rw(b, _, _, _, _) =>
         && b in x.bufs && x.bufs[b].blockno < 0x8000_0000
         && forall i :: i in x.ring.reqs && x.ring.reqs[i].buf in x.bufs ==>
              x.bufs[x.ring.reqs[i].buf].blockno != x.bufs[b].blockno
       case Intr => x.ring.elems[x.ring.usedIdx] < NUM && x.status[x.ring.elems[x.ring.usedIdx]] == 0
       case Use(b, _) => forall i :: i in x.ring.reqs ==> x.ring.reqs[i].buf != b
       case _ => true
  }

  /** The descriptor after i in its chain. */
  function NextOf(x: World, i: nat): (j: nat)
    requires Sized(x)
  {
    if i < NUM && x.ring.desc[i].chained then x.ring.desc[i].next else NUM
  }

  function TargetOf(x: World, i: nat): (t: Target)
    requires Sized(x)
  {
    if i < NUM then x.target[i] else Nothing
  }

  /** The device reads or writes a block's worth of sectors and reports in info[h].status. */
  function Carried(x: World, write: bool, sector: nat, b: nat, h: nat): (y: World)
    requires Sized(x) && b in x.bufs && h < NUM
  {
    var at, buf := SECTOR * sector, x.bufs[b];
    if at + BSIZE > |x.disk| then x.(status := x.status[h := 1])
    else if write then x.(disk := Put(x.disk, at, buf.data.bytes), status := x.status[h := 0])
    else x.(bufs := x.bufs[b := buf.(data := Data(x.disk[at..at + BSIZE]))], status := x.status[h := 0])
  }

  /** The device carries out the request whose chain begins at h. */
  function Served(x: World, h: nat): (y: World)
    requires Sized(x)
  {
    var i := NextOf(x, h);
    var t, u, v := TargetOf(x, h), TargetOf(x, i), TargetOf(x, NextOf(x, i));
    if t.Header? && u.Payload? && v.StatusOf? && v.h < NUM && u.b in x.bufs && u.len == BSIZE
       && u.deviceWrites != t.write
    then Carried(x, t.write, t.sector, u.b, v.h)
    else x
  }

  function After(x: World, a: Step): (y: World)
    requires Can(x, a)
  {
    match a
    case Rw(b, write, h, d1, d2) =>
      x.(ring := V.After(x.ring, OnRing(a)), status := x.status[h := 0],
         target := x.target[h := Header(write, Sector(x.bufs[b].blockno))][d1 := Payload(b, BSIZE, !write)]
                           [d2 := StatusOf(h)])
    case Take => x.(ring := V.After(x.ring, V.Take))
    case Complete(h) => Served(x, h).(ring := V.After(x.ring, OnRing(a)))
    case Intr => x.(ring := V.After(x.ring, V.Intr))
    case Finish(h) =>
      x.(ring := V.After(x.ring, OnRing(a)), target := Cleared(x, NextOf(x, NextOf(x, h)), NextOf(x, h), h))
    case Use(b, to) => x.(bufs := x.bufs[b := to])
  }

  /** free_desc takes the addresses away. */
  function Cleared(x: World, i: nat, j: nat, k: nat): (t: seq<Target>)
    requires Sized(x)
    ensures |t| == NUM && forall d :: 0 <= d < NUM ==>
            t[d] == if d == i || d == j || d == k then Nothing else x.target[d]
  {
    seq(NUM, d requires 0 <= d < NUM => if d == i || d == j || d == k then Nothing else x.target[d])
  }

  // ----- one request -----

  /** What the call has done when it is done: x0 is the state when it was made. */
  ghost predicate Transferred(x0: World, c: Step, x: World)
    requires c.Rw? && c.b in x0.bufs
    ensures Transferred(x0, c, x) ==> |x.disk| == |x0.disk| && c.b in x.bufs
  {
    var b, blk := c.b, x0.bufs[c.b].blockno;
    && |x.disk| == |x0.disk| && b in x.bufs
    && if !InRange(x0.disk, blk) then x.bufs[b] == x0.bufs[b]
       else if c.write then x.bufs[b] == x0.bufs[b] && BlockAt(x.disk, blk) == x0.bufs[b].data.bytes
       else
         && x.bufs[b] == Buf(blk, Data(BlockAt(x0.disk, blk)))
         && BlockAt(x.disk, blk) == BlockAt(x0.disk, blk)
  }

  ghost predicate Untouched(x0: World, c: Step, x: World)
    requires c.Rw? && c.b in x0.bufs
    ensures Untouched(x0, c, x) ==> |x.disk| == |x0.disk| && c.b in x.bufs
  {
    var b, blk := c.b, x0.bufs[c.b].blockno;
    && |x.disk| == |x0.disk| && b in x.bufs && x.bufs[b] == x0.bufs[b]
    && (InRange(x0.disk, blk) ==> BlockAt(x.disk, blk) == BlockAt(x0.disk, blk))
  }

  /** The chain in memory says what the caller wanted. */
  predicate Says(x0: World, c: Step, x: World)
    requires c.Rw? && c.b in x0.bufs
  {
    && Sized(x) && c.h in x.ring.reqs && c.h < NUM && c.d1 < NUM && c.d2 < NUM
    && x.ring.reqs[c.h].buf == c.b && x.ring.reqs[c.h].d1 == c.d1 && x.ring.reqs[c.h].d2 == c.d2
    && x0.bufs[c.b].blockno < 0x8000_0000
    && x.target[c.h] == Header(c.write, 2 * x0.bufs[c.b].blockno) && x.target[c.d1] == Payload(c.b, BSIZE, !c.write)
    && x.target[c.d2] == StatusOf(c.h)
  }

  predicate Over(p: V.Phase) { p.Done? || p.Seen? }

  ghost predicate Fine(x0: World, c: Step, x: World) {
    && c.Rw? && c.b in x0.bufs && Says(x0, c, x)
    && (if Over(x.ring.reqs[c.h].phase) then Transferred(x0, c, x) else Untouched(x0, c, x))
    && x.status[c.h] == (if Over(x.ring.reqs[c.h].phase) && !InRange(x0.disk, x0.bufs[c.b].blockno) then 1 else 0)
    && (x.ring.reqs[c.h].phase.Seen? ==> InRange(x0.disk, x0.bufs[c.b].blockno))
  }

  lemma RwFine(x: World, a: Step)
    requires Can(x, a) && a.Rw?
    ensures Fine(x, a, After(x, a))
  {
    hide InRange, BlockAt;
    SectorExact(x.bufs[a.b].blockno);
  }

  /** The device follows the chain. */
  lemma ServedChain(x0: World, c: Step, x: World)
    requires V.Inv(x.ring) && c.Rw? && c.b in x0.bufs && Says(x0, c, x) && c.b in x.bufs
    ensures Served(x, c.h) == Carried(x, c.write, 2 * x0.bufs[c.b].blockno, c.b, c.h)
  {
    V.ChainFacts(x.ring, c.h);
    hide V.Inv, V.Where, Carried;
    assert NextOf(x, c.h) == c.d1 && NextOf(x, c.d1) == c.d2;
  }

  /** Serving a request does what its caller wanted. */
  lemma ServedIs(x0: World, c: Step, x: World)
    requires V.Inv(x.ring) && Fine(x0, c, x) && !Over(x.ring.reqs[c.h].phase)
    ensures ServedAs(x0, c, x, Served(x, c.h))
  {
    hide V.Inv, Served, Put, InRange, BlockAt;
    var blk := x0.bufs[c.b].blockno;
    ServedChain(x0, c, x);
    hide Carried, Says;
    CarriedIs(x, c.write, blk, c.b, c.h);
    SameRange(x0.disk, x.disk, blk);
  }

  ghost predicate ServedAs(x0: World, c: Step, x: World, y: World)
    requires Fine(x0, c, x)
  {
    var blk := x0.bufs[c.b].blockno;
    && y.ring == x.ring && y.target == x.target && |y.disk| == |x.disk| == |x0.disk|
    && y.status == x.status[c.h := if InRange(x0.disk, blk) then 0 else 1]
    && y.disk == (if InRange(x0.disk, blk) && c.write then Put(x.disk, BSIZE * blk, x0.bufs[c.b].data.bytes)
        else x.disk)
    && y.bufs == (if InRange(x0.disk, blk) && !c.write then x.bufs[c.b := Buf(blk, Data(BlockAt(x0.disk, blk)))]
                  else x.bufs)
  }

  lemma CarriedIs(x: World, write: bool, blk: nat, b: nat, h: nat)
    requires Sized(x) && b in x.bufs && h < NUM && x.bufs[b].blockno == blk
    ensures var y := Carried(x, write, 2 * blk, b, h);
            if !InRange(x.disk, blk) then y == x.(status := x.status[h := 1])
            else if write then y == x.(status := x.status[h := 0],
                disk := Put(x.disk, BSIZE * blk, x.bufs[b].data.bytes))
            else y == x.(status := x.status[h := 0], bufs := x.bufs[b := Buf(blk, Data(BlockAt(x.disk, blk)))])
  {
    hide Put;
    assert SECTOR * (2 * blk) == BSIZE * blk;
  }

  // ----- a step and the requests in flight -----

  lemma ServedSelf(x0: World, c: Step, x: World)
    requires V.Inv(x.ring) && Fine(x0, c, x) && Can(x, Complete(c.h))
    ensures Fine(x0, c, After(x, Complete(c.h)))
  {
    hide V.Inv, Served, BlockAt, Put, InRange;
    ServedIs(x0, c, x);
    var blk := x0.bufs[c.b].blockno;
    if InRange(x0.disk, blk) && c.write {
      SameRange(x0.disk, x.disk, blk);
      PutBlock(x.disk, blk, x0.bufs[c.b].data.bytes, blk);
    }
  }

  lemma SameRange(d: seq<byte>, e: seq<byte>, b: nat)
    requires |d| == |e|
    ensures InRange(d, b) == InRange(e, b)
  {
  }

  /** Serving g changes neither block nor buffer of another request. */
  lemma ServedOther(x0: World, c: Step, x1: World, g: Step, x: World)
    requires V.Inv(x.ring) && Fine(x1, g, x) && Can(x, Complete(g.h)) && Fine(x0, c, x) && c.h != g.h
    requires x0.bufs[c.b].blockno != x1.bufs[g.b].blockno
    ensures Fine(x0, c, After(x, Complete(g.h)))
  {
    hide V.Inv, Served, BlockAt, Put, InRange, Transferred, Untouched, V.After, V.Enabled;
    OtherBuffer(x, c.h, g.h);
    ServedNow(x, g.h);
    ServedIs(x1, g, x);
    var b1, b2, y := x0.bufs[c.b].blockno, x1.bufs[g.b].blockno, After(x, Complete(g.h));
    ServedPhase(x.ring, g.h, c.h);
    SameRange(x0.disk, x.disk, b1);
    SameRange(x1.disk, x.disk, b2);
    SameRange(x.disk, y.disk, b1);
    if InRange(x.disk, b1) && InRange(x.disk, b2) { PutBlock(x.disk, b2, x1.bufs[g.b].data.bytes, b1); }
    SameData(x0, c, x, y);
  }

  lemma OtherBuffer(x: World, g: nat, h: nat)
    requires V.Inv(x.ring) && g in x.ring.reqs && h in x.ring.reqs && g != h
    ensures x.ring.reqs[g].buf != x.ring.reqs[h].buf
  {
  }

  lemma ServedNow(x: World, h: nat)
    requires Can(x, Complete(h))
    ensures h in x.ring.reqs && x.ring.reqs[h].phase.Working?
  {
  }

  lemma ServedPhase(r: V.Disk, g: nat, h: nat)
    requires V.Enabled(r, V.Complete(g)) && h in r.reqs && g != h
    ensures var t := V.After(r, V.Complete(g)); V.Sized(t) && h in t.reqs && t.reqs[h] == r.reqs[h]
  {
  }

  /** What matters to a request is its buffer and its block. */
  lemma SameData(x0: World, c: Step, x: World, y: World)
    requires c.Rw? && c.b in x0.bufs && |y.disk| == |x.disk| && c.b in x.bufs && c.b in y.bufs
             && y.bufs[c.b] == x.bufs[c.b]
    requires var b := x0.bufs[c.b].blockno;
             InRange(x.disk, b) ==> InRange(y.disk, b) && BlockAt(y.disk, b) == BlockAt(x.disk, b)
    ensures Transferred(x0, c, x) ==> Transferred(x0, c, y)
    ensures Untouched(x0, c, x) ==> Untouched(x0, c, y)
  {
    hide BlockAt;
  }

  /** A new request takes free descriptors. */
  lemma RwOther(x0: World, c: Step, x: World, a: Step)
    requires V.Inv(x.ring) && Fine(x0, c, x) && Can(x, a) && a.Rw?
    ensures c.h != a.h && Fine(x0, c, After(x, a))
  {
    V.FreesChain(x.ring, c.h);
    hide V.Inv, BlockAt, InRange;
  }

  lemma FinishOther(x0: World, c: Step, x: World, a: Step)
    requires V.Inv(x.ring) && Fine(x0, c, x) && Can(x, a) && a.Finish? && a.h != c.h
    ensures Fine(x0, c, After(x, a))
  {
    V.ChainFacts(x.ring, c.h);
    V.ChainFacts(x.ring, a.h);
    hide V.Inv, BlockAt, InRange, V.Freed, V.Where;
    assert NextOf(x, a.h) == x.ring.reqs[a.h].d1 && NextOf(x, NextOf(x, a.h)) == x.ring.reqs[a.h].d2;
  }

  lemma TakeOther(x0: World, c: Step, x: World)
    requires V.Inv(x.ring) && Fine(x0, c, x) && Can(x, Take)
    ensures Fine(x0, c, After(x, Take))
  {
    V.TakeCounters(x.ring);
    hide V.Inv, BlockAt, InRange, V.Counters;
  }

  /** A completion is handled only if its status is 0. */
  lemma IntrOther(x0: World, c: Step, x: World)
    requires V.Inv(x.ring) && Fine(x0, c, x) && Can(x, Intr)
    ensures Fine(x0, c, After(x, Intr))
  {
    V.IntrFinds(x.ring);
    hide V.Inv, BlockAt, InRange, V.Counters;
  }

  lemma UseOther(x0: World, c: Step, x: World, a: Step)
    requires Fine(x0, c, x) && Can(x, a) && a.Use?
    ensures Fine(x0, c, After(x, a))
  {
    hide BlockAt, InRange;
  }

  // ----- whole runs -----

  ghost predicate IsRun(xs: seq<World>, steps: seq<Step>)
    ensures IsRun(xs, steps) ==> |xs| == |steps| + 1
  {
    && |xs| == |steps| + 1 && xs[0].ring == V.Start() && Sized(xs[0])
    && forall k :: 0 <= k < |steps| ==> Can(xs[k], steps[k]) && xs[k + 1] == After(xs[k], steps[k])
  }

  /** The last call before step k whose chain begins at h, named by its step; -1 for none. */
  ghost function LastRw(steps: seq<Step>, k: nat, h: nat): (m: int)
    requires k <= |steps|
    ensures -1 <= m < k && (m >= 0 ==> steps[m].Rw? && steps[m].h == h)
  {
    if k == 0 then -1
    else if steps[k - 1].Rw? && steps[k - 1].h == h then k - 1 else LastRw(steps, k - 1, h)
  }

  ghost predicate FineAt(xs: seq<World>, steps: seq<Step>, k: nat, h: nat)
    requires k <= |steps| < |xs|
  {
    var m := LastRw(steps, k, h); m >= 0 && Fine(xs[m], steps[m], xs[k])
  }

  ghost predicate AllFine(xs: seq<World>, steps: seq<Step>, k: nat)
    requires k <= |steps| < |xs|
  {
    forall h :: h in xs[k].ring.reqs ==> FineAt(xs, steps, k, h)
  }

  /** Requests in flight are for different blocks. */
  ghost predicate Apart(x: World) {
    forall g, h :: g in x.ring.reqs && h in x.ring.reqs && g != h ==> OtherBlocks(x, g, h)
  }

  predicate OtherBlocks(x: World, g: nat, h: nat)
    requires g in x.ring.reqs && h in x.ring.reqs
  {
    var b, c := x.ring.reqs[g].buf, x.ring.reqs[h].buf;
    b in x.bufs && c in x.bufs && x.bufs[b].blockno != x.bufs[c].blockno
  }

  lemma BlockKept(x0: World, c: Step, x: World)
    requires Fine(x0, c, x)
    ensures x.ring.reqs[c.h].buf == c.b && c.b in x.bufs && x.bufs[c.b].blockno == x0.bufs[c.b].blockno
  {
  }

  /** A request in flight afterwards was in flight before, or has just been made. */
  lemma InFlight(x: World, a: Step, h: nat)
    requires Can(x, a)
    ensures h in After(x, a).ring.reqs <==> (h in x.ring.reqs && a != Finish(h)) || (a.Rw? && a.h == h)
  {
    hide Served;
    if a.Complete? { ServedRing(x, a.h); }
  }

  lemma ServedRing(x: World, h: nat)
    requires Sized(x)
    ensures Served(x, h).ring == x.ring
  {
    hide Put;
  }

  lemma NextFine(xs: seq<World>, steps: seq<Step>, k: nat, h: nat)
    requires IsRun(xs, steps) && k < |steps| && h in xs[k + 1].ring.reqs && V.Inv(xs[k].ring) && Apart(xs[k])
    requires AllFine(xs, steps, k)
    ensures FineAt(xs, steps, k + 1, h)
  {
    hide V.Inv, Fine, Can, After, Apart;
    var x, a := xs[k], steps[k];
    InFlight(x, a, h);
    if a.Rw? && a.h == h {
      RwFine(x, a);
    } else {
      assert FineAt(xs, steps, k, h);
      var m := LastRw(steps, k, h);
      if a.Complete? && a.h != h {
        ServedNext(xs, steps, k, h);
      } else {
        StepFine(xs[m], steps[m], x, a);
      }
    }
  }

  lemma StepFine(x0: World, c: Step, x: World, a: Step)
    requires V.Inv(x.ring) && Fine(x0, c, x) && Can(x, a) && a != Finish(c.h) && (a.Complete? ==> a.h == c.h)
    ensures Fine(x0, c, After(x, a))
  {
    hide V.Inv, Can, After, Says, Untouched, Transferred, InRange;
    match a
    case Rw(_, _, _, _, _) => RwOther(x0, c, x, a);
    case Take => TakeOther(x0, c, x);
    case Complete(_) => ServedSelf(x0, c, x);
    case Intr => IntrOther(x0, c, x);
    case Finish(_) => FinishOther(x0, c, x, a);
    case Use(_, _) => UseOther(x0, c, x, a);
  }

  lemma ServedNext(xs: seq<World>, steps: seq<Step>, k: nat, h: nat)
    requires IsRun(xs, steps) && k < |steps| && V.Inv(xs[k].ring) && Apart(xs[k])
    requires steps[k].Complete? && steps[k].h != h && h in xs[k].ring.reqs
    requires AllFine(xs, steps, k)
    ensures FineAt(xs, steps, k + 1, h)
  {
    hide V.Inv, Fine, After, V.After, Served;
    var x, g := xs[k], steps[k].h;
    assert Can(x, Complete(g)) && g in x.ring.reqs;
    hide Can;
    assert FineAt(xs, steps, k, g) && FineAt(xs, steps, k, h) && OtherBlocks(x, h, g);
    var m, n := LastRw(steps, k, h), LastRw(steps, k, g);
    BlockKept(xs[m], steps[m], x);
    BlockKept(xs[n], steps[n], x);
    ServedOther(xs[m], steps[m], xs[n], steps[n], x);
  }

  lemma NextApart(xs: seq<World>, steps: seq<Step>, k: nat, g: nat, h: nat)
    requires IsRun(xs, steps) && k < |steps| && Apart(xs[k]) && g != h
    requires g in xs[k + 1].ring.reqs && h in xs[k + 1].ring.reqs
    requires AllFine(xs, steps, k) && AllFine(xs, steps, k + 1)
    ensures OtherBlocks(xs[k + 1], g, h)
  {
    hide Fine, After, V.After, V.Enabled;
    var x, y, a := xs[k], xs[k + 1], steps[k];
    InFlight(x, a, g);
    InFlight(x, a, h);
    assert FineAt(xs, steps, k + 1, g) && FineAt(xs, steps, k + 1, h);
    BlockKept(xs[LastRw(steps, k + 1, g)], steps[LastRw(steps, k + 1, g)], y);
    BlockKept(xs[LastRw(steps, k + 1, h)], steps[LastRw(steps, k + 1, h)], y);
    if g in x.ring.reqs {
      assert FineAt(xs, steps, k, g);
      BlockKept(xs[LastRw(steps, k, g)], steps[LastRw(steps, k, g)], x);
    }
    if h in x.ring.reqs {
      assert FineAt(xs, steps, k, h);
      BlockKept(xs[LastRw(steps, k, h)], steps[LastRw(steps, k, h)], x);
    }
    if g in x.ring.reqs && h in x.ring.reqs { assert OtherBlocks(x, g, h); }
  }

  lemma {:induction false} RunFine(xs: seq<World>, steps: seq<Step>, k: nat)
    requires IsRun(xs, steps) && k <= |steps|
    ensures V.Inv(xs[k].ring) && Apart(xs[k]) && AllFine(xs, steps, k)
  {
    hide V.Inv, FineAt, OtherBlocks, V.Start;
    if k == 0 {
      V.StartInv();
      NoneYet();
    } else {
      RunFine(xs, steps, k - 1);
      RingStep(xs[k - 1], steps[k - 1]);
      hide Can, After;
      forall h | h in xs[k].ring.reqs ensures FineAt(xs, steps, k, h) { NextFine(xs, steps, k - 1, h); }
      forall g, h | g in xs[k].ring.reqs && h in xs[k].ring.reqs && g != h ensures OtherBlocks(xs[k], g, h) {
        NextApart(xs, steps, k - 1, g, h);
      }
    }
  }

  lemma NoneYet()
    ensures V.Start().reqs == map[]
  {
  }

  lemma RingStep(x: World, a: Step)
    requires Can(x, a) && V.Inv(x.ring)
    ensures V.Inv(After(x, a).ring)
  {
    hide V.Inv, V.After, V.Enabled, Served;
    if !a.Use? { V.StepKeeps(x.ring, OnRing(a)); }
    if a.Complete? { ServedRing(x, a.h); }
  }

  // ----- what the callers get -----

  lemma {:induction false} StillThere(xs: seq<World>, steps: seq<Step>, m: nat, k: nat)
    requires IsRun(xs, steps) && m < k <= |steps| && steps[m].Rw?
    requires forall j :: m < j < k ==> steps[j] != Finish(steps[m].h)
    ensures steps[m].h in xs[k].ring.reqs && LastRw(steps, k, steps[m].h) == m
    decreases k
  {
    hide Can, After, V.Inv, AllFine, Apart;
    var h := steps[m].h;
    InFlight(xs[k - 1], steps[k - 1], h);
    if k > m + 1 {
      StillThere(xs, steps, m, k - 1);
      RunFine(xs, steps, k - 1);
      NotAgain(xs[k - 1], steps[k - 1], h);
    }
  }

  lemma NotAgain(x: World, a: Step, h: nat)
    requires Can(x, a) && V.Inv(x.ring) && h in x.ring.reqs
    ensures !(a.Rw? && a.h == h)
  {
    V.FreesChain(x.ring, h);
    hide V.Inv;
  }

  /** The caller's buffer and block at the end. */
  lemma DoneIs(x0: World, c: Step, x: World)
    requires V.Inv(x.ring) && Fine(x0, c, x) && Can(x, Finish(c.h))
    ensures c.b in x.bufs && |x.disk| == |x0.disk|
    ensures var was, now := x0.bufs[c.b], x.bufs[c.b];
            && InRange(x0.disk, was.blockno) && now.blockno == was.blockno
            && BlockAt(x.disk, was.blockno) == now.data.bytes
            && now.data.bytes == if c.write then was.data.bytes else BlockAt(x0.disk, was.blockno)
  {
    V.ChainFacts(x.ring, c.h);
    hide V.Inv, V.Chain, BlockAt, Says;
    SameRange(x0.disk, x.disk, x0.bufs[c.b].blockno);
  }

  /** In every run: a call of virtio_disk_rw for buffer b, made at step m, that returns at step k
      has written the data b then held to the block, or has read into b what the block held
      when the call was made; the block lies on the disk. */
  lemma RwReturns(xs: seq<World>, steps: seq<Step>, m: nat, k: nat)
    requires IsRun(xs, steps) && m < k < |steps| && steps[m].Rw? && steps[k] == Finish(steps[m].h)
    requires forall j :: m < j < k ==> steps[j] != Finish(steps[m].h)
    ensures var b := steps[m].b;
            && b in xs[m].bufs && b in xs[k].bufs && |xs[k].disk| == |xs[m].disk|
            && var was, now := xs[m].bufs[b], xs[k].bufs[b];
            && InRange(xs[m].disk, was.blockno) && now.blockno == was.blockno
            && BlockAt(xs[k].disk, was.blockno) == now.data.bytes
            && now.data.bytes == if steps[m].write then was.data.bytes else BlockAt(xs[m].disk, was.blockno)
  {
    hide V.Inv, After, Can, LastRw, InRange, Says, Transferred, Untouched, BlockAt;
    StillThere(xs, steps, m, k);
    RunFine(xs, steps, k);
    assert FineAt(xs, steps, k, steps[m].h);
    hide Fine;
    DoneIs(xs[m], steps[m], xs[k]);
    SameRange(xs[m].disk, xs[k].disk, xs[m].bufs[steps[m].b].blockno);
  }

  /** In every run the disk changes only when the device completes a write, and then in that
      block. */
  lemma DiskChanges(xs: seq<World>, steps: seq<Step>, k: nat)
    requires IsRun(xs, steps) && k < |steps| && xs[k + 1].disk != xs[k].disk
    ensures steps[k].Complete? && LastRw(steps, k, steps[k].h) >= 0
    ensures var m := LastRw(steps, k, steps[k].h);
            && steps[m].write && steps[m].b in xs[m].bufs && InRange(xs[k].disk, xs[m].bufs[steps[m].b].blockno)
            && var was := xs[m].bufs[steps[m].b];
            xs[k + 1].disk == Put(xs[k].disk, BSIZE * was.blockno, was.data.bytes)
  {
    hide V.Inv, Served, V.After;
    RunFine(xs, steps, k);
    assert steps[k].Complete?;
    var h := steps[k].h;
    assert FineAt(xs, steps, k, h);
    var m := LastRw(steps, k, h);
    ServedIs(xs[m], steps[m], xs[k]);
  }

  /** In every run the interrupt handler finds a status other than 0, and panics, exactly for a
      request whose block is not on the disk. */
  lemma StatusPanics(xs: seq<World>, steps: seq<Step>, k: nat)
    requires IsRun(xs, steps) && k <= |steps| && V.Enabled(xs[k].ring, V.Intr)
    ensures var h := xs[k].ring.elems[xs[k].ring.usedIdx];
            && h < NUM && LastRw(steps, k, h) >= 0 && |xs[k].status| == NUM
            && var m := LastRw(steps, k, h);
            && steps[m].b in xs[m].bufs
            && (xs[k].status[h] != 0 <==> !InRange(xs[m].disk, xs[m].bufs[steps[m].b].blockno))
  {
    hide V.Inv, After;
    RunFine(xs, steps, k);
    V.IntrFinds(xs[k].ring);
    assert FineAt(xs, steps, k, xs[k].ring.elems[xs[k].ring.usedIdx]);
  }

  // ----- the code -----

  /** The driver with what its descriptors point to. */
  class Controller {
    const driver: V.Driver
    const target: array<Target>
    const status: array<byte>      // info[].status
    var bufs: map<nat, Buf>
    ghost var disk: seq<byte>      // the device's

    ghost function St(): (x: World)
      reads this, driver, target, status
    {
      World(driver.st, target[..], status[..], bufs, disk)
    }

    ghost predicate Ok()
      reads this, driver, driver.free, driver.chained, driver.next, driver.avail, driver.elems, driver.info, target,
            status
    {
      target.Length == NUM && status.Length == NUM && driver.Ok() && V.Inv(driver.st)
    }

    /** virtio_disk_init, with the buffers of the cache and the device's disk. */
    constructor (bufs: map<nat, Buf>, ghost disk: seq<byte>)
      ensures Ok() && St().ring == V.Start() && this.bufs == bufs && this.disk == disk
    {
      driver := new V.Driver();
      target, status := new Target[NUM](_ => Nothing), new byte[NUM](_ => 0);
      this.bufs, this.disk := bufs, disk;
    }

    /** virtio_disk_rw up to its wait: the three descriptors are filled in and the request posted,
        or, with fewer than three free, nothing is done and the caller sleeps. */
    method Rw(b: nat, write: bool) returns (ok: bool, h: int, ghost d1: nat, ghost d2: nat)
      requires Ok() && b in bufs && bufs[b].blockno < 0x8000_0000
      requires forall i :: i in driver.st.reqs ==> driver.st.reqs[i].buf != b
      requires forall i :: i in driver.st.reqs && driver.st.reqs[i].buf in bufs ==>
                 bufs[driver.st.reqs[i].buf].blockno != bufs[b].blockno
      modifies driver, driver.free, driver.chained, driver.next, driver.avail, driver.info, target, status
      ensures Ok()
      ensures !ok ==> St() == old(St()) && forall i, j, k :: 0 <= i < j < k < NUM ==>
                !(driver.st.free[i] && driver.st.free[j] && driver.st.free[k])
      ensures ok ==> h >= 0 && Can(old(St()), Step.Rw(b, write, h, d1, d2))
      ensures ok ==> St() == After(old(St()), Step.Rw(b, write, h, d1, d2))
    {
      hide V.Inv, Sector;
      var i1: int, i2: int;
      ok, h, i1, i2 := driver.Alloc3Desc();
      d1, d2 := 0, 0;
      if !ok { return; }
      d1, d2 := i1, i2;
      Fill(b, write, h, i1, i2);
      V.StepKeeps(driver.st, V.Submit(b, h, d1, d2));
      driver.Post(b, h, i1, i2);
    }

    /** What the three descriptors point to. */
    method Fill(b: nat, write: bool, h: nat, d1: nat, d2: nat)
      requires target.Length == NUM && status.Length == NUM && b in bufs
      requires h < NUM && d1 < NUM && d2 < NUM && h != d1 && h != d2 && d1 != d2
      modifies target, status
      ensures target[..] == old(target[..])[h := Header(write, Sector(bufs[b].blockno))][d1 := Payload(b, BSIZE,
              !write)]
                                           [d2 := StatusOf(h)]
      ensures status[..] == old(status[..])[h := 0]
    {
      target[h] := Header(write, bufs[b].blockno * (BSIZE / SECTOR) % UINT32);
      target[d1] := Payload(b, BSIZE, !write);
      status[h] := 0;
      target[d2] := StatusOf(h);
    }

    /** One turn of virtio_disk_intr's loop: nothing to handle, a panic, or one completion. */
    method Intr() returns (some: bool, panic: bool)
      requires Ok()
      modifies driver
      ensures Ok()
      ensures some || panic <==> V.Enabled(old(driver.st), V.Intr)
      ensures some ==> !panic && Can(old(St()), Step.Intr) && St() == After(old(St()), Step.Intr)
      ensures !some ==> St() == old(St())
      ensures panic ==> var h := driver.st.elems[driver.st.usedIdx]; h < NUM && status[h] != 0
    {
      hide V.Inv;
      panic := false;
      if driver.usedIdx % NUM == driver.usedId % NUM { return false, false; }
      V.IntrFinds(driver.st);
      V.ChainFacts(driver.st, driver.st.elems[driver.st.usedIdx]);
      if status[driver.elems[driver.usedIdx]] != 0 { return false, true; }
      some := driver.Intr();
    }

    /** virtio_disk_rw from the end of its wait. */
    method Finish(h: nat)
      requires Ok() && Can(St(), Step.Finish(h))
      modifies driver, driver.free, driver.info, target
      ensures Ok() && St() == After(old(St()), Step.Finish(h))
    {
      hide V.Inv, V.Freed;
      V.ChainFacts(driver.st, h);
      var i, j := driver.next[h], driver.next[driver.next[h]];
      target[h], target[i], target[j] := Nothing, Nothing, Nothing;
      driver.Finish(h);
    }
  }
}
