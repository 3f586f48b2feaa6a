/** The buffer cache (kernel/bio.c): NBUF buffers over one disk, on a doubly linked
    ring in most-recently-used order.  Buffers are named by their index in
    `bcache.buf`; index NBUF is the ring's head.

    `State` is the cache without its links, with functions for its atomic steps (critical
    sections of `bcache.lock` and actions of a buffer's lock holder); every interleaving of
    processes is a sequence of them.  Class `Cache` is the code. */
module BufferCache {
  import opened Param
  import opened Machine
  import opened Blocks
  import opened LogDisk

  datatype Buf = Buf(valid: bool, dev: nat, blockno: nat, locked: bool, refcnt: uint32, data: Block)

  /** `pins` counts bpin calls less bunpin calls, `waiting` the processes that counted
      themselves in bget and do not hold the sleep lock, `index` names the buffer
      caching a block, `order` is the ring from head.next. */
  datatype State = State(buf: seq<Buf>, disk: Disk, order: seq<nat>,
                         pins: seq<int>, waiting: seq<nat>, index: map<nat, nat>)

  // refcnt is unsigned: it wraps both ways.
  function Inc(r: uint32): (s: uint32) { if r == UINT32 - 1 then 0 else r + 1 }
  function Dec(r: uint32): (s: uint32) { if r == 0 then UINT32 - 1 else r - 1 }

  /** `order` lists every buffer once. */
  ghost predicate Permutation(order: seq<nat>)
    ensures Permutation(order) ==> |order| == NBUF
  {
    && |order| == NBUF
    && (forall k :: 0 <= k < NBUF ==> order[k] < NBUF)
    && (forall j, k :: 0 <= j < k < NBUF ==> order[j] != order[k])
    && (forall i: nat :: i < NBUF ==> i in order)
  }

  ghost predicate Shape(c: State) {
    && |c.buf| == NBUF && |c.pins| == NBUF && |c.waiting| == NBUF
    && Permutation(c.order)
  }

  /** An integer not far below zero as an unsigned 32-bit number. */
  function Unsigned(x: int): (r: int) { if x < 0 then x + UINT32 else x }

  function Holders(b: Buf): (n: nat) { if b.locked then 1 else 0 }

  /** refcnt is holders plus waiters plus pins, as an unsigned 32-bit number. */
  ghost predicate Counted(c: State)
    requires Shape(c)
  {
    && (forall i :: 0 <= i < NBUF ==> c.waiting[i] <= NPROC && -1 <= c.pins[i] <= LOGSIZE)
    && (forall i :: 0 <= i < NBUF ==>
          c.buf[i].refcnt == Unsigned(Holders(c.buf[i]) + c.waiting[i] + c.pins[i]))
  }

  /** A buffer counted zero is in nobody's hands. */
  ghost predicate Honest(c: State)
    requires Shape(c)
  {
    forall i :: 0 <= i < NBUF && c.buf[i].refcnt == 0 ==> !c.buf[i].locked && c.waiting[i] == 0 && c.pins[i] == 0
  }

  /** No block has two buffers: `index` is a function, and inverts the buffers' keys. */
  ghost predicate Unique(c: State)
    requires Shape(c)
  {
    && (forall b :: b in c.index ==>
          c.index[b] < NBUF && c.buf[c.index[b]].dev == ROOTDEV && c.buf[c.index[b]].blockno == b)
    && (forall i :: 0 <= i < NBUF && c.buf[i].dev == ROOTDEV ==>
          c.buf[i].blockno < |c.disk| && c.buf[i].blockno in c.index && c.index[c.buf[i].blockno] == i)
  }

  /** A buffer that differs from the disk is held or pinned. */
  ghost predicate Clean(c: State)
    requires Shape(c) && Unique(c)
  {
    forall i :: 0 <= i < NBUF && c.buf[i].dev == ROOTDEV && c.buf[i].valid && !c.buf[i].locked && c.pins[i] <= 0 ==>
      c.buf[i].data == c.disk[c.buf[i].blockno]
  }

  ghost predicate Inv(c: State)
    ensures Inv(c) ==> Shape(c) && Unique(c)
  {
    Shape(c) && Counted(c) && Unique(c) && Clean(c)
  }

  /** The plain block map the cache stands for. */
  ghost function View(c: State, b: nat): (v: Block)
    requires Shape(c) && Unique(c) && b < |c.disk|
  {
    if b in c.index && c.buf[c.index[b]].valid then c.buf[c.index[b]].data else c.disk[b]
  }

  ghost predicate SameView(c: State, e: State)
    requires Shape(c) && Unique(c) && Shape(e) && Unique(e)
  {
    |c.disk| == |e.disk| && forall b :: 0 <= b < |c.disk| ==> View(c, b) == View(e, b)
  }

  /** The whole block map. */
  ghost function Map(c: State): (m: Disk)
    requires Shape(c) && Unique(c)
    ensures |m| == |c.disk|
  {
    seq(|c.disk|, b requires 0 <= b < |c.disk| => View(c, b))
  }

  lemma SameViewSameMap(c: State, e: State)
    requires Inv(c) && Inv(e) && SameView(c, e)
    ensures Map(c) == Map(e)
  {
  }

  ghost predicate HasFree(c: State) { exists i :: 0 <= i < |c.buf| && c.buf[i].refcnt == 0 }

  /** Buffer i is uncounted, and every buffer behind it in the ring is counted. */
  ghost predicate LeastRecent(c: State, i: nat)
    requires Shape(c)
  {
    && i < NBUF && c.buf[i].refcnt == 0
    && forall k :: Position(c.order, i) < k < NBUF ==> c.buf[c.order[k]].refcnt != 0
  }

  /** The least recently used uncounted buffer, or -1. */
  function FindUnused(c: State): (i: int)
    requires Shape(c)
    ensures i == -1 <==> !HasFree(c)
    ensures i >= 0 ==> LeastRecent(c, i)
  {
    RingCoversFree(c);
    UnusedFrom(c, NBUF)
  }

  lemma RingCoversFree(c: State)
    requires Shape(c)
    ensures HasFree(c) ==> exists k :: 0 <= k < NBUF && c.buf[c.order[k]].refcnt == 0
  {
    if HasFree(c) {
      var i: nat :| i < NBUF && c.buf[i].refcnt == 0;
      var k := Position(c.order, i);
    }
  }

  function UnusedFrom(c: State, k: nat): (i: int)
    requires Shape(c) && k <= NBUF
    requires forall j :: k <= j < NBUF ==> c.buf[c.order[j]].refcnt != 0
    ensures i == -1 ==> forall j :: 0 <= j < NBUF ==> c.buf[c.order[j]].refcnt != 0
    ensures i != -1 ==> i >= 0 && LeastRecent(c, i)
  {
    if k == 0 then -1
    else if c.buf[c.order[k - 1]].refcnt == 0 then c.order[k - 1]
    else UnusedFrom(c, k - 1)
  }

  /** The cache binit makes: nothing cached, counted or locked, buffer 0 last in the ring. */
  function Empty(d: Disk): (c: State) {
    State(seq(NBUF, i => Buf(false, 0, 0, false, 0, ZERO)), d, seq(NBUF, k requires 0 <= k < NBUF => NBUF - 1 - k),
          seq(NBUF, i => 0), seq(NBUF, i => 0), map[])
  }

  // ----- the atomic steps -----

  /** bget, block cached in buffer i. */
  function Count(c: State, i: nat): (r: State)
    requires Shape(c) && i < NBUF
  {
    c.(buf := c.buf[i := c.buf[i].(refcnt := Inc(c.buf[i].refcnt))], waiting := c.waiting[i := c.waiting[i] + 1])
  }

  function Forget(c: State, i: nat): (m: map<nat, nat>)
    requires Shape(c) && i < NBUF
  {
    if c.buf[i].dev == ROOTDEV then c.index - {c.buf[i].blockno} else c.index
  }

  /** bget, block not cached, recycling buffer i. */
  function Recycle(c: State, i: nat, blockno: nat): (r: State)
    requires Shape(c) && i < NBUF
  {
    c.(buf := c.buf[i := c.buf[i].(dev := ROOTDEV, blockno := blockno, valid := false, refcnt := 1)],
       waiting := c.waiting[i := 1],
       index := Forget(c, i)[blockno := i])
  }

  /** acquiresleep on buffer i, and the disk read of bread when it is not valid. */
  function Hold(c: State, i: nat): (r: State)
    requires Shape(c) && i < NBUF && c.waiting[i] > 0 && c.buf[i].blockno < |c.disk|
  {
    var b := c.buf[i];
    c.(buf := c.buf[i := b.(locked := true, valid := true,
                            data := if b.valid then b.data else c.disk[b.blockno])],
       waiting := c.waiting[i := c.waiting[i] - 1])
  }

  /** bread of a block by a process that meets no contention, ending up with buffer i. */
  function Fetch(c: State, i: nat, blockno: nat): (r: State)
    requires Shape(c) && i < NBUF && blockno < |c.disk|
    requires blockno in c.index ==> c.index[blockno] == i && c.buf[i].blockno == blockno
  {
    Hold(if blockno in c.index then Count(c, i) else Recycle(c, i, blockno), i)
  }

  /** The holder overwrites the data. */
  function Modify(c: State, i: nat, data: Block): (r: State)
    requires Shape(c) && i < NBUF
  {
    c.(buf := c.buf[i := c.buf[i].(data := data)])
  }

  /** bwrite. */
  function Write(c: State, i: nat): (r: State)
    requires Shape(c) && i < NBUF && c.buf[i].blockno < |c.disk|
  {
    c.(disk := c.disk[c.buf[i].blockno := c.buf[i].data])
  }

  function ToFront(order: seq<nat>, k: nat): (r: seq<nat>)
    requires k < |order|
  {
    [order[k]] + order[..k] + order[k + 1..]
  }

  /** Where buffer i is in the ring. */
  function Position(order: seq<nat>, i: nat): (k: nat)
    requires Permutation(order) && i < NBUF
    ensures k < NBUF && order[k] == i
  {
    assert i in order;
    var k: nat :| k < NBUF && order[k] == i;
    k
  }

  /** brelse. */
  function Release(c: State, i: nat): (r: State)
    requires Shape(c) && i < NBUF
  {
    var n := Dec(c.buf[i].refcnt);
    c.(buf := c.buf[i := c.buf[i].(locked := false, refcnt := n)],
       order := if n == 0 then ToFront(c.order, Position(c.order, i)) else c.order)
  }

  function Pin(c: State, i: nat): (r: State)
    requires Shape(c) && i < NBUF
  {
    c.(buf := c.buf[i := c.buf[i].(refcnt := Inc(c.buf[i].refcnt))], pins := c.pins[i := c.pins[i] + 1])
  }

  function Unpin(c: State, i: nat): (r: State)
    requires Shape(c) && i < NBUF
  {
    c.(buf := c.buf[i := c.buf[i].(refcnt := Dec(c.buf[i].refcnt))], pins := c.pins[i := c.pins[i] - 1])
  }

  // ----- every step keeps the invariant and the block map -----

  lemma Owner(c: State, b: nat)
    requires Shape(c) && Unique(c) && b in c.index
    ensures b < |c.disk| && c.index[b] < NBUF
    ensures c.buf[c.index[b]].dev == ROOTDEV && c.buf[c.index[b]].blockno == b
  {
  }

  lemma CountKeeps(c: State, i: nat)
    requires Inv(c) && i < NBUF && c.waiting[i] < NPROC
    ensures Inv(Count(c, i)) && SameView(c, Count(c, i))
  {
  }

  /** Recycling loses nothing: an uncounted buffer equals the disk. */
  lemma RecycleKeeps(c: State, i: nat, blockno: nat)
    requires Inv(c) && Honest(c) && i < NBUF && c.buf[i].refcnt == 0
    requires blockno < |c.disk| && blockno !in c.index
    ensures Inv(Recycle(c, i, blockno)) && SameView(c, Recycle(c, i, blockno))
  {
    RecycleInv(c, i, blockno);
    var r := Recycle(c, i, blockno);
    hide Counted, Permutation;
    forall b | 0 <= b < |c.disk| ensures View(r, b) == View(c, b) {
      if b in c.index && c.index[b] == i {
        assert b !in Forget(c, i);
      }
    }
  }

  lemma RecycleUnique(c: State, i: nat, blockno: nat)
    requires Shape(c) && Unique(c) && i < NBUF && blockno < |c.disk| && blockno !in c.index
    ensures Shape(Recycle(c, i, blockno)) && Unique(Recycle(c, i, blockno))
  {
    hide Permutation;
  }

  lemma RecycleInv(c: State, i: nat, blockno: nat)
    requires Inv(c) && Honest(c) && i < NBUF && c.buf[i].refcnt == 0
    requires blockno < |c.disk| && blockno !in c.index
    ensures Inv(Recycle(c, i, blockno))
  {
  }

  lemma HoldKeeps(c: State, i: nat)
    requires Inv(c) && i < NBUF && c.waiting[i] > 0 && !c.buf[i].locked && c.buf[i].dev == ROOTDEV
    ensures Inv(Hold(c, i)) && SameView(c, Hold(c, i))
    ensures c.buf[i].blockno < |c.disk| && Hold(c, i).buf[i].data == View(c, c.buf[i].blockno)
  {
  }

  /** Only the holder's own block changes. */
  lemma ModifyKeeps(c: State, i: nat, data: Block)
    requires Inv(c) && i < NBUF && c.buf[i].dev == ROOTDEV && c.buf[i].locked && c.buf[i].valid
    ensures Inv(Modify(c, i, data))
    ensures forall b :: 0 <= b < |c.disk| ==>
              View(Modify(c, i, data), b) == if b == c.buf[i].blockno then data else View(c, b)
  {
  }

  lemma WriteKeeps(c: State, i: nat)
    requires Inv(c) && i < NBUF && c.buf[i].dev == ROOTDEV && c.buf[i].locked && c.buf[i].valid
    ensures Inv(Write(c, i)) && SameView(c, Write(c, i))
  {
    var r := Write(c, i);
    assert forall j :: 0 <= j < NBUF && j != i && c.buf[j].dev == ROOTDEV ==> c.buf[j].blockno != c.buf[i].blockno;
  }

  lemma ToFrontPermutes(order: seq<nat>, k: nat)
    requires Permutation(order) && k < NBUF
    ensures Permutation(ToFront(order, k))
  {
    var r := ToFront(order, k);
    forall i: nat | i < NBUF ensures i in r {
      var j := Position(order, i);
      assert r[if j < k then j + 1 else if j == k then 0 else j] == i;
    }
  }

  /** The holder may let go once the buffer is logged (pinned) or equals the disk. */
  lemma ReleaseKeeps(c: State, i: nat)
    requires Inv(c) && i < NBUF && c.buf[i].dev == ROOTDEV && c.buf[i].locked && c.buf[i].valid
    requires c.pins[i] > 0 || c.buf[i].data == c.disk[c.buf[i].blockno]
    ensures Inv(Release(c, i)) && SameView(c, Release(c, i))
  {
    hide Permutation, ToFront, Position, Counted, Unique, Clean, SameView;
    ReleaseShape(c, i);
    hide Release;
    ReleaseUnique(c, i);
    ReleaseCounted(c, i);
    ReleaseClean(c, i);
  }

  lemma ReleaseShape(c: State, i: nat)
    requires Shape(c) && i < NBUF
    ensures Shape(Release(c, i))
  {
    hide Permutation, ToFront;
    ToFrontPermutes(c.order, Position(c.order, i));
  }

  lemma ReleaseUnique(c: State, i: nat)
    requires Shape(c) && Unique(c) && i < NBUF && Shape(Release(c, i))
    ensures Unique(Release(c, i)) && SameView(c, Release(c, i))
  {
    hide Permutation, ToFront, Position, Dec;
  }

  lemma ReleaseCounted(c: State, i: nat)
    requires Shape(c) && Counted(c) && i < NBUF && Shape(Release(c, i)) && c.buf[i].locked
    ensures Counted(Release(c, i))
  {
    hide Permutation, ToFront, Position;
  }

  lemma ReleaseClean(c: State, i: nat)
    requires Shape(c) && Unique(c) && Clean(c) && i < NBUF && Shape(Release(c, i)) && Unique(Release(c, i))
    requires c.pins[i] > 0 || (c.buf[i].dev == ROOTDEV ==> c.buf[i].data == c.disk[c.buf[i].blockno])
    ensures Clean(Release(c, i))
  {
    hide Permutation, ToFront, Position, Dec, Unique;
  }

  lemma PinKeeps(c: State, i: nat)
    requires Inv(c) && i < NBUF && c.pins[i] < LOGSIZE
    ensures Inv(Pin(c, i)) && SameView(c, Pin(c, i))
  {
  }

  lemma UnpinKeeps(c: State, i: nat)
    requires Inv(c) && i < NBUF && c.pins[i] > -1 && c.buf[i].locked
    ensures Inv(Unpin(c, i)) && SameView(c, Unpin(c, i))
  {
  }

  // ----- the code -----

  /** The k-th buffer of the ring; one step off either end is the head. */
  function At(order: seq<nat>, k: int): (i: nat)
    requires |order| == NBUF && -1 <= k <= NBUF
  {
    if 0 <= k < NBUF then order[k] else NBUF
  }

  /** Following `next` from the head visits `order`; following `prev` visits it backwards. */
  ghost predicate Ring(next: seq<nat>, prev: seq<nat>, order: seq<nat>) {
    && |next| == NBUF + 1 && |prev| == NBUF + 1 && Permutation(order)
    && (forall k :: -1 <= k < NBUF ==> next[At(order, k)] == At(order, k + 1))
    && (forall k :: 0 <= k <= NBUF ==> prev[At(order, k)] == At(order, k - 1))
  }

  /** Inserting 0, 1, 2, ... at the head leaves them in reverse. */
  lemma ReverseRing(next: seq<nat>, prev: seq<nat>, order: seq<nat>)
    requires |next| == NBUF + 1 && |prev| == NBUF + 1 && |order| == NBUF
    requires forall k :: 0 <= k < NBUF ==> order[k] == NBUF - 1 - k
    requires next[NBUF] == NBUF - 1 && prev[NBUF] == 0
    requires forall j :: 0 <= j < NBUF ==> next[j] == if j == 0 then NBUF else j - 1
    requires forall j :: 0 <= j < NBUF ==> prev[j] == if j == NBUF - 1 then NBUF else j + 1
    ensures Ring(next, prev, order)
  {
    forall j: nat | j < NBUF ensures j in order {
      assert order[NBUF - 1 - j] == j;
    }
  }

  lemma Links(next: seq<nat>, prev: seq<nat>, order: seq<nat>, k: nat)
    requires Ring(next, prev, order) && k < NBUF
    ensures next[order[k]] == At(order, k + 1) && prev[order[k]] == At(order, k - 1)
    ensures next[NBUF] == order[0]
  {
    assert next[At(order, k)] == At(order, k + 1) && prev[At(order, k)] == At(order, k - 1);
    assert next[At(order, -1)] == At(order, 0);
  }

  /** The six assignments of brelse on the links of the k-th buffer. */
  ghost predicate Relinked(next: seq<nat>, prev: seq<nat>, order: seq<nat>, k: nat, next': seq<nat>, prev': seq<nat>)
    requires Ring(next, prev, order) && k < NBUF && next[NBUF] == order[0]
  {
    var i, n, p := order[k], At(order, k + 1), At(order, k - 1);
    var h := next[p := n][NBUF];
    && next' == next[p := n][i := h][NBUF := i]
    && prev' == prev[n := p][i := NBUF][h := i]
  }

  /** They take the buffer out and put it back in front. */
  lemma Relink(next: seq<nat>, prev: seq<nat>, order: seq<nat>, k: nat, next': seq<nat>, prev': seq<nat>)
    requires Ring(next, prev, order) && k < NBUF && next[NBUF] == order[0]
    requires Relinked(next, prev, order, k, next', prev')
    ensures Ring(next', prev', ToFront(order, k))
  {
    ToFrontPermutes(order, k);
    forall m | -1 <= m < NBUF ensures next'[At(ToFront(order, k), m)] == At(ToFront(order, k), m + 1) {
      RelinkNext(next, prev, order, k, next', prev', m);
    }
    forall m | 0 <= m <= NBUF ensures prev'[At(ToFront(order, k), m)] == At(ToFront(order, k), m - 1) {
      RelinkPrev(next, prev, order, k, next', prev', m);
    }
  }

  lemma RelinkNext(next: seq<nat>, prev: seq<nat>, order: seq<nat>, k: nat, next': seq<nat>, prev': seq<nat>, m: int)
    requires Ring(next, prev, order) && k < NBUF && next[NBUF] == order[0] && -1 <= m < NBUF
    requires Relinked(next, prev, order, k, next', prev')
    ensures next'[At(ToFront(order, k), m)] == At(ToFront(order, k), m + 1)
  {
    assert 0 < m <= k ==> next[At(order, m - 1)] == At(order, m);
    assert k < m ==> next[At(order, m)] == At(order, m + 1);
  }

  lemma RelinkPrev(next: seq<nat>, prev: seq<nat>, order: seq<nat>, k: nat, next': seq<nat>, prev': seq<nat>, m: int)
    requires Ring(next, prev, order) && k < NBUF && next[NBUF] == order[0] && 0 <= m <= NBUF
    requires Relinked(next, prev, order, k, next', prev')
    ensures prev'[At(ToFront(order, k), m)] == At(ToFront(order, k), m - 1)
  {
    assert 0 < m <= k ==> prev[At(order, m - 1)] == At(order, m - 2);
    assert k < m ==> prev[At(order, m)] == At(order, m - 1);
  }

  class Cache {
    const buf: array<Buf>
    const next: array<nat>
    const prev: array<nat>
    var disk: Disk
    ghost var st: State
    ghost var trace: seq<Disk>  // the disk after every write so far

    /** The fields are those of `st`, and no block has two buffers. */
    ghost predicate Valid()
      reads this, buf, next, prev
      ensures Valid() ==> Shape(st) && Unique(st) && st.disk == disk
    {
      && next != prev && st.buf == buf[..] && st.disk == disk
      && Shape(st) && Unique(st) && Ring(next[..], prev[..], st.order)
    }

    /** binit, over a disk. */
    constructor (d: Disk)
      ensures Valid() && Inv(st) && fresh(buf) && fresh(next) && fresh(prev)
      ensures st == Empty(d) && trace == []
    {
      buf := new Buf[NBUF](_ => Buf(false, 0, 0, false, 0, ZERO));
      next := new nat[NBUF + 1](_ => NBUF);
      prev := new nat[NBUF + 1](_ => NBUF);
      disk, trace := d, [];
      st := Empty(d);
      new;
      var b := 0;
      while b < NBUF
        modifies next, prev
        invariant 0 <= b <= NBUF
        invariant next[NBUF] == if b == 0 then NBUF else b - 1
        invariant prev[NBUF] == if b == 0 then NBUF else 0
        invariant forall j :: 0 <= j < b ==> next[j] == if j == 0 then NBUF else j - 1
        invariant forall j :: 0 <= j < b ==> prev[j] == if j == b - 1 then NBUF else j + 1
      {
        next[b] := next[NBUF];
        prev[b] := NBUF;
        prev[next[NBUF]] := b;
        next[NBUF] := b;
        b := b + 1;
      }
      ReverseRing(next[..], prev[..], st.order);
      hide Ring, Permutation;
    }

    /** bget's first loop, forwards from the head: NBUF when the block is not cached. */
    method FindCached(blockno: nat) returns (b: nat)
      requires Valid()
      ensures b <= NBUF
      ensures b < NBUF <==> blockno in st.index
      ensures b < NBUF ==> b == st.index[blockno]
    {
      b := next[NBUF];
      ghost var order, k := st.order, 0;
      assert b == At(order, 0) by { assert next[..][At(order, -1)] == At(order, 0); }
      while b != NBUF
        invariant 0 <= k <= NBUF && b == At(order, k)
        invariant forall m :: 0 <= m < k ==> !(buf[order[m]].dev == ROOTDEV && buf[order[m]].blockno == blockno)
        decreases NBUF - k
      {
        if buf[b].dev == ROOTDEV && buf[b].blockno == blockno {
          return b;
        }
        assert next[..][At(order, k)] == At(order, k + 1);
        b := next[b];
        k := k + 1;
      }
      if blockno in st.index { ghost var m := Position(order, st.index[blockno]); }
    }

    /** bget's second loop, backwards from the head: the least recently used buffer
        that nobody counts on, or NBUF. */
    method FindUnused() returns (b: nat)
      requires Valid()
      ensures b <= NBUF
      ensures b < NBUF <==> HasFree(st)
      ensures b < NBUF ==> LeastRecent(st, b)
    {
      b := prev[NBUF];
      ghost var order, k := st.order, NBUF - 1;
      assert b == At(order, k) by { assert prev[..][At(order, NBUF)] == At(order, NBUF - 1); }
      while b != NBUF
        invariant -1 <= k < NBUF && b == At(order, k)
        invariant forall m :: k < m < NBUF ==> buf[order[m]].refcnt != 0
        decreases k + 1
      {
        if buf[b].refcnt == 0 {
          return b;
        }
        assert prev[..][At(order, k)] == At(order, k - 1);
        b := prev[b];
        k := k - 1;
      }
      forall i: nat | i < NBUF ensures buf[i].refcnt != 0 {
        var m := Position(order, i);
      }
    }

    /** bget up to its `release(&bcache.lock)`; -1 stands for the panic.  A cached
        block's buffer is counted; otherwise the least recently used buffer nobody
        counts on is recycled; the panic happens exactly when there is none. */
    method Bget(blockno: nat) returns (r: int)
      requires Valid() && blockno < |disk|
      modifies buf, this`st
      ensures Valid() && -1 <= r < NBUF
      ensures r == -1 <==> blockno !in old(st).index && !HasFree(old(st))
      ensures r == -1 ==> st == old(st)
      ensures blockno in old(st).index ==> r == old(st).index[blockno] && st == Count(old(st), r)
      ensures blockno !in old(st).index && r >= 0 ==> LeastRecent(old(st), r) && st == Recycle(old(st), r, blockno)
    {
      var b := FindCached(blockno);
      if b != NBUF {
        buf[b] := buf[b].(refcnt := Inc(buf[b].refcnt));
        st := Count(st, b);
        return b;
      }
      b := FindUnused();
      if b == NBUF { return -1; }
      RecycleUnique(st, b, blockno);
      buf[b] := buf[b].(dev := ROOTDEV, blockno := blockno, valid := false, refcnt := 1);
      st := Recycle(st, b, blockno);
      return b;
    }

    /** acquiresleep by a process bget has counted, and bread's disk read. */
    method Acquire(i: nat)
      requires Valid() && i < NBUF && st.waiting[i] > 0 && !st.buf[i].locked && st.buf[i].dev == ROOTDEV
      modifies buf, this`st
      ensures Valid() && st == Hold(old(st), i)
      ensures st.buf[i].data == View(old(st), old(st).buf[i].blockno)
    {
      st := Hold(st, i);
      buf[i] := buf[i].(locked := true);
      if !buf[i].valid {
        buf[i] := buf[i].(data := disk[buf[i].blockno], valid := true);
      }
    }

    /** bread when nobody else has the buffer locked: a locked buffer holding the block's
        latest contents. */
    method Bread(blockno: nat) returns (r: int)
      requires Valid() && blockno < |disk|
      requires blockno in st.index ==> !st.buf[st.index[blockno]].locked
      requires forall i :: 0 <= i < NBUF && st.buf[i].refcnt == 0 ==> !st.buf[i].locked
      modifies buf, this`st
      ensures Valid() && -1 <= r < NBUF
      ensures r == -1 <==> blockno !in old(st).index && !HasFree(old(st))
      ensures r == -1 ==> st == old(st)
      ensures blockno in old(st).index ==> r == old(st).index[blockno]
      ensures blockno !in old(st).index && r >= 0 ==> LeastRecent(old(st), r)
      ensures r >= 0 ==> st == Fetch(old(st), r, blockno) && st.buf[r].data == View(old(st), blockno)
    {
      r := Bget(blockno);
      if r >= 0 {
        Acquire(r);
      }
    }

    /** The holder reads b->data. */
    method Data(i: nat) returns (data: Block)
      requires Valid() && i < NBUF
      ensures data == st.buf[i].data
    {
      data := buf[i].data;
    }

    /** The holder's write to b->data. */
    method SetData(i: nat, data: Block)
      requires Valid() && i < NBUF
      modifies buf, this`st
      ensures Valid() && st == Modify(old(st), i, data)
    {
      buf[i] := buf[i].(data := data);
      st := Modify(st, i, data);
    }

    /** bwrite: it panics exactly when the buffer is not locked. */
    method Bwrite(i: nat) returns (ok: bool)
      requires Valid() && i < NBUF && st.buf[i].dev == ROOTDEV
      modifies this
      ensures Valid() && (ok <==> old(st).buf[i].locked)
      ensures !ok ==> st == old(st) && trace == old(trace)
      ensures ok ==> st == Write(old(st), i) && trace == old(trace) + [disk]
    {
      if !buf[i].locked { return false; }
      disk := disk[buf[i].blockno := buf[i].data];
      trace := trace + [disk];
      st := Write(st, i);
      return true;
    }

    method Bpin(i: nat)
      requires Valid() && i < NBUF
      modifies buf, this`st
      ensures Valid() && st == Pin(old(st), i)
    {
      buf[i] := buf[i].(refcnt := Inc(buf[i].refcnt));
      st := Pin(st, i);
    }

    method Bunpin(i: nat)
      requires Valid() && i < NBUF
      modifies buf, this`st
      ensures Valid() && st == Unpin(old(st), i)
    {
      buf[i] := buf[i].(refcnt := Dec(buf[i].refcnt));
      st := Unpin(st, i);
    }

    /** The ring part of brelse. */
    method MoveToFront(i: nat, ghost k: nat)
      requires next != prev && Ring(next[..], prev[..], st.order) && k < NBUF && i == st.order[k]
      modifies next, prev
      ensures Ring(next[..], prev[..], ToFront(st.order, k))
    {
      ghost var n0, p0 := next[..], prev[..];
      Links(n0, p0, st.order, k);
      prev[next[i]] := prev[i];
      next[prev[i]] := next[i];
      next[i] := next[NBUF];
      prev[i] := NBUF;
      prev[next[NBUF]] := i;
      next[NBUF] := i;
      Relink(n0, p0, st.order, k, next[..], prev[..]);
    }

    /** brelse: unlock, uncount, and at count zero move to the front of the ring; it panics
        exactly when the buffer is not locked. */
    method Brelse(i: nat) returns (ok: bool)
      requires Valid() && i < NBUF
      modifies buf, next, prev, this`st
      ensures Valid() && (ok <==> old(st).buf[i].locked)
      ensures st == if ok then Release(old(st), i) else old(st)
    {
      if !buf[i].locked { return false; }
      ToFrontPermutes(st.order, Position(st.order, i));
      buf[i] := buf[i].(locked := false, refcnt := Dec(buf[i].refcnt));
      if buf[i].refcnt == 0 {
        MoveToFront(i, Position(st.order, i));
      }
      st := Release(st, i);
      return true;
    }
  }
}
