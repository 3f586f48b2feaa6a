/** The code of commit and recovery over the buffer cache (kernel/log.c), for a process that
    is alone in the cache.  `recover_from_log` is, at boot.  `commit` runs with no operation
    open, but readers may be in the cache: module Journal has them. */
module Log {
  import opened Param
  import opened Machine
  import opened Blocks
  import opened LogDisk
  import opened BufferCache
  import opened Counting

  /** Buffer i caches one of the blocks `bs`. */
  ghost predicate Caches(c: State, i: nat, bs: set<nat>)
    requires Shape(c) && i < NBUF
  {
    c.buf[i].dev == ROOTDEV && c.buf[i].blockno in bs
  }

  /** Buffer i in the eyes of a lone process that has locked the blocks `held`, where
      `pin` gives each block's bpin calls less its bunpin calls, if not zero. */
  ghost predicate BufTidy(c: State, i: nat, pin: map<nat, int>, held: set<nat>)
    requires Shape(c) && i < NBUF
  {
    && c.waiting[i] == 0
    && (c.buf[i].locked <==> Caches(c, i, held))
    && c.pins[i] == (if Caches(c, i, pin.Keys) then pin[c.buf[i].blockno] else 0)
    && (Caches(c, i, pin.Keys + held) ==> c.buf[i].valid)
  }

  ghost predicate Tidy(c: State, pin: map<nat, int>, held: set<nat>)
    ensures Tidy(c, pin, held) ==> Inv(c)
    ensures Tidy(c, pin, held) ==> forall b :: b in pin.Keys + held ==>
            b in c.index && c.index[b] < NBUF && b < |c.disk|
  {
    && Inv(c)
    && (forall i: nat :: i < NBUF ==> BufTidy(c, i, pin, held))
    && (forall b :: b in pin ==> pin[b] == 1 || pin[b] == -1)
    && pin.Keys + held <= c.index.Keys
  }

  /** Nothing held has been unpinned below zero. */
  ghost predicate NoDebt(pin: map<nat, int>, held: set<nat>) {
    forall b :: b in pin && b in held ==> pin[b] == 1
  }

  lemma TidyIsHonest(c: State, pin: map<nat, int>, held: set<nat>)
    requires Tidy(c, pin, held) && NoDebt(pin, held)
    ensures Honest(c)
    ensures forall i :: 0 <= i < NBUF ==> (c.buf[i].refcnt == 0 <==> !Caches(c, i, pin.Keys + held))
  {
    forall i: nat | i < NBUF
      ensures c.buf[i].refcnt == 0 <==> !Caches(c, i, pin.Keys + held)
      ensures c.buf[i].refcnt == 0 ==> !c.buf[i].locked && c.waiting[i] == 0 && c.pins[i] == 0
    {
      assert BufTidy(c, i, pin, held);
    }
  }

  lemma TidyFetch(c: State, pin: map<nat, int>, held: set<nat>, i: nat, b: nat)
    requires Tidy(c, pin, held) && NoDebt(pin, held) && b < |c.disk| && b !in held && i < NBUF
    requires if b in c.index then i == c.index[b] else c.buf[i].refcnt == 0
    ensures Tidy(Fetch(c, i, b), pin, held + {b})
    ensures Fetch(c, i, b).index[b] == i && SameView(c, Fetch(c, i, b))
    ensures b !in pin ==> View(c, b) == c.disk[b]
  {
    TidyIsHonest(c, pin, held);
    if b in c.index {
      TidyFetchCached(c, pin, held, b);
    } else {
      TidyFetchFresh(c, pin, held, i, b);
    }
  }

  lemma TidyFetchCached(c: State, pin: map<nat, int>, held: set<nat>, b: nat)
    requires Tidy(c, pin, held) && NoDebt(pin, held) && b in c.index && b !in held
    ensures Tidy(Fetch(c, c.index[b], b), pin, held + {b})
    ensures SameView(c, Fetch(c, c.index[b], b))
  {
    hide Inv, Unique, Permutation;
    var i := c.index[b];
    Owner(c, b);
    assert BufTidy(c, i, pin, held);
    CountKeeps(c, i);
    HoldKeeps(Count(c, i), i);
    var e := Fetch(c, i, b);
    forall j: nat | j < NBUF ensures BufTidy(e, j, pin, held + {b}) {
      OnlyOwner(c, j, b);
      assert BufTidy(c, j, pin, held);
    }
  }

  lemma TidyFetchFresh(c: State, pin: map<nat, int>, held: set<nat>, i: nat, b: nat)
    requires Tidy(c, pin, held) && NoDebt(pin, held) && Honest(c)
    requires b < |c.disk| && b !in c.index && b !in held && i < NBUF && c.buf[i].refcnt == 0
    ensures Tidy(Fetch(c, i, b), pin, held + {b})
    ensures SameView(c, Fetch(c, i, b))
  {
    hide Inv, Unique, Permutation;
    assert BufTidy(c, i, pin, held);
    RecycleKeeps(c, i, b);
    HoldKeeps(Recycle(c, i, b), i);
    var e := Fetch(c, i, b);
    forall j: nat | j < NBUF ensures BufTidy(e, j, pin, held + {b}) {
      NoOwner(c, j, b);
      assert BufTidy(c, j, pin, held);
    }
    assert pin.Keys + held <= Forget(c, i).Keys;
  }

  lemma NoOwner(c: State, j: nat, b: nat)
    requires Shape(c) && Unique(c) && j < NBUF && b !in c.index
    ensures !(c.buf[j].dev == ROOTDEV && c.buf[j].blockno == b)
  {
  }

  lemma OnlyOwner(c: State, j: nat, b: nat)
    requires Shape(c) && Unique(c) && j < NBUF && b in c.index
    ensures c.buf[j].dev == ROOTDEV && c.buf[j].blockno == b <==> j == c.index[b]
  {
  }

  lemma TidyModify(c: State, pin: map<nat, int>, held: set<nat>, b: nat, data: Block)
    requires Tidy(c, pin, held) && b in held
    ensures Tidy(Modify(c, c.index[b], data), pin, held)
  {
    hide Inv, Unique, Permutation;
    var i := c.index[b];
    OnlyOwner(c, i, b);
    assert BufTidy(c, i, pin, held);
    ModifyKeeps(c, i, data);
    var e := Modify(c, i, data);
    forall j: nat | j < NBUF ensures BufTidy(e, j, pin, held) {
      OnlyOwner(c, j, b);
      assert BufTidy(c, j, pin, held);
    }
  }

  lemma TidyWrite(c: State, pin: map<nat, int>, held: set<nat>, b: nat)
    requires Tidy(c, pin, held) && b in held
    ensures Tidy(Write(c, c.index[b]), pin, held)
  {
    hide Inv, Unique, Permutation;
    var i := c.index[b];
    OnlyOwner(c, i, b);
    assert BufTidy(c, i, pin, held);
    WriteKeeps(c, i);
    var e := Write(c, i);
    forall j: nat | j < NBUF ensures BufTidy(e, j, pin, held) {
      OnlyOwner(c, j, b);
      assert BufTidy(c, j, pin, held);
    }
  }

  lemma TidyRelease(c: State, pin: map<nat, int>, held: set<nat>, b: nat)
    requires Tidy(c, pin, held) && b in held
    requires (b in pin && pin[b] == 1) || c.buf[c.index[b]].data == c.disk[b]
    ensures Tidy(Release(c, c.index[b]), pin, held - {b})
  {
    hide Inv, Unique, Permutation;
    var i := c.index[b];
    OnlyOwner(c, i, b);
    assert BufTidy(c, i, pin, held);
    ReleaseKeeps(c, i);
    var e := Release(c, i);
    forall j: nat | j < NBUF ensures BufTidy(e, j, pin, held - {b}) {
      OnlyOwner(c, j, b);
      assert BufTidy(c, j, pin, held);
    }
  }

  /** The map with one more bunpin on block b. */
  ghost function Less(pin: map<nat, int>, b: nat): (r: map<nat, int>) {
    if b in pin then pin - {b} else pin[b := -1]
  }

  lemma TidyUnpin(c: State, pin: map<nat, int>, held: set<nat>, b: nat)
    requires Tidy(c, pin, held) && b in held && (b in pin ==> pin[b] == 1)
    ensures Tidy(Unpin(c, c.index[b]), Less(pin, b), held)
  {
    hide Inv, Unique, Permutation;
    var i := c.index[b];
    OnlyOwner(c, i, b);
    assert BufTidy(c, i, pin, held);
    UnpinKeeps(c, i);
    var e := Unpin(c, i);
    forall j: nat | j < NBUF ensures BufTidy(e, j, Less(pin, b), held) {
      OnlyOwner(c, j, b);
      assert BufTidy(c, j, pin, held);
    }
  }

  // ----- when is there a buffer to recycle? -----

  /** Pinned and held blocks sit in distinct buffers and use up nothing else, so there
      is a free buffer exactly while they are fewer than the buffers. */
  lemma FreeIffRoom(c: State, pin: map<nat, int>, held: set<nat>)
    requires Tidy(c, pin, held) && NoDebt(pin, held)
    ensures HasFree(c) <==> |pin.Keys + held| < NBUF
    ensures !HasFree(c) ==> c.index.Keys == pin.Keys + held
  {
    TidyIsHonest(c, pin, held);
    BusyCount(c, pin.Keys + held);
  }

  lemma BusyCount(c: State, busy: set<nat>)
    requires Shape(c) && Unique(c) && busy <= c.index.Keys
    requires forall i :: 0 <= i < NBUF ==> (c.buf[i].refcnt == 0 <==> !Caches(c, i, busy))
    ensures HasFree(c) <==> |busy| < NBUF
    ensures !HasFree(c) ==> c.index.Keys == busy
  {
    var used := set b | b in busy :: c.index[b];
    UsedCount(c, busy);
    Pigeonhole(used, NBUF);
    forall i: nat | i < NBUF ensures i in used <==> c.buf[i].refcnt != 0 {
      if c.buf[i].refcnt != 0 {
        assert Caches(c, i, busy) && c.index[c.buf[i].blockno] == i;
      }
    }
  }

  lemma {:induction false} UsedCount(c: State, busy: set<nat>)
    requires Shape(c) && Unique(c) && busy <= c.index.Keys
    ensures |set b | b in busy :: c.index[b]| == |busy|
  {
    if busy != {} {
      var b :| b in busy;
      UsedCount(c, busy - {b});
      assert (set x | x in busy :: c.index[x]) == (set x | x in busy - {b} :: c.index[x]) + {c.index[b]};
    }
  }

  // ----- the code -----

  /** Each listed block pinned once. */
  ghost function PinAll(bs: seq<nat>): (pin: map<nat, int>)
    ensures forall b :: b in pin <==> b in bs
    ensures forall b :: b in pin ==> pin[b] == 1
  {
    map b | b in bs :: 1
  }

  lemma {:induction false} PinAllSize(bs: seq<nat>)
    requires forall i, j :: 0 <= i < j < |bs| ==> bs[i] != bs[j]
    ensures |PinAll(bs).Keys| == |bs|
  {
    if |bs| > 0 {
      var m := |bs| - 1;
      PinAllSize(bs[..m]);
      assert PinAll(bs).Keys == PinAll(bs[..m]).Keys + {bs[m]};
    }
  }

  // The cache operations of a lone process, as class Cache specifies them.

  /** bread of block b, leaving its buffer held; failure is bget's panic. */
  method Read(c: State, b: nat, ghost pin: map<nat, int>, ghost held: set<nat>)
    returns (ok: bool, e: State, data: Block)
    requires Tidy(c, pin, held) && NoDebt(pin, held) && b < |c.disk| && b !in held
    ensures ok <==> b in c.index || |pin.Keys + held| < NBUF
    ensures !ok ==> e == c
    ensures ok ==> Tidy(e, pin, held + {b}) && e.disk == c.disk && Map(e) == Map(c)
    ensures data == Map(c)[b] && (b !in pin ==> data == c.disk[b])
  {
    TidyIsHonest(c, pin, held);
    FreeIffRoom(c, pin, held);
    UnpinnedIsDisk(c, pin, held, b);
    var r: int;
    if b in c.index {
      r := c.index[b];
    } else {
      r := FindUnused(c);
      if r == -1 { return false, c, c.disk[b]; }
    }
    e := Fetch(c, r, b);
    TidyFetch(c, pin, held, r, b);
    SameViewSameMap(c, e);
    ok, data := true, e.buf[r].data;
    HeldData(e, pin, held + {b}, b);
  }

  lemma UnpinnedIsDisk(c: State, pin: map<nat, int>, held: set<nat>, b: nat)
    requires Tidy(c, pin, held) && b < |c.disk| && b !in held
    ensures b !in pin ==> Map(c)[b] == c.disk[b]
    ensures b !in c.index ==> Map(c)[b] == c.disk[b]
  {
    if b in c.index {
      assert BufTidy(c, c.index[b], pin, held);
    }
  }

  lemma HeldData(c: State, pin: map<nat, int>, held: set<nat>, b: nat)
    requires Tidy(c, pin, held) && b in held
    ensures Map(c)[b] == c.buf[c.index[b]].data
  {
    assert BufTidy(c, c.index[b], pin, held);
  }

  /** Overwrite a held buffer and bwrite it. */
  method Store(c: State, b: nat, data: Block, ghost pin: map<nat, int>, ghost held: set<nat>) returns (e: State)
    requires Tidy(c, pin, held) && b in held
    ensures Tidy(e, pin, held) && e.disk == c.disk[b := data] && Map(e) == Map(c)[b := data]
  {
    var i := c.index[b];
    assert BufTidy(c, i, pin, held);
    ModifyKeeps(c, i, data);
    TidyModify(c, pin, held, b, data);
    var m := Modify(c, i, data);
    TidyWrite(m, pin, held, b);
    WriteKeeps(m, i);
    e := Write(m, i);
    SameViewSameMap(m, e);
  }

  /** brelse of a held buffer. */
  method Drop(c: State, b: nat, ghost pin: map<nat, int>, ghost held: set<nat>) returns (e: State)
    requires Tidy(c, pin, held) && b in held
    requires (b in pin && pin[b] == 1) || Map(c)[b] == c.disk[b]
    ensures Tidy(e, pin, held - {b}) && e.disk == c.disk && Map(e) == Map(c)
  {
    HeldData(c, pin, held, b);
    TidyRelease(c, pin, held, b);
    assert BufTidy(c, c.index[b], pin, held);
    ReleaseKeeps(c, c.index[b]);
    e := Release(c, c.index[b]);
    SameViewSameMap(c, e);
  }

  /** bunpin of a held buffer. */
  method Undo(c: State, b: nat, ghost pin: map<nat, int>, ghost held: set<nat>) returns (e: State)
    requires Tidy(c, pin, held) && b in held && (b in pin ==> pin[b] == 1)
    ensures Tidy(e, Less(pin, b), held) && e.disk == c.disk && Map(e) == Map(c)
  {
    TidyUnpin(c, pin, held, b);
    assert BufTidy(c, c.index[b], pin, held);
    UnpinKeeps(c, c.index[b]);
    e := Unpin(c, c.index[b]);
    SameViewSameMap(c, e);
  }

  lemma TwoHeld(pin: map<nat, int>, a: nat, b: nat)
    requires a !in pin && a != b
    ensures {} + {a} == {a} && {a} + {b} - {a} == {b} && {a} + {b} - {b} == {a} && {a} - {a} == {} && {b} - {b} == {}
    ensures |pin.Keys + {}| == |pin| && |pin.Keys + {a}| == |pin| + 1
    ensures NoDebt(pin, {}) && NoDebt(pin, {a})
  {
    assert pin.Keys + {} == pin.Keys && |pin.Keys| == |pin|;
  }

  /** An iteration of write_log: cached home block to log block. */
  method Copy(c: State, from: nat, to: nat, ghost pin: map<nat, int>) returns (ok: bool, e: State)
    requires Tidy(c, pin, {}) && from in pin && pin[from] == 1 && to < |c.disk| && to !in pin
    ensures ok <==> to in c.index || |pin| < NBUF
    ensures !ok ==> e == c
    ensures ok ==> Tidy(e, pin, {})
    ensures ok ==> e.disk == c.disk[to := Map(c)[from]] && Map(e) == Map(c)[to := Map(c)[from]]
  {
    hide *;
    ghost var both := {to} + {from};
    TwoHeld(pin, to, from);
    var data;
    ok, e, data := Read(c, to, pin, {});
    if !ok { return false, c; }
    ok, e, data := Read(e, from, pin, {to});
    e := Store(e, to, data, pin, both);
    e := Drop(e, from, pin, both);
    e := Drop(e, to, pin, {to});
  }

  /** An iteration of install_trans: log block to home block, with its bunpin.  The
      home block is pinned in a commit and not in a recovery. */
  method Install(c: State, lb: nat, hb: nat, ghost pin: map<nat, int>) returns (ok: bool, e: State)
    requires Tidy(c, pin, {}) && (hb in pin ==> pin[hb] == 1) && lb != hb && lb !in pin
    requires lb < |c.disk| && hb < |c.disk|
    ensures |pin| + (if hb in pin then 0 else 1) < NBUF ==> ok
    ensures ok && hb !in pin ==> |pin| + 1 < NBUF
    ensures ok ==> Tidy(e, Less(pin, hb), {})
    ensures ok ==> e.disk == c.disk[hb := c.disk[lb]] && Map(e) == Map(c)[hb := c.disk[lb]]
    ensures !ok ==> e.disk == c.disk
  {
    hide *;
    ghost var both := {lb} + {hb};
    TwoHeld(pin, lb, hb);
    var data, dst;
    ok, e, data := Read(c, lb, pin, {});
    if !ok { return false, c; }
    if hb !in pin { FullOfPins(e, pin, lb, hb); }
    ok, e, dst := Read(e, hb, pin, {lb});
    if !ok { return false, e; }
    e := Store(e, hb, data, pin, both);
    e := Undo(e, hb, pin, both);
    e := Drop(e, lb, Less(pin, hb), both);
    e := Drop(e, hb, Less(pin, hb), {hb});
  }

  /** With every buffer taken, a block that is not in one of them is not cached. */
  lemma FullOfPins(c: State, pin: map<nat, int>, lb: nat, hb: nat)
    requires Tidy(c, pin, {lb}) && NoDebt(pin, {lb}) && lb !in pin && hb != lb && hb !in pin
    ensures |pin| + 1 >= NBUF ==> hb !in c.index && |pin.Keys + {lb}| >= NBUF
  {
    FreeIffRoom(c, pin, {lb});
    assert |pin.Keys + {lb}| == |pin.Keys| + 1;
  }

  /** The contents a commit will install: the latest contents of the listed blocks. */
  ghost function Contents(m: Disk, bs: seq<nat>): (data: seq<Block>)
    requires forall i :: 0 <= i < |bs| ==> bs[i] < |m|
    ensures |data| == |bs|
  {
    seq(|bs|, i requires 0 <= i < |bs| => m[bs[i]])
  }

  /** The disks of t writes of a commit. */
  ghost function CommitTrace(L: Layout, d: Disk, bs: seq<nat>, data: seq<Block>, t: nat): (ds: seq<Disk>)
    requires CanCommit(L, d, bs, data) && t <= 2 * |bs| + 2
    ensures |ds| == t
  {
    seq(t, j requires 0 <= j < t => CommitDisk(L, d, bs, data, j + 1))
  }

  /** The writes of write_log, one by one. */
  lemma CommitFill(L: Layout, d: Disk, bs: seq<nat>, data: seq<Block>, t: nat)
    requires CanCommit(L, d, bs, data) && t < |bs|
    ensures CommitDisk(L, d, bs, data, t + 1) == CommitDisk(L, d, bs, data, t)[L.start + t + 1 := data[t]]
    ensures CommitTrace(L, d, bs, data, t + 1) ==
            CommitTrace(L, d, bs, data, t) + [CommitDisk(L, d, bs, data, t + 1)]
  {
  }

  // The functions of log.c; `bs` is lh.block[..lh.n], failure is bget's panic, and
  // `ws` collects the disk after every write.

  /** Nothing is held, the blocks bs are pinned, and data are their latest contents. */
  ghost predicate Ready(L: Layout, c: State, bs: seq<nat>, data: seq<Block>)
    ensures Ready(L, c, bs, data) ==> Inv(c) && |data| == |bs|
  {
    && Tidy(c, PinAll(bs), {}) && CanCommit(L, c.disk, bs, data)
    && data == Contents(Map(c), bs)
  }

  method WriteLog(L: Layout, c: State, bs: seq<nat>, ghost data: seq<Block>)
    returns (ok: bool, e: State, ghost ws: seq<Disk>)
    requires Ready(L, c, bs, data)
    ensures ok <==> |bs| == 0 || |bs| < NBUF
    ensures !ok ==> e == c && ws == []
    ensures ok ==> Ready(L, e, bs, data) && SameHome(L, Map(e), Map(c))
    ensures ok ==> e.disk == CommitDisk(L, c.disk, bs, data, |bs|)
    ensures ok ==> ws == CommitTrace(L, c.disk, bs, data, |bs|)
  {
    hide Tidy, Map, Ready, CommitDisk, CommitTrace;
    CommitStart(L, c, bs, data);
    var tail := 0;
    e, ws := c, [];
    while tail < |bs|
      invariant 0 <= tail <= |bs| && (tail > 0 ==> |bs| < NBUF)
      invariant tail == 0 ==> e == c
      invariant Ready(L, e, bs, data) && SameHome(L, Map(e), Map(c))
      invariant e.disk == CommitDisk(L, c.disk, bs, data, tail)
      invariant ws == CommitTrace(L, c.disk, bs, data, tail)
    {
      CommitFill(L, c.disk, bs, data, tail);
      var r;
      ok, r := WriteLogBlock(L, e, bs, data, tail);
      if !ok { return; }
      e, ws := r, ws + [r.disk];
      tail := tail + 1;
    }
    ok := true;
  }

  lemma CommitStart(L: Layout, c: State, bs: seq<nat>, data: seq<Block>)
    requires Ready(L, c, bs, data)
    ensures Tidy(c, PinAll(bs), {}) && CanCommit(L, c.disk, bs, data)
    ensures CommitDisk(L, c.disk, bs, data, 0) == c.disk && CommitTrace(L, c.disk, bs, data, 0) == []
    ensures SameHome(L, Map(c), Map(c))
  {
  }

  lemma StillReady(L: Layout, c: State, bs: seq<nat>, data: seq<Block>, to: nat, x: Block, e: State)
    requires Ready(L, c, bs, data) && Tidy(e, PinAll(bs), {}) && to < |c.disk| && L.InLog(to)
    requires |e.disk| == |c.disk| && Map(e) == Map(c)[to := x]
    ensures Ready(L, e, bs, data) && SameHome(L, Map(e), Map(c))
  {
    hide Tidy, Map;
    assert data == Contents(Map(e), bs);
  }

  method WriteLogBlock(L: Layout, c: State, bs: seq<nat>, ghost data: seq<Block>, tail: nat)
    returns (ok: bool, e: State)
    requires Ready(L, c, bs, data) && tail < |bs|
    ensures ok <==> |bs| < NBUF
    ensures !ok ==> e == c
    ensures ok ==> Ready(L, e, bs, data) && SameHome(L, Map(e), Map(c))
    ensures ok ==> e.disk == c.disk[L.start + tail + 1 := data[tail]]
  {
    hide *;
    ghost var pin := PinAll(bs);
    var from, to := bs[tail], L.start + tail + 1;
    WriteLogFacts(L, c, bs, data, tail, pin, from, to);
    ok, e := Copy(c, from, to, pin);
    if ok {
      StillReady(L, c, bs, data, to, data[tail], e);
    }
  }

  lemma WriteLogFacts(L: Layout, c: State, bs: seq<nat>, data: seq<Block>, tail: nat, pin: map<nat, int>, from: nat,
    to: nat)
    requires Ready(L, c, bs, data) && tail < |bs| && pin == PinAll(bs) && from == bs[tail] && to == L.start + tail + 1
    ensures Tidy(c, pin, {}) && from in pin && pin[from] == 1 && to !in pin && to < |c.disk| && L.InLog(to)
    ensures data[tail] == Map(c)[from]
    ensures to in c.index || |pin| < NBUF <==> |bs| < NBUF
  {
    FullCache(L, c, bs);
  }

  lemma FullCache(L: Layout, c: State, bs: seq<nat>)
    requires Tidy(c, PinAll(bs), {}) && Fits(L, c.disk) && HomeBlocks(L, c.disk, bs)
    ensures |PinAll(bs)| == |bs|
    ensures |bs| >= NBUF ==> forall b :: b in c.index ==> !L.InLog(b)
  {
    PinAllSize(bs);
    FreeIffRoom(c, PinAll(bs), {});
    assert PinAll(bs).Keys + {} == PinAll(bs).Keys;
  }

  /** write_head: entries one by one into the header's buffer, then bwrite. */
  method WriteHead(L: Layout, c: State, bs: seq<nat>, ghost pin: map<nat, int>) returns (ok: bool, e: State)
    requires Tidy(c, pin, {}) && Fits(L, c.disk) && HomeBlocks(L, c.disk, bs) && L.start !in pin
    ensures ok <==> L.start in c.index || |pin| < NBUF
    ensures !ok ==> e == c
    ensures ok ==> Tidy(e, pin, {}) && e.disk == WithHead(L, c.disk, bs) && SameHome(L, Map(e), Map(c))
  {
    hide Tidy, Map, EncodeHead, WithHead, SameHome;
    var h;
    HeadFacts(L, c, bs, pin);
    ok, e, h := Read(c, L.start, pin, {});
    if !ok { return; }
    h := FillHead(h, bs);
    WithHeadIs(L, c, bs, h);
    e := Store(e, L.start, h, pin, {L.start});
    e := Drop(e, L.start, pin, {L.start});
  }

  /** write_head's assignments to the header's buffer. */
  method FillHead(h0: Block, bs: seq<nat>) returns (h: Block)
    requires |bs| <= LOGSIZE && forall i :: 0 <= i < |bs| ==> bs[i] < UINT32
    ensures h == EncodeHead(h0, bs, |bs|)
  {
    hide SetWord;
    h := SetWord(h0, 0, |bs|);
    var i := 0;
    while i < |bs|
      invariant 0 <= i <= |bs| && h == EncodeHead(h0, bs, i)
    {
      h := SetWord(h, i + 1, bs[i]);
      i := i + 1;
    }
  }

  lemma HeadFacts(L: Layout, c: State, bs: seq<nat>, pin: map<nat, int>)
    requires Tidy(c, pin, {}) && Fits(L, c.disk) && HomeBlocks(L, c.disk, bs) && L.start !in pin
    ensures |pin.Keys + {}| == |pin| && {} + {L.start} == {L.start} && {L.start} - {L.start} == {}
    ensures forall i :: 0 <= i < |bs| ==> bs[i] < UINT32
    ensures NoDebt(pin, {})
  {
    assert pin.Keys + {} == pin.Keys && |pin.Keys| == |pin|;
  }

  lemma WithHeadIs(L: Layout, c: State, bs: seq<nat>, h: Block)
    requires Inv(c) && Fits(L, c.disk) && HomeBlocks(L, c.disk, bs)
    requires h == EncodeHead(c.disk[L.start], bs, |bs|)
    ensures WithHead(L, c.disk, bs) == c.disk[L.start := h]
    ensures SameHome(L, Map(c)[L.start := h], Map(c))
  {
    hide EncodeHead, Map;
  }

  /** The pins after k iterations of install_trans, which started with the blocks
      pinned (a commit) or not (a recovery). */
  ghost function PinAt(bs: seq<nat>, k: nat, pinned: bool): (pin: map<nat, int>)
    requires k <= |bs|
  {
    if pinned then PinAll(bs[k..]) else map b | b in bs[..k] :: -1
  }

  lemma PinNext(bs: seq<nat>, k: nat, pinned: bool)
    requires k < |bs| && forall i, j :: 0 <= i < j < |bs| ==> bs[i] != bs[j]
    ensures Less(PinAt(bs, k, pinned), bs[k]) == PinAt(bs, k + 1, pinned)
    ensures pinned <==> bs[k] in PinAt(bs, k, pinned)
    ensures pinned ==> PinAt(bs, k, pinned)[bs[k]] == 1
    ensures forall b :: b in PinAt(bs, k, pinned) ==> b in bs
    ensures |PinAt(bs, k, pinned)| == if pinned then |bs| - k else k
  {
    hide PinAt, Less;
    if pinned { PinNextCommit(bs, k); } else { PinNextRecovery(bs, k); }
  }

  lemma PinNextCommit(bs: seq<nat>, k: nat)
    requires k < |bs| && forall i, j :: 0 <= i < j < |bs| ==> bs[i] != bs[j]
    ensures Less(PinAt(bs, k, true), bs[k]) == PinAt(bs, k + 1, true)
    ensures bs[k] in PinAt(bs, k, true) && PinAt(bs, k, true)[bs[k]] == 1
    ensures forall b :: b in PinAt(bs, k, true) ==> b in bs
    ensures |PinAt(bs, k, true)| == |bs| - k
  {
    var s := bs[k..];
    PinAllSize(s);
    LessHead(s);
    assert s[0] == bs[k] && s[1..] == bs[k + 1..];
    hide Less;
  }

  lemma LessHead(s: seq<nat>)
    requires s != [] && forall i, j :: 0 <= i < j < |s| ==> s[i] != s[j]
    ensures Less(PinAll(s), s[0]) == PinAll(s[1..])
  {
    assert s == [s[0]] + s[1..];
  }

  lemma PinNextRecovery(bs: seq<nat>, k: nat)
    requires k < |bs| && forall i, j :: 0 <= i < j < |bs| ==> bs[i] != bs[j]
    ensures Less(PinAt(bs, k, false), bs[k]) == PinAt(bs, k + 1, false)
    ensures bs[k] !in PinAt(bs, k, false)
    ensures forall b :: b in PinAt(bs, k, false) ==> b in bs
    ensures |PinAt(bs, k, false)| == k
  {
    PinAllSize(bs[..k]);
    assert bs[..k + 1] == bs[..k] + [bs[k]];
    assert PinAt(bs, k, false).Keys == PinAll(bs[..k]).Keys;
  }

  ghost function InstallTrace(L: Layout, d: Disk, bs: seq<nat>, k: nat): (ds: seq<Disk>)
    requires Fits(L, d) && HomeBlocks(L, d, bs) && k <= |bs|
    ensures |ds| == k
  {
    seq(k, j requires 0 <= j < k => Installed(L, d, bs, j + 1))
  }

  lemma InstallStart(L: Layout, d: Disk, bs: seq<nat>)
    requires Fits(L, d) && HomeBlocks(L, d, bs)
    ensures Installed(L, d, bs, 0) == d && InstallTrace(L, d, bs, 0) == []
  {
  }

  lemma InstallNext(L: Layout, d: Disk, bs: seq<nat>, k: nat)
    requires Fits(L, d) && HomeBlocks(L, d, bs) && k < |bs|
    ensures var p := Installed(L, d, bs, k);
            Installed(L, d, bs, k + 1) == p[bs[k] := p[L.start + k + 1]]
    ensures InstallTrace(L, d, bs, k + 1) == InstallTrace(L, d, bs, k) + [Installed(L, d, bs, k + 1)]
  {
    InstalledOut(L, d, bs, k, L.start + k + 1);
  }

  /** install_trans: what it does to the disk it does to the block map. */
  method InstallTrans(L: Layout, c: State, bs: seq<nat>, ghost pinned: bool)
    returns (ok: bool, e: State, ghost ws: seq<Disk>)
    requires Fits(L, c.disk) && HomeBlocks(L, c.disk, bs) && Tidy(c, PinAt(bs, 0, pinned), {})
    ensures |bs| < NBUF ==> ok
    ensures !pinned ==> (ok <==> |bs| < NBUF)
    ensures !pinned && !ok ==> |bs| == NBUF && ws == InstallTrace(L, c.disk, bs, NBUF - 1)
    ensures ok ==> Tidy(e, PinAt(bs, |bs|, pinned), {})
    ensures ok ==> e.disk == Installed(L, c.disk, bs, |bs|) && ws == InstallTrace(L, c.disk, bs, |bs|)
    ensures ok ==> Map(e) == Installed(L, Map(c), bs, |bs|)
  {
    hide Tidy, Map, Installed, InstallTrace, PinAt;
    InstallStart(L, c.disk, bs);
    InstallStart(L, Map(c), bs);
    var tail := 0;
    e, ws := c, [];
    while tail < |bs|
      invariant 0 <= tail <= |bs| && (!pinned ==> tail < NBUF)
      invariant Fits(L, e.disk) && HomeBlocks(L, e.disk, bs)
      invariant Tidy(e, PinAt(bs, tail, pinned), {})
      invariant e.disk == Installed(L, c.disk, bs, tail) && ws == InstallTrace(L, c.disk, bs, tail)
      invariant Map(e) == Installed(L, Map(c), bs, tail)
    {
      InstallNext(L, c.disk, bs, tail);
      InstallNext(L, Map(c), bs, tail);
      var r;
      ok, r := InstallBlock(L, e, bs, tail, pinned);
      if !ok { return; }
      e, ws := r, ws + [r.disk];
      tail := tail + 1;
    }
    ok := true;
  }

  method InstallBlock(L: Layout, c: State, bs: seq<nat>, tail: nat, ghost pinned: bool) returns (ok: bool, e: State)
    requires Fits(L, c.disk) && HomeBlocks(L, c.disk, bs) && tail < |bs| && Tidy(c, PinAt(bs, tail, pinned), {})
    ensures |bs| < NBUF ==> ok
    ensures !pinned ==> (ok <==> tail + 1 < NBUF)
    ensures ok ==> Tidy(e, PinAt(bs, tail + 1, pinned), {})
    ensures Map(c)[L.start + tail + 1] == c.disk[L.start + tail + 1]
    ensures ok ==> e.disk == c.disk[bs[tail] := c.disk[L.start + tail + 1]]
    ensures ok ==> Map(e) == Map(c)[bs[tail] := c.disk[L.start + tail + 1]]
  {
    hide *;
    ghost var pin := PinAt(bs, tail, pinned);
    var lb, hb := L.start + tail + 1, bs[tail];
    InstallFacts(L, c, bs, tail, pinned, pin, lb, hb);
    ok, e := Install(c, lb, hb, pin);
  }

  lemma InstallFacts(L: Layout, c: State, bs: seq<nat>, k: nat, pinned: bool, pin: map<nat, int>, lb: nat, hb: nat)
    requires Fits(L, c.disk) && HomeBlocks(L, c.disk, bs) && k < |bs|
    requires pin == PinAt(bs, k, pinned) && Tidy(c, pin, {}) && lb == L.start + k + 1 && hb == bs[k]
    ensures lb < |c.disk| && hb < |c.disk| && lb != hb && lb !in pin
    ensures Less(pin, hb) == PinAt(bs, k + 1, pinned) && (hb in pin ==> pin[hb] == 1)
    ensures |bs| < NBUF ==> |pin| + (if hb in pin then 0 else 1) < NBUF
    ensures !pinned ==> hb !in pin && |pin| == k
    ensures Map(c)[lb] == c.disk[lb]
  {
    PinNext(bs, k, pinned);
    assert lb !in pin;
    UnpinnedIsDisk(c, pin, {}, lb);
  }

  /** commit, with no reader in the cache: it writes exactly the disks the crash model steps
      through, or panics in bget before its first write when the transaction fills the
      whole cache. */
  method Commit(L: Layout, c: State, bs: seq<nat>, ghost data: seq<Block>)
    returns (ok: bool, e: State, ghost ws: seq<Disk>)
    requires Ready(L, c, bs, data)
    ensures ok <==> |bs| < NBUF
    ensures !ok ==> e == c && ws == []
    ensures ok ==> Tidy(e, map[], {}) && SameHome(L, Map(e), Map(c))
    ensures ok && bs == [] ==> e == c && ws == []
    ensures ok && bs != [] ==>
              && CanCommit(L, c.disk, bs, data)
              && ws == CommitTrace(L, c.disk, bs, data, 2 * |bs| + 2)
              && e.disk == CommitDisk(L, c.disk, bs, data, 2 * |bs| + 2)
  {
    hide Tidy, Map, Ready, CommitDisk, CommitTrace, Installed, InstallTrace, WithHead, SameHome, PinAll, PinAt,
         CanCommit,
         HomeBlocks, Fits;
    CommitFacts(L, c, bs, data);
    ok, e, ws := true, c, [];
    if |bs| > 0 {
      var d: State, f: State;
      ghost var more;
      ok, d, ws := WriteLog(L, c, bs, data);
      if !ok { return; }
      CommitFacts(L, d, bs, data);
      ok, e := WriteHead(L, d, bs, PinAll(bs));
      ws := ws + [e.disk];
      SameSize(L, c.disk, bs, data, e.disk);
      ok, f, more := InstallTrans(L, e, bs, true);
      ws := ws + more;
      InstalledMap(L, c, bs, data, d, e, f);
      CommitWrites(L, c.disk, bs, data, d.disk, e.disk, f.disk);
      ok, e := WriteHead(L, f, [], map[]);
      ws := ws + [e.disk];
      SameHomeTrans(L, Map(e), Map(f), Map(c));
    }
  }

  lemma CommitFacts(L: Layout, c: State, bs: seq<nat>, data: seq<Block>)
    requires Ready(L, c, bs, data)
    ensures CanCommit(L, c.disk, bs, data) && Fits(L, c.disk) && HomeBlocks(L, c.disk, bs)
    ensures |bs| <= NBUF && Tidy(c, PinAll(bs), {}) && L.start !in PinAll(bs) && |PinAll(bs)| == |bs|
    ensures PinAt(bs, 0, true) == PinAll(bs) && (bs == [] ==> PinAll(bs) == map[])
    ensures SameHome(L, Map(c), Map(c))
  {
    FullCache(L, c, bs);
    assert bs[0..] == bs;
  }

  /** After the install the block map shows the same home blocks as before the commit,
      and nothing is pinned. */
  lemma InstalledMap(L: Layout, c: State, bs: seq<nat>, data: seq<Block>, d: State, e: State, f: State)
    requires Ready(L, c, bs, data)
    requires Inv(d) && SameHome(L, Map(d), Map(c)) && d.disk == CommitDisk(L, c.disk, bs, data, |bs|)
    requires Tidy(e, PinAll(bs), {}) && e.disk == WithHead(L, d.disk, bs) && SameHome(L, Map(e), Map(d))
    requires Inv(f) && Map(f) == Installed(L, Map(e), bs, |bs|)
    ensures PinAt(bs, |bs|, true) == map[]
    ensures SameHome(L, Map(f), Map(c))
    ensures Fits(L, f.disk) && HomeBlocks(L, f.disk, [])
  {
    hide Tidy, Map, Inv, Installed, WithHead, LogBlock;
    CommittedHead(L, c.disk, bs, data, d.disk, e.disk);
    forall b | 0 <= b < |c.disk| && !L.InLog(b) ensures Map(f)[b] == Map(c)[b] {
      if b in bs {
        var i :| 0 <= i < |bs| && bs[i] == b;
        InstalledIn(L, Map(e), bs, |bs|, i);
        LogIsDisk(L, e, bs, i);
      } else {
        InstalledOut(L, Map(e), bs, |bs|, b);
      }
    }
  }

  lemma LogIsDisk(L: Layout, c: State, bs: seq<nat>, i: nat)
    requires Tidy(c, PinAll(bs), {}) && Fits(L, c.disk) && HomeBlocks(L, c.disk, bs) && i < |bs|
    ensures LogBlock(L, Map(c), i) == LogBlock(L, c.disk, i)
  {
    var lb := L.start + i + 1;
    assert lb !in PinAll(bs);
    UnpinnedIsDisk(c, PinAll(bs), {}, lb);
    hide Tidy, Map;
  }

  /** The pieces of a commit in the order written. */
  lemma CommitWrites(L: Layout, d: Disk, bs: seq<nat>, data: seq<Block>, f: Disk, h: Disk, g: Disk)
    requires CanCommit(L, d, bs, data) && f == CommitDisk(L, d, bs, data, |bs|)
    requires h == WithHead(L, f, bs) && g == Installed(L, h, bs, |bs|)
    ensures CommitDisk(L, d, bs, data, 2 * |bs| + 2) == WithHead(L, g, [])
    ensures CommitTrace(L, d, bs, data, 2 * |bs| + 2) ==
            CommitTrace(L, d, bs, data, |bs|) + [h] + InstallTrace(L, h, bs, |bs|) + [WithHead(L, g, [])]
  {
    hide WithHead, Installed, HomeBlocks, Fits;
    SameSize(L, d, bs, data, h);
    SameSize(L, d, bs, data, g);
    var n := |bs|;
    var a, b, z := CommitTrace(L, d, bs, data, n), InstallTrace(L, h, bs, n), WithHead(L, g, []);
    InstallStart(L, h, bs);
    Join(CommitTrace(L, d, bs, data, 2 * n + 2), a, h, b, z);
  }

  lemma SameSize(L: Layout, d: Disk, bs: seq<nat>, data: seq<Block>, e: Disk)
    requires CanCommit(L, d, bs, data) && |e| == |d|
    ensures Fits(L, e) && HomeBlocks(L, e, bs) && HomeBlocks(L, e, [])
  {
  }

  lemma Join<T>(x: seq<T>, a: seq<T>, h: T, b: seq<T>, z: T)
    requires |x| == |a| + |b| + 2 && x[|a|] == h && x[|a| + |b| + 1] == z
    requires forall j :: 0 <= j < |a| ==> x[j] == a[j]
    requires forall j :: 0 <= j < |b| ==> b[j] == x[|a| + 1 + j]
    ensures x == a + [h] + b + [z]
  {
  }

  // ----- recovery -----

  /** The disks of the n + 1 writes of recover_from_log. */
  ghost function RecoveryTrace(L: Layout, d: Disk): (ds: seq<Disk>)
    requires Loggable(L, d)
  {
    var n := HeadCount(d[L.start]) + 1;
    seq(n, j requires 0 <= j < n => RecoveryDisk(L, d, j + 1))
  }

  /** read_head: the entries of the header block. */
  method ReadHead(h: Block) returns (bs: seq<nat>)
    requires HeadCount(h) <= LOGSIZE
    ensures bs == HeadBlocks(h)
  {
    var n := Word(h, 0);
    bs := [];
    while |bs| < n
      invariant |bs| <= n && forall i :: 0 <= i < |bs| ==> bs[i] == Word(h, 1 + i)
    {
      bs := bs + [Word(h, 1 + |bs|)];
    }
  }

  /** recover_from_log on a cache with nothing pinned: it writes exactly the disks the
      crash model steps through, and leaves every block it installed unpinned once too often.
      Those unpinned blocks take up a buffer each, so a log of NBUF blocks cannot be
      recovered: bget panics with all but the last block installed. */
  method Recover(L: Layout, c: State) returns (ok: bool, e: State, ghost ws: seq<Disk>)
    requires Tidy(c, map[], {}) && Loggable(L, c.disk)
    ensures ok <==> HeadCount(c.disk[L.start]) < NBUF
    ensures !ok ==> |RecoveryTrace(L, c.disk)| == NBUF + 1 && ws == RecoveryTrace(L, c.disk)[..NBUF - 1]
    ensures ok ==> e.disk == Recovered(L, c.disk) && ws == RecoveryTrace(L, c.disk)
    ensures ok ==> Tidy(e, PinAt(HeadBlocks(c.disk[L.start]), HeadCount(c.disk[L.start]), false), {})
  {
    hide Tidy, Map, HeadBlocks, HeadCount, Installed, InstallTrace, PinAt, WithHead, Recovered, RecoveryTrace,
         HomeBlocks;
    RecoverFacts(L, c.disk);
    var h;
    ok, e, h := Read(c, L.start, map[], {});
    if !ok { return; }
    e := Drop(e, L.start, map[], {L.start});
    var bs := ReadHead(h);
    var f: State;
    ok, f, ws := InstallTrans(L, e, bs, false);
    if |bs| == NBUF { RecoverPrefix(L, c.disk); }
    if !ok { return; }
    RecoverEnd(L, c.disk, f);
    ok, e := WriteHead(L, f, [], PinAt(bs, |bs|, false));
    ws := ws + [e.disk];
  }

  ghost function NoPins(): map<nat, int> { map[] }

  lemma RecoverFacts(L: Layout, d: Disk)
    requires Loggable(L, d)
    ensures var bs := HeadBlocks(d[L.start]);
            PinAt(bs, 0, false) == map[] && Fits(L, d) && HeadCount(d[L.start]) <= LOGSIZE && HomeBlocks(L, d, bs)
    ensures |NoPins().Keys + {}| == 0 && {} + {L.start} == {L.start} && {L.start} - {L.start} == {}
    ensures NoDebt(map[], {})
  {
    assert NoPins().Keys + {} == {};
  }

  lemma RecoverPrefix(L: Layout, d: Disk)
    requires Loggable(L, d) && HeadCount(d[L.start]) == NBUF
    ensures |RecoveryTrace(L, d)| == NBUF + 1
    ensures RecoveryTrace(L, d)[..NBUF - 1] == InstallTrace(L, d, HeadBlocks(d[L.start]), NBUF - 1)
  {
    hide Installed, WithHead;
  }

  lemma RecoverEnd(L: Layout, d: Disk, f: State)
    requires Loggable(L, d) && f.disk == Installed(L, d, HeadBlocks(d[L.start]), HeadCount(d[L.start]))
    ensures Fits(L, f.disk) && HomeBlocks(L, f.disk, [])
    ensures Recovered(L, d) == WithHead(L, f.disk, [])
    ensures var bs := HeadBlocks(d[L.start]);
            && RecoveryTrace(L, d) == InstallTrace(L, d, bs, |bs|) + [Recovered(L, d)]
            && L.start !in PinAt(bs, |bs|, false)
            && |PinAt(bs, |bs|, false)| == |bs|
  {
    hide Installed, WithHead, HeadBlocks, HeadCount, Word;
    var bs := HeadBlocks(d[L.start]);
    PinAllSize(bs);
    assert bs[..|bs|] == bs && PinAt(bs, |bs|, false).Keys == PinAll(bs).Keys;
  }

  /** The counts recovery leaves: 2^32 - 1 on every buffer it installed, so they are
      the counts of an unused cache exactly when the log was empty. */
  lemma RecoveredCounts(c: State, bs: seq<nat>)
    requires Tidy(c, PinAt(bs, |bs|, false), {})
    ensures forall i :: 0 <= i < NBUF ==>
              c.buf[i].refcnt == if Caches(c, i, PinAll(bs).Keys) then UINT32 - 1 else 0
    ensures (forall i :: 0 <= i < NBUF ==> c.buf[i].refcnt == 0) <==> bs == []
  {
    var pin := PinAt(bs, |bs|, false);
    assert bs[..|bs|] == bs && pin.Keys == PinAll(bs).Keys;
    forall i: nat | i < NBUF
      ensures c.buf[i].refcnt == if Caches(c, i, PinAll(bs).Keys) then UINT32 - 1 else 0
    {
      assert BufTidy(c, i, pin, {});
    }
    if bs != [] {
      assert bs[0] in pin;
      assert Caches(c, c.index[bs[0]], PinAll(bs).Keys);
    }
  }

  /** Why that matters: the next bread of such a block holds a buffer whose count is
      zero, so bget takes it for free although it is locked. */
  lemma RecoveredBlockLooksFree(c: State, pin: map<nat, int>, b: nat)
    requires Tidy(c, pin, {}) && b in pin && pin[b] == -1
    ensures var i := c.index[b];
            var e := Fetch(c, i, b);
            i < NBUF && e.buf[i].locked && e.buf[i].refcnt == 0 && HasFree(e) && !Honest(e)
  {
    assert BufTidy(c, c.index[b], pin, {});
    Owner(c, b);
  }

  /** And logging it does not help: whatever an operation writes to such a block, after its
      log_write and brelse the count is zero, so bget may recycle the only copy. */
  lemma LoggedBlockLooksFree(c: State, pin: map<nat, int>, b: nat, x: Block)
    requires Tidy(c, pin, {}) && b in pin && pin[b] == -1
    ensures var i := c.index[b];
            var e := Release(Pin(Modify(Fetch(c, i, b), i, x), i), i);
            && i < NBUF && e.buf[i].refcnt == 0 && !e.buf[i].locked && HasFree(e)
            && e.index[b] == i && e.buf[i].data == x && e.disk == c.disk
  {
    assert BufTidy(c, c.index[b], pin, {});
    Owner(c, b);
  }
}
