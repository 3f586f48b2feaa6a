/** Which blocks a write needs, takes and logs (kernel/fs.c: bmap, writei). */
module FsSpace {
  import opened Param
  import opened Blocks
  import opened FsLayout
  import opened FsBlocks
  import opened FsFiles
  import opened Counting

  /** How many blocks are free. */
  ghost function Room(s: Fs): (r: int)
    requires Inv(s)
  {
    s.sb.size - s.sb.data - |s.owner|
  }

  /** balloc finds a block exactly while there is room. */
  lemma RoomFree(s: Fs)
    requires Inv(s)
    ensures Room(s) >= 0
    ensures Room(s) > 0 <==> exists c :: 0 <= c < s.sb.size && !Marked(s.sb, s.disk, c)
    ensures Room(s) == 0 <==> Full(s)
  {
    hide Addr, Marked;
    SpanCount(s.owner.Keys, s.sb.data, s.sb.size - s.sb.data);
    assert |s.owner| == |s.owner.Keys|;
  }

  /** The indirect block of inode n, if it has one. */
  ghost function Indirect(s: Fs, n: nat): (b: set<nat>)
    requires Shape(s) && n < |s.inodes|
    ensures |b| <= 1
  {
    var a := s.inodes[n].addrs[NDIRECT];
    if a == 0 then {} else {a}
  }

  // ----- what mapping one block takes -----

  /** 1 when block bn of the file is not there. */
  ghost function Fresh(s: Fs, n: nat, bn: nat): (c: nat)
    requires Shape(s) && n < |s.inodes|
    ensures c <= 1
  {
    if bn < MAXFILE && Addr(s, n, Slot(bn)) == 0 then 1 else 0
  }

  /** The blocks bmap has to allocate for block bn: the block, and the indirect block. */
  ghost function Need(s: Fs, n: nat, bn: nat): (c: nat)
    requires Shape(s) && n < |s.inodes|
  {
    Fresh(s, n, bn) + if NDIRECT <= bn < MAXFILE && s.inodes[n].addrs[NDIRECT] == 0 then 1 else 0
  }

  ghost function NewBlocks(s: Fs, t: Fs): (bs: set<nat>) { t.owner.Keys - s.owner.Keys }

  ghost function Bitmaps(sb: Super, bs: set<nat>): (r: set<nat>) { set b | b in bs :: Bblock(sb, b) }

  /** The blocks inode n holds, the indirect block among them. */
  ghost function BlocksOf(s: Fs, n: nat): (bs: set<nat>) { set b | b in s.owner && s.owner[b].inum == n }

  /** Those of them in the first j slots itrunc visits. */
  ghost function Seen(s: Fs, n: nat, j: nat): (bs: set<nat>)
    requires Inv(s)
  {
    set b | b in s.owner && Visited(s, n, j, b)
  }

  lemma SeenStart(s: Fs, n: nat)
    requires Inv(s)
    ensures Seen(s, n, 0) == {} && Bitmaps(s.sb, Seen(s, n, 0)) == {}
  {
  }

  lemma SeenNext(s: Fs, n: nat, j: nat)
    requires Inv(s) && n < |s.inodes| && j < SLOTS
    ensures var a := Addr(s, n, Order(j));
            && (a == 0 ==> Seen(s, n, j + 1) == Seen(s, n, j))
            && (a != 0 ==> Bitmaps(s.sb, Seen(s, n, j + 1)) == Bitmaps(s.sb, Seen(s, n, j)) + {Bblock(s.sb, a)})
  {
    hide Owned, Addr, Visited, Bblock, Bitmaps;
    var a := Addr(s, n, Order(j));
    forall b ensures Visited(s, n, j + 1, b) <==> Visited(s, n, j, b) || (b != 0 && b == a) {
      VisitedStep(s, n, j + 1, b);
    }
    if a == 0 {
      assert Seen(s, n, j + 1) == Seen(s, n, j);
    } else {
      SlotBlock(s, n, Order(j));
      assert Seen(s, n, j + 1) == Seen(s, n, j) + {a};
      BitmapsUnion(s.sb, Seen(s, n, j), {a});
      BitmapsOne(s.sb, a);
    }
  }

  lemma SeenAll(s: Fs, n: nat)
    requires Inv(s)
    ensures Seen(s, n, SLOTS) == BlocksOf(s, n)
  {
    hide Addr;
    forall b | b in s.owner ensures Visited(s, n, SLOTS, b) <==> s.owner[b].inum == n { OwnerSlot(s, b); }
  }

  /** The indirect block, if mapping block bn put an entry into it. */
  ghost function EntryBlock(s: Fs, t: Fs, n: nat, bn: nat): (bs: set<nat>)
    requires Shape(s) && n < |s.inodes| && Shape(t) && n < |t.inodes|
  {
    if bn >= NDIRECT && Fresh(s, n, bn) == 1 then Indirect(t, n) else {}
  }

  /** t is s with block bn of file n there: what it needed was allocated, and nothing else. */
  ghost predicate Mapped(s: Fs, t: Fs, n: nat, bn: nat)
    requires Shape(s) && n < |s.inodes| && Shape(t) && n < |t.inodes|
  {
    && bn < MAXFILE && t.sb == s.sb && Addr(t, n, Slot(bn)) != 0
    && |t.owner| == |s.owner| + Need(s, n, bn)
    && s.owner.Keys <= t.owner.Keys && NewBlocks(s, t) <= {Addr(t, n, Slot(bn))} + EntryBlock(s, t, n, bn)
    && (forall k :: 0 <= k < SLOTS && k != Slot(bn) && k != NDIRECT ==> Addr(t, n, k) == Addr(s, n, k))
    && (if bn < NDIRECT then t.inodes[n].addrs[NDIRECT] == s.inodes[n].addrs[NDIRECT]
        else t.inodes[n].addrs[NDIRECT] != 0)
    && (s.inodes[n].addrs[NDIRECT] != 0 ==> t.inodes[n].addrs[NDIRECT] == s.inodes[n].addrs[NDIRECT])
  }

  /** The blocks bmap logs: those it allocated, with their bitmap blocks, and the indirect
      block it put an entry into. */
  ghost function MapLogs(s: Fs, t: Fs, n: nat, bn: nat): (bs: set<nat>)
    requires Shape(s) && n < |s.inodes| && Shape(t) && n < |t.inodes|
  {
    NewBlocks(s, t) + Bitmaps(t.sb, NewBlocks(s, t)) + EntryBlock(s, t, n, bn)
  }

  /** Allocation adds one owner and fills one slot. */
  lemma AllocOwner(s: Fs, n: nat, k: nat, b: nat)
    requires CanAlloc(s, n, k, b)
    ensures k <= NDIRECT || s.inodes[n].addrs[NDIRECT] < |s.disk|
    ensures var t := Alloc(s, n, k, b);
            && Inv(t) && |t.inodes| == |s.inodes| && t.sb == s.sb && b != 0
            && t.owner.Keys == s.owner.Keys + {b} && |t.owner| == |s.owner| + 1 && b !in s.owner
            && t.inodes[n].addrs[NDIRECT] == if k == NDIRECT then b else s.inodes[n].addrs[NDIRECT]
    ensures forall k' :: 0 <= k' < SLOTS ==> Addr(Alloc(s, n, k, b), n, k') == if k' == k then b else Addr(s, n, k')
  {
    hide Addr, Mark, Owned, Word, SetWord;
    AllocKeeps(s, n, k, b);
    var t := Alloc(s, n, k, b);
    forall k' | 0 <= k' < SLOTS ensures Addr(t, n, k') == if k' == k then b else Addr(s, n, k') {
      AllocAddr(s, n, k, b, n, k');
    }
    assert t.owner.Keys == s.owner.Keys + {b};
  }

  lemma DirectAddr(s: Fs, n: nat, k: nat)
    requires Shape(s) && n < |s.inodes| && k <= NDIRECT
    ensures Addr(s, n, k) == s.inodes[n].addrs[k]
    ensures k < NDIRECT ==> Slot(k) == k
  {
  }

  lemma MappedNothing(s: Fs, n: nat, bn: nat)
    requires Inv(s) && n < |s.inodes| && bn < MAXFILE && Addr(s, n, Slot(bn)) != 0
    ensures Mapped(s, s, n, bn) && MapLogs(s, s, n, bn) == {}
  {
    if bn >= NDIRECT { assert s.inodes[n].addrs[NDIRECT] != 0; }
    hide Addr, Owned;
  }

  lemma BitmapsOne(sb: Super, b: nat)
    ensures Bitmaps(sb, {b}) == {Bblock(sb, b)}
  {
  }

  lemma BitmapsUnion(sb: Super, x: set<nat>, y: set<nat>)
    ensures Bitmaps(sb, x + y) == Bitmaps(sb, x) + Bitmaps(sb, y)
  {
  }

  lemma MappedOne(s: Fs, n: nat, bn: nat, b: nat)
    requires bn < MAXFILE && CanAlloc(s, n, Slot(bn), b) && (bn >= NDIRECT ==> s.inodes[n].addrs[NDIRECT] != 0)
    ensures Slot(bn) <= NDIRECT || s.inodes[n].addrs[NDIRECT] < |s.disk|
    ensures var t := Alloc(s, n, Slot(bn), b);
            && Inv(t) && n < |t.inodes| && Mapped(s, t, n, bn)
            && MapLogs(s, t, n, bn) == {Bblock(s.sb, b), b} + if bn >= NDIRECT then {s.inodes[n].addrs[NDIRECT]} else {}
  {
    hide Addr, Mark, Inv, Alloc, Owned, Bitmaps, NewBlocks, Bblock, MapLogs;
    AllocOwner(s, n, Slot(bn), b);
    var t := Alloc(s, n, Slot(bn), b);
    assert Need(s, n, bn) == 1 && Fresh(s, n, bn) == 1;
    NewOne(s, t, b);
    LogsOne(s, t, n, bn, b);
  }

  lemma LogsOne(s: Fs, t: Fs, n: nat, bn: nat, b: nat)
    requires Shape(s) && Shape(t) && n < |s.inodes| && n < |t.inodes| && t.sb == s.sb && Fresh(s, n, bn) == 1
    requires t.owner.Keys == s.owner.Keys + {b} && b !in s.owner
    requires bn >= NDIRECT ==> t.inodes[n].addrs[NDIRECT] == s.inodes[n].addrs[NDIRECT] != 0
    ensures MapLogs(s, t, n, bn) == {Bblock(s.sb, b), b} + if bn >= NDIRECT then {s.inodes[n].addrs[NDIRECT]} else {}
  {
    hide Bblock, Bitmaps, NewBlocks, Fresh;
    NewOne(s, t, b);
    BitmapsOne(s.sb, b);
    assert {b} + {Bblock(s.sb, b)} == {Bblock(s.sb, b), b};
  }

  lemma NewOne(s: Fs, t: Fs, b: nat)
    requires t.owner.Keys == s.owner.Keys + {b} && b !in s.owner
    ensures NewBlocks(s, t) == {b}
  {
  }

  lemma MappedTwo(s: Fs, t: Fs, n: nat, bn: nat, i: nat, b: nat)
    requires NDIRECT <= bn < MAXFILE && CanAlloc(s, n, NDIRECT, i) && t == Alloc(s, n, NDIRECT, i)
    requires CanAlloc(t, n, Slot(bn), b) && s.inodes[n].addrs[NDIRECT] == 0
    ensures t.inodes[n].addrs[NDIRECT] < |t.disk|
    ensures var u := Alloc(t, n, Slot(bn), b);
            && Inv(u) && n < |u.inodes| && Mapped(s, u, n, bn)
            && MapLogs(s, u, n, bn) == {Bblock(s.sb, i), i} + {Bblock(s.sb, b), b, i}
  {
    hide Addr, Mark, Inv, Alloc, Owned, Bitmaps, NewBlocks, Bblock;
    AllocOwner(s, n, NDIRECT, i);
    AllocOwner(t, n, Slot(bn), b);
    var u := Alloc(t, n, Slot(bn), b);
    NewTwo(s, t, u, i, b);
    BitmapsOne(s.sb, i);
    BitmapsOne(s.sb, b);
    BitmapsUnion(s.sb, {i}, {b});
    assert Fresh(s, n, bn) == 1;
    assert {i} + {b} + ({Bblock(s.sb, i)} + {Bblock(s.sb, b)}) + {i} == {Bblock(s.sb, i), i} + {Bblock(s.sb, b), b, i};
  }

  lemma NewTwo(s: Fs, t: Fs, u: Fs, i: nat, b: nat)
    requires t.owner.Keys == s.owner.Keys + {i} && u.owner.Keys == t.owner.Keys + {b} && i !in s.owner && b !in t.owner
    ensures NewBlocks(s, u) == {i} + {b}
  {
  }

  // ----- the three outcomes of bmap -----

  /** The block was there. */
  lemma MapThere(s: Fs, n: nat, bn: nat)
    requires Inv(s) && n < |s.inodes| && bn < MAXFILE && Addr(s, n, Slot(bn)) != 0
    ensures Grew(s, s) && Mapped(s, s, n, bn) && MapLogs(s, s, n, bn) == {} && Need(s, n, bn) <= Room(s)
  {
    hide Grew, Mapped, MapLogs, Owned;
    MappedNothing(s, n, bn);
    GrewRefl(s);
    RoomFree(s);
  }

  /** One block was allocated for it. */
  lemma MapOne(s: Fs, n: nat, bn: nat, b: nat)
    requires bn < MAXFILE && CanAlloc(s, n, Slot(bn), b) && (bn >= NDIRECT ==> s.inodes[n].addrs[NDIRECT] != 0)
    ensures Slot(bn) <= NDIRECT || s.inodes[n].addrs[NDIRECT] < |s.disk|
    ensures var t := Alloc(s, n, Slot(bn), b);
            && Grew(s, t) && Mapped(s, t, n, bn) && Addr(t, n, Slot(bn)) == b
            && MapLogs(s, t, n, bn) == {Bblock(s.sb, b), b} + if bn >= NDIRECT then {s.inodes[n].addrs[NDIRECT]} else {}
  {
    hide Grew, Mapped, MapLogs, Alloc, Inv;
    GrewAlloc(s, n, Slot(bn), b);
    MappedOne(s, n, bn, b);
  }

  /** Two were: the indirect block i, and b. */
  lemma MapTwo(s: Fs, t: Fs, n: nat, bn: nat, i: nat, b: nat)
    requires NDIRECT <= bn < MAXFILE && CanAlloc(s, n, NDIRECT, i) && t == Alloc(s, n, NDIRECT, i)
    requires CanAlloc(t, n, Slot(bn), b) && s.inodes[n].addrs[NDIRECT] == 0
    ensures t.inodes[n].addrs[NDIRECT] < |t.disk|
    ensures var u := Alloc(t, n, Slot(bn), b);
            && Grew(s, u) && Mapped(s, u, n, bn) && Addr(u, n, Slot(bn)) == b
            && MapLogs(s, u, n, bn) == {Bblock(s.sb, i), i} + {Bblock(s.sb, b), b, i}
  {
    hide Grew, Mapped, MapLogs, Alloc, Inv;
    GrewAlloc(s, n, NDIRECT, i);
    GrewAlloc(t, n, Slot(bn), b);
    MappedTwo(s, t, n, bn, i, b);
    GrewTrans(s, t, Alloc(t, n, Slot(bn), b));
  }

  /** What is needed, and what is left after the indirect block. */
  lemma NeedIs(s: Fs, n: nat, bn: nat)
    requires Inv(s) && n < |s.inodes| && bn < MAXFILE && Addr(s, n, Slot(bn)) == 0
    ensures Need(s, n, bn) == if bn >= NDIRECT && s.inodes[n].addrs[NDIRECT] == 0 then 2 else 1
    ensures Room(s) <= 0 ==> Full(s)
  {
    hide Addr, Owned;
    RoomFree(s);
  }

  lemma IndirectThere(s: Fs, n: nat, i: nat)
    requires CanAlloc(s, n, NDIRECT, i)
    ensures var t := Alloc(s, n, NDIRECT, i);
            && Inv(t) && |t.inodes| == |s.inodes| && t.inodes[n].addrs[NDIRECT] == i != 0 && t.sb == s.sb
            && Room(t) == Room(s) - 1
            && (forall k :: NDIRECT < k < SLOTS ==> Addr(t, n, k) == Addr(s, n, k))
  {
    hide Addr, Owned, Alloc;
    AllocOwner(s, n, NDIRECT, i);
  }

  // ----- what writing a range takes -----

  /** How many of the blocks lo..hi of the file are not there. */
  ghost function Missing(s: Fs, n: nat, lo: nat, hi: nat): (c: nat)
    requires Shape(s) && n < |s.inodes|
    decreases hi
  {
    if hi <= lo then 0 else Missing(s, n, lo, hi - 1) + Fresh(s, n, hi - 1)
  }

  /** How many blocks writing them takes. */
  ghost function Needed(s: Fs, n: nat, lo: nat, hi: nat): (c: nat)
    requires Shape(s) && n < |s.inodes|
  {
    Missing(s, n, lo, hi) + if lo < hi && NDIRECT < hi && s.inodes[n].addrs[NDIRECT] == 0 then 1 else 0
  }

  lemma {:induction false} NeededGrows(s: Fs, n: nat, lo: nat, h: nat, hi: nat)
    requires Shape(s) && n < |s.inodes| && h <= hi
    ensures Needed(s, n, lo, h) <= Needed(s, n, lo, hi)
    decreases hi
  {
    if h < hi { NeededGrows(s, n, lo, h, hi - 1); }
  }

  /** The disk blocks of blocks lo..hi of the file. */
  ghost function DataBlocks(t: Fs, n: nat, lo: nat, hi: nat): (bs: set<nat>)
    requires Shape(t) && n < |t.inodes| && hi <= MAXFILE
    decreases hi
  {
    if hi <= lo then {} else DataBlocks(t, n, lo, hi - 1) + {Addr(t, n, Slot(hi - 1))}
  }

  /** The indirect block, if an entry of it was missing. */
  ghost function EntryBlocks(s: Fs, t: Fs, n: nat, lo: nat, hi: nat): (bs: set<nat>)
    requires Shape(s) && n < |s.inodes| && Shape(t) && n < |t.inodes|
  {
    if Missing(s, n, if lo < NDIRECT then NDIRECT else lo, hi) > 0 then Indirect(t, n) else {}
  }

  /** The blocks a write of blocks lo..hi logs, besides the inode's: the data blocks, the
      bitmap blocks of those allocated, and the indirect block if it got an entry. */
  ghost function Footprint(s: Fs, t: Fs, n: nat, lo: nat, hi: nat): (bs: set<nat>)
    requires Shape(s) && n < |s.inodes| && Shape(t) && n < |t.inodes| && hi <= MAXFILE
  {
    DataBlocks(t, n, lo, hi) + Bitmaps(t.sb, NewBlocks(s, t)) + EntryBlocks(s, t, n, lo, hi)
  }

  /** t is s with blocks lo..h of file n there, and nothing else allocated. */
  ghost predicate Taken(s: Fs, t: Fs, n: nat, lo: nat, h: nat)
    requires Shape(s) && n < |s.inodes| && Shape(t) && n < |t.inodes| && h <= MAXFILE
  {
    && t.sb == s.sb && s.owner.Keys <= t.owner.Keys && |t.owner| == |s.owner| + Needed(s, n, lo, h)
    && (forall bn :: h <= bn < MAXFILE ==> Addr(t, n, Slot(bn)) == Addr(s, n, Slot(bn)))
    && (if lo < h && NDIRECT < h then t.inodes[n].addrs[NDIRECT] != 0
        else t.inodes[n].addrs[NDIRECT] == s.inodes[n].addrs[NDIRECT])
  }

  lemma TakenStart(s: Fs, n: nat, lo: nat)
    requires Inv(s) && n < |s.inodes| && lo <= MAXFILE
    ensures Taken(s, s, n, lo, lo) && Footprint(s, s, n, lo, lo) == {}
  {
    hide Addr, Owned;
    assert NewBlocks(s, s) == {};
  }

  lemma TakenNeed(s: Fs, t: Fs, n: nat, lo: nat, h: nat)
    requires Shape(s) && n < |s.inodes| && Shape(t) && n < |t.inodes| && lo <= h < MAXFILE
    requires Taken(s, t, n, lo, h)
    ensures Fresh(t, n, h) == Fresh(s, n, h)
    ensures Needed(s, n, lo, h + 1) == Needed(s, n, lo, h) + Need(t, n, h)
  {
    hide Addr;
  }

  lemma TakenStep(s: Fs, t: Fs, u: Fs, n: nat, lo: nat, h: nat)
    requires Shape(s) && n < |s.inodes| && Shape(t) && n < |t.inodes| && Shape(u) && n < |u.inodes| && lo <= h < MAXFILE
    requires Taken(s, t, n, lo, h) && Mapped(t, u, n, h)
    ensures Taken(s, u, n, lo, h + 1)
  {
    hide Addr, NewBlocks, EntryBlock;
    TakenNeed(s, t, n, lo, h);
    forall bn | h < bn < MAXFILE ensures Addr(u, n, Slot(bn)) == Addr(t, n, Slot(bn)) {
      assert Slot(bn) != Slot(h);
    }
  }

  /** The room left decides whether the next block, and so the whole range, can be had. */
  lemma TakenRoom(s: Fs, t: Fs, n: nat, lo: nat, h: nat, hi: nat)
    requires Inv(s) && n < |s.inodes| && Inv(t) && n < |t.inodes| && lo <= h < hi && h < MAXFILE
    requires Taken(s, t, n, lo, h)
    ensures Need(t, n, h) > Room(t) ==> Needed(s, n, lo, hi) > Room(s)
  {
    hide Addr, Owned, Need, Needed;
    TakenNeed(s, t, n, lo, h);
    NeededGrows(s, n, lo, h + 1, hi);
  }

  lemma TakenAll(s: Fs, t: Fs, n: nat, lo: nat, hi: nat)
    requires Inv(s) && n < |s.inodes| && Inv(t) && n < |t.inodes| && hi <= MAXFILE && Taken(s, t, n, lo, hi)
    ensures Needed(s, n, lo, hi) <= Room(s)
  {
    hide Addr, Owned, Needed;
    RoomFree(t);
  }

  lemma {:induction false} SameData(t: Fs, u: Fs, n: nat, lo: nat, h: nat, hi: nat)
    requires Shape(t) && n < |t.inodes| && Shape(u) && n < |u.inodes| && hi <= h < MAXFILE
    requires forall k :: 0 <= k < SLOTS && k != Slot(h) && k != NDIRECT ==> Addr(u, n, k) == Addr(t, n, k)
    ensures DataBlocks(u, n, lo, hi) == DataBlocks(t, n, lo, hi)
    decreases hi
  {
    hide Addr;
    if lo < hi { SameData(t, u, n, lo, h, hi - 1); }
  }

  /** The footprint grows by what mapping and writing one block logs. */
  lemma FootprintStep(s: Fs, t: Fs, u: Fs, n: nat, lo: nat, h: nat)
    requires Shape(s) && n < |s.inodes| && Shape(t) && n < |t.inodes| && Shape(u) && n < |u.inodes| && lo <= h < MAXFILE
    requires Taken(s, t, n, lo, h) && Mapped(t, u, n, h)
    ensures Footprint(s, u, n, lo, h + 1) ==
            Footprint(s, t, n, lo, h) + MapLogs(t, u, n, h) + {Addr(u, n, Slot(h))}
  {
    hide Addr, Bitmaps, Need, Needed;
    SameData(t, u, n, lo, h, h);
    TakenNeed(s, t, n, lo, h);
    EntryStep(s, t, u, n, lo, h);
    NewStep(s, t, u);
    BitmapsUnion(s.sb, NewBlocks(s, t), NewBlocks(t, u));
    hide NewBlocks, EntryBlock, EntryBlocks;
    FootprintSum(DataBlocks(t, n, lo, h), Bitmaps(s.sb, NewBlocks(s, t)), EntryBlocks(s, t, n, lo, h),
                 Bitmaps(s.sb, NewBlocks(t, u)), EntryBlock(t, u, n, h), NewBlocks(t, u), {Addr(u, n, Slot(h))});
  }

  lemma NewStep(s: Fs, t: Fs, u: Fs)
    requires s.owner.Keys <= t.owner.Keys <= u.owner.Keys
    ensures NewBlocks(s, u) == NewBlocks(s, t) + NewBlocks(t, u)
  {
  }

  lemma FootprintSum(d: set<nat>, b: set<nat>, e: set<nat>, b': set<nat>, e': set<nat>, x: set<nat>, a: set<nat>)
    requires x <= a + e'
    ensures d + a + (b + b') + (e + e') == d + b + e + (x + b' + e') + a
  {
  }

  lemma EntryStep(s: Fs, t: Fs, u: Fs, n: nat, lo: nat, h: nat)
    requires Shape(s) && n < |s.inodes| && Shape(t) && n < |t.inodes| && Shape(u) && n < |u.inodes| && lo <= h < MAXFILE
    requires Taken(s, t, n, lo, h) && Mapped(t, u, n, h)
    ensures EntryBlocks(s, u, n, lo, h + 1) == EntryBlocks(s, t, n, lo, h) + EntryBlock(t, u, n, h)
  {
    hide Addr, NewBlocks, Need, Needed;
    TakenNeed(s, t, n, lo, h);
  }

  // ----- how much that is -----

  lemma {:induction false} DataSize(t: Fs, n: nat, lo: nat, hi: nat)
    requires Shape(t) && n < |t.inodes| && lo <= hi <= MAXFILE
    ensures |DataBlocks(t, n, lo, hi)| <= hi - lo
    decreases hi
  {
    hide Addr;
    if lo < hi { DataSize(t, n, lo, hi - 1); }
  }

  lemma {:induction false} BitmapsSize(sb: Super, bs: set<nat>)
    ensures |Bitmaps(sb, bs)| <= |bs|
  {
    if bs != {} {
      var b :| b in bs;
      BitmapsSize(sb, bs - {b});
      assert Bitmaps(sb, bs) == Bitmaps(sb, bs - {b}) + {Bblock(sb, b)};
    }
  }

  lemma {:induction false} MissingBound(s: Fs, n: nat, lo: nat, hi: nat)
    requires Shape(s) && n < |s.inodes| && lo <= hi
    ensures Missing(s, n, lo, hi) <= hi - lo
    ensures lo < hi && Fresh(s, n, lo) == 0 ==> Missing(s, n, lo, hi) < hi - lo
    decreases hi
  {
    hide Fresh;
    if lo < hi { MissingBound(s, n, lo, hi - 1); }
  }

  /** A write logs its data blocks, a bitmap block for each block allocated, the indirect
      block and the inode's block at most. */
  lemma FootprintSize(s: Fs, t: Fs, n: nat, lo: nat, hi: nat, ib: nat)
    requires Shape(s) && n < |s.inodes| && Shape(t) && n < |t.inodes| && lo <= hi <= MAXFILE
    requires Taken(s, t, n, lo, hi)
    ensures |Footprint(s, t, n, lo, hi) + {ib}| <= hi - lo + Missing(s, n, lo, hi) + 3
  {
    hide Addr, Missing, Bitmaps, DataBlocks, EntryBlocks;
    DataSize(t, n, lo, hi);
    BitmapsSize(t.sb, NewBlocks(s, t));
    NewCount(s, t);
    EntrySize(s, t, n, lo, hi);
    var d, b, e := DataBlocks(t, n, lo, hi), Bitmaps(t.sb, NewBlocks(s, t)), EntryBlocks(s, t, n, lo, hi);
    assert |d + b| <= |d| + |b| && |d + b + e| <= |d + b| + |e|;
  }

  lemma NewCount(s: Fs, t: Fs)
    requires s.owner.Keys <= t.owner.Keys
    ensures |t.owner| == |s.owner| + |NewBlocks(s, t)|
  {
    assert t.owner.Keys == s.owner.Keys + NewBlocks(s, t);
    assert |t.owner.Keys| == |s.owner.Keys| + |NewBlocks(s, t)|;
  }

  lemma EntrySize(s: Fs, t: Fs, n: nat, lo: nat, hi: nat)
    requires Shape(s) && n < |s.inodes| && Shape(t) && n < |t.inodes|
    ensures |EntryBlocks(s, t, n, lo, hi)| <= 1
  {
  }

  // ----- the blocks a byte range touches -----

  /** How many blocks the t bytes from off touch. */
  function Spanned(off: nat, t: nat): (q: nat) {
    if t == 0 then 0 else (off + t - 1) / BSIZE - off / BSIZE + 1
  }

  lemma WithinBlock(off: nat, i: nat)
    requires off % BSIZE + i < BSIZE
    ensures (off + i) / BSIZE == off / BSIZE && (off + i) % BSIZE == off % BSIZE + i
  {
  }

  lemma SpanStep(off: nat, tot: nat, m: nat)
    requires 0 < m && (off + tot) % BSIZE + m <= BSIZE && (tot == 0 || (off + tot) % BSIZE == 0)
    ensures Spanned(off, tot + m) == Spanned(off, tot) + 1
    ensures (off + tot) / BSIZE == off / BSIZE + Spanned(off, tot)
  {
    if tot == 0 {
      WithinBlock(off, m - 1);
    } else {
      WithinBlock(off + tot, m - 1);
      assert (off + tot - 1) / BSIZE == (off + tot) / BSIZE - 1;
    }
  }

  lemma SpanZero(off: nat)
    ensures Spanned(off, 0) == 0
  {
  }

  lemma SpanFits(off: nat, t: nat)
    requires off + t <= MAXBYTES
    ensures off / BSIZE + Spanned(off, t) <= MAXFILE
  {
  }

  lemma {:induction false} SpanGrows(off: nat, t: nat, u: nat)
    requires t <= u
    ensures Spanned(off, t) <= Spanned(off, u)
  {
    if 0 < t < u { assert (off + t - 1) / BSIZE <= (off + u - 1) / BSIZE; }
  }

  /** The transaction bound: a chunk of filewrite touches four blocks at most and allocates
      three of them at most, because files have no holes. */
  lemma ChunkBound(s: Fs, t: Fs, n: nat, off: nat, m: nat)
    requires Good(s) && n < |s.inodes| && off <= s.inodes[n].size && m <= 3 * BSIZE && off + m <= MAXBYTES
    requires Shape(t) && n < |t.inodes| && off / BSIZE + Spanned(off, m) <= MAXFILE
    requires Taken(s, t, n, off / BSIZE, off / BSIZE + Spanned(off, m))
    ensures |Footprint(s, t, n, off / BSIZE, off / BSIZE + Spanned(off, m)) + {s.sb.inodestart + n / 16}| <= MAXOPBLOCKS
  {
    hide Addr, Owned, Footprint, Taken, Missing, Fresh;
    var lo := off / BSIZE;
    var hi := lo + Spanned(off, m);
    FootprintSize(s, t, n, lo, hi, Iblock(s.sb, n));
    MissingBound(s, n, lo, hi);
    FourBlocks(off, m);
    if off % BSIZE != 0 && m > 0 { BeginsInside(s, n, off); }
  }

  lemma FourBlocks(off: nat, m: nat)
    requires m <= 3 * BSIZE
    ensures Spanned(off, m) <= 4 && (off % BSIZE == 0 ==> Spanned(off, m) <= 3)
  {
    if m > 0 {
      assert (off + m - 1) / BSIZE <= off / BSIZE + 3;
      if off % BSIZE == 0 { assert (off + m - 1) / BSIZE <= off / BSIZE + 2; }
    }
  }

  /** A write that begins inside a block finds that block there. */
  lemma BeginsInside(s: Fs, n: nat, off: nat)
    requires Good(s) && n < |s.inodes| && off <= s.inodes[n].size && off % BSIZE != 0
    ensures Fresh(s, n, off / BSIZE) == 0
  {
    hide Addr, Owned;
    assert Filled(s, n, s.inodes[n].size);
    assert (off / BSIZE) * BSIZE < off;
  }

  // ----- steps that allocate nothing -----

  lemma MappedOverwrite(t: Fs, u: Fs, n: nat, bn: nat, d: Block)
    requires Inv(t) && Inv(u) && n < |t.inodes| && n < |u.inodes| && Mapped(t, u, n, bn)
    requires Addr(u, n, Slot(bn)) < |u.disk| && Shape(Overwrite(u, n, bn, d))
    requires forall n', k :: 0 <= n' < |u.inodes| && 0 <= k < SLOTS ==>
             Addr(Overwrite(u, n, bn, d), n', k) == Addr(u, n', k)
    ensures Mapped(t, Overwrite(u, n, bn, d), n, bn)
    ensures MapLogs(t, Overwrite(u, n, bn, d), n, bn) == MapLogs(t, u, n, bn)
  {
    hide Addr, Owned, Need, Fresh, Bitmaps;
  }

  lemma {:induction false} ResizedData(t: Fs, n: nat, end: nat, lo: nat, hi: nat)
    requires Shape(t) && n < |t.inodes| && hi <= MAXFILE
    ensures Shape(Resized(t, n, end)) && DataBlocks(Resized(t, n, end), n, lo, hi) == DataBlocks(t, n, lo, hi)
    decreases hi
  {
    if lo < hi { ResizedData(t, n, end, lo, hi - 1); }
  }

  lemma ResizedTaken(s: Fs, t: Fs, n: nat, end: nat, lo: nat, hi: nat)
    requires Shape(s) && n < |s.inodes| && Shape(t) && n < |t.inodes| && hi <= MAXFILE && Taken(s, t, n, lo, hi)
    ensures Shape(Resized(t, n, end)) && Taken(s, Resized(t, n, end), n, lo, hi)
    ensures Footprint(s, Resized(t, n, end), n, lo, hi) == Footprint(s, t, n, lo, hi)
  {
    ResizedData(t, n, end, lo, hi);
    var u := Resized(t, n, end);
    assert forall k :: 0 <= k < SLOTS ==> Addr(u, n, k) == Addr(t, n, k);
    hide Addr, DataBlocks, Missing, Fresh, Bitmaps;
  }
}
