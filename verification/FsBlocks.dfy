/** What allocating, freeing and writing a block does to every file (kernel/fs.c). */
module FsBlocks {
  import opened Machine
  import opened Blocks
  import opened FsLayout

  // ----- facts about one slot -----

  lemma ZeroWord(j: nat)
    requires j < WORDS
    ensures Word(ZERO, j) == 0
  {
  }

  /** A block in a slot is a data block with that slot as its owner. */
  lemma SlotBlock(s: Fs, n: nat, k: nat)
    requires Inv(s) && n < |s.inodes| && k < SLOTS && Addr(s, n, k) != 0
    ensures var a := Addr(s, n, k);
            a in s.owner && s.owner[a] == Place(n, k) && s.sb.data <= a < s.sb.size && Marked(s.sb, s.disk, a)
  {
  }

  lemma BitmapBelow(s: Fs, b: nat)
    requires Shape(s) && b < s.sb.size
    ensures Bblock(s.sb, b) < s.sb.data
  {
  }

  /** Slot k of an inode is usable: direct, or with its indirect block there. */
  predicate Reachable(s: Fs, n: nat, k: nat)
    requires Shape(s) && n < |s.inodes| && k < SLOTS
  {
    k <= NDIRECT || s.inodes[n].addrs[NDIRECT] != 0
  }

  // ----- putting a fresh block into an empty slot -----

  /** balloc of block b, and the assignment of its number to slot k of inode n. */
  function Alloc(s: Fs, n: nat, k: nat, b: nat): (t: Fs)
    requires Shape(s) && n < |s.inodes| && k < SLOTS && b < s.sb.size
    requires k <= NDIRECT || s.inodes[n].addrs[NDIRECT] < |s.disk|
  {
    var d := Mark(s.sb, s.disk, b, true)[b := ZERO];
    if k <= NDIRECT then
      var ip := s.inodes[n];
      s.(disk := d, inodes := s.inodes[n := ip.(addrs := ip.addrs[k := b])], owner := s.owner[b := Place(n, k)])
    else
      var ind := s.inodes[n].addrs[NDIRECT];
      s.(disk := d[ind := SetWord(d[ind], k - NDIRECT - 1, b)], owner := s.owner[b := Place(n, k)])
  }

  ghost predicate CanAlloc(s: Fs, n: nat, k: nat, b: nat) {
    && Inv(s) && n < |s.inodes| && k < SLOTS && Reachable(s, n, k) && Addr(s, n, k) == 0
    && s.sb.data <= b < s.sb.size && b !in s.owner
  }

  lemma AllocShape(s: Fs, n: nat, k: nat, b: nat)
    requires CanAlloc(s, n, k, b)
    ensures k <= NDIRECT || s.inodes[n].addrs[NDIRECT] < |s.disk|
    ensures Shape(Alloc(s, n, k, b))
  {
    if k > NDIRECT {
      SlotBlock(s, n, NDIRECT);
    }
  }

  /** A block that is neither a bitmap block, nor b, nor the indirect block written, stays. */
  lemma AllocDisk(s: Fs, n: nat, k: nat, b: nat, c: nat)
    requires CanAlloc(s, n, k, b) && s.sb.data <= c < |s.disk| && c != b
    requires k > NDIRECT ==> c != s.inodes[n].addrs[NDIRECT]
    ensures k <= NDIRECT || s.inodes[n].addrs[NDIRECT] < |s.disk|
    ensures Alloc(s, n, k, b).disk[c] == s.disk[c]
  {
    hide Owned;
    AllocShape(s, n, k, b);
    BitmapBelow(s, b);
  }

  /** The slots after the allocation: slot k of inode n holds b, all others are as before. */
  lemma AllocAddr(s: Fs, n: nat, k: nat, b: nat, n': nat, k': nat)
    requires CanAlloc(s, n, k, b) && n' < |s.inodes| && k' < SLOTS
    ensures k <= NDIRECT || s.inodes[n].addrs[NDIRECT] < |s.disk|
    ensures Shape(Alloc(s, n, k, b))
    ensures Addr(Alloc(s, n, k, b), n', k') == if n' == n && k' == k then b else Addr(s, n', k')
  {
    hide Owned, Word, SetWord;
    AllocShape(s, n, k, b);
    if k' > NDIRECT {
      var j := k' - NDIRECT - 1;
      if n' == n && k == NDIRECT {
        ZeroWord(j);
      } else if s.inodes[n'].addrs[NDIRECT] != 0 {
        SlotBlock(s, n', NDIRECT);
        var ind := s.inodes[n'].addrs[NDIRECT];
        if n' == n && k > NDIRECT {
          BitmapBelow(s, b);
          WordOfSetWord(s.disk[ind], k - NDIRECT - 1, b, j);
        } else {
          if k > NDIRECT { SlotBlock(s, n, NDIRECT); }
          AllocDisk(s, n, k, b, ind);
        }
      }
    }
  }

  lemma AllocMarked(s: Fs, n: nat, k: nat, b: nat, c: nat)
    requires CanAlloc(s, n, k, b) && c < s.sb.size
    ensures k <= NDIRECT || s.inodes[n].addrs[NDIRECT] < |s.disk|
    ensures Shape(Alloc(s, n, k, b))
    ensures Marked(s.sb, Alloc(s, n, k, b).disk, c) == (c == b || Marked(s.sb, s.disk, c))
  {
    hide Owned, Word, SetWord, Bit, PutMark;
    AllocShape(s, n, k, b);
    MarkedMark(s.sb, s.disk, b, true, c);
    BitmapBelow(s, c);
    BitmapBelow(s, b);
    if k > NDIRECT {
      SlotBlock(s, n, NDIRECT);
    }
  }

  lemma AllocKeeps(s: Fs, n: nat, k: nat, b: nat)
    requires CanAlloc(s, n, k, b)
    ensures k <= NDIRECT || s.inodes[n].addrs[NDIRECT] < |s.disk|
    ensures Inv(Alloc(s, n, k, b))
  {
    AllocShape(s, n, k, b);
    var t := Alloc(s, n, k, b);
    forall n', k' | 0 <= n' < |s.inodes| && 0 <= k' < SLOTS
      ensures Addr(t, n', k') == if n' == n && k' == k then b else Addr(s, n', k')
    {
      AllocAddr(s, n, k, b, n', k');
    }
    forall c | 0 <= c < s.sb.size ensures Marked(s.sb, t.disk, c) == (c == b || Marked(s.sb, s.disk, c)) {
      AllocMarked(s, n, k, b, c);
    }
    hide Addr, Marked, Alloc;
    OwnedAfterAlloc(s, n, k, b, t);
  }

  lemma OwnedAfterAlloc(s: Fs, n: nat, k: nat, b: nat, t: Fs)
    requires CanAlloc(s, n, k, b) && Shape(t) && t.sb == s.sb && |t.inodes| == |s.inodes|
    requires t.owner == s.owner[b := Place(n, k)]
    requires forall n', k' :: 0 <= n' < |s.inodes| && 0 <= k' < SLOTS ==>
               Addr(t, n', k') == if n' == n && k' == k then b else Addr(s, n', k')
    requires forall c :: 0 <= c < s.sb.size ==> (Marked(s.sb, t.disk, c) <==> c == b || Marked(s.sb, s.disk, c))
    ensures Owned(t)
  {
    hide Addr, Marked;
  }

  // ----- files as bytes -----

  const MAXBYTES := 274432  // MAXFILE * BSIZE

  /** Byte i of file n; a block that is not there reads as zeros. */
  ghost function Byte(s: Fs, n: nat, i: nat): (x: byte)
    requires Shape(s) && n < |s.inodes| && i < MAXBYTES
  {
    var a := Addr(s, n, Slot(i / BSIZE));
    if a == 0 || a >= |s.disk| then 0 else s.disk[a].bytes[i % BSIZE]
  }

  ghost predicate SameBytes(s: Fs, t: Fs)
    requires Shape(s) && Shape(t)
  {
    && |t.inodes| == |s.inodes|
    && (forall n :: 0 <= n < |s.inodes| ==> t.inodes[n].size == s.inodes[n].size)
    && (forall n, i :: 0 <= n < |s.inodes| && 0 <= i < MAXBYTES ==> Byte(t, n, i) == Byte(s, n, i))
  }

  /** Allocation changes no byte of any file. */
  lemma AllocByte(s: Fs, n: nat, k: nat, b: nat, n': nat, i: nat)
    requires CanAlloc(s, n, k, b) && n' < |s.inodes| && i < MAXBYTES
    ensures k <= NDIRECT || s.inodes[n].addrs[NDIRECT] < |s.disk|
    ensures Shape(Alloc(s, n, k, b))
    ensures Byte(Alloc(s, n, k, b), n', i) == Byte(s, n', i)
  {
    hide Owned, Addr;
    var k' := Slot(i / BSIZE);
    AllocAddr(s, n, k, b, n', k');
    if n' == n && k' == k {
      ZeroAfterAlloc(s, n, k, b);
    } else if Addr(s, n', k') != 0 {
      SlotBlock(s, n', k');
      if k > NDIRECT { IndirectBlock(s, n); }
      AllocDisk(s, n, k, b, Addr(s, n', k'));
    }
  }

  lemma IndirectBlock(s: Fs, n: nat)
    requires Inv(s) && n < |s.inodes| && s.inodes[n].addrs[NDIRECT] != 0
    ensures var a := s.inodes[n].addrs[NDIRECT];
            a == Addr(s, n, NDIRECT) && a in s.owner && s.owner[a] == Place(n, NDIRECT) && s.sb.data <= a < s.sb.size
  {
    SlotBlock(s, n, NDIRECT);
  }

  lemma ZeroAfterAlloc(s: Fs, n: nat, k: nat, b: nat)
    requires CanAlloc(s, n, k, b)
    ensures k <= NDIRECT || s.inodes[n].addrs[NDIRECT] < |s.disk|
    ensures Alloc(s, n, k, b).disk[b] == ZERO
  {
    if k > NDIRECT { IndirectBlock(s, n); }
  }

  lemma AllocBytes(s: Fs, n: nat, k: nat, b: nat)
    requires CanAlloc(s, n, k, b)
    ensures k <= NDIRECT || s.inodes[n].addrs[NDIRECT] < |s.disk|
    ensures Inv(Alloc(s, n, k, b)) && SameBytes(s, Alloc(s, n, k, b))
  {
    AllocKeeps(s, n, k, b);
    var t := Alloc(s, n, k, b);
    forall n', i | 0 <= n' < |s.inodes| && 0 <= i < MAXBYTES ensures Byte(t, n', i) == Byte(s, n', i) {
      AllocByte(s, n, k, b, n', i);
    }
    hide Owned, Byte, Addr;
  }

  /** Replacing the contents of the bn-th block of file n. */
  function Overwrite(s: Fs, n: nat, bn: nat, d: Block): (t: Fs)
    requires Shape(s) && n < |s.inodes| && bn < MAXFILE && Addr(s, n, Slot(bn)) < |s.disk|
  {
    s.(disk := s.disk[Addr(s, n, Slot(bn)) := d])
  }

  lemma OverwriteAddr(s: Fs, n: nat, bn: nat, d: Block, n': nat, k': nat)
    requires Inv(s) && n < |s.inodes| && bn < MAXFILE && Addr(s, n, Slot(bn)) != 0
    requires n' < |s.inodes| && k' < SLOTS
    ensures Addr(s, n, Slot(bn)) < |s.disk| && Shape(Overwrite(s, n, bn, d))
    ensures Addr(Overwrite(s, n, bn, d), n', k') == Addr(s, n', k')
  {
    hide Owned;
    SlotBlock(s, n, Slot(bn));
    if s.inodes[n'].addrs[NDIRECT] != 0 {
      IndirectBlock(s, n');
    }
  }

  lemma OverwriteKeeps(s: Fs, n: nat, bn: nat, d: Block)
    requires Inv(s) && n < |s.inodes| && bn < MAXFILE && Addr(s, n, Slot(bn)) != 0
    ensures Addr(s, n, Slot(bn)) < |s.disk| && Inv(Overwrite(s, n, bn, d))
  {
    SlotBlock(s, n, Slot(bn));
    var t := Overwrite(s, n, bn, d);
    forall n', k' | 0 <= n' < |s.inodes| && 0 <= k' < SLOTS ensures Addr(t, n', k') == Addr(s, n', k') {
      OverwriteAddr(s, n, bn, d, n', k');
    }
    forall c | 0 <= c < s.sb.size ensures Marked(s.sb, t.disk, c) == Marked(s.sb, s.disk, c) {
      BitmapBelow(s, c);
    }
    hide Addr, Marked;
  }

  /** Only the bytes of that block of that file change. */
  lemma OverwriteByte(s: Fs, n: nat, bn: nat, d: Block, n': nat, i: nat)
    requires Inv(s) && n < |s.inodes| && bn < MAXFILE && Addr(s, n, Slot(bn)) != 0
    requires n' < |s.inodes| && i < MAXBYTES
    ensures Addr(s, n, Slot(bn)) < |s.disk| && Shape(Overwrite(s, n, bn, d))
    ensures Byte(Overwrite(s, n, bn, d), n', i) ==
            if n' == n && i / BSIZE == bn then d.bytes[i % BSIZE] else Byte(s, n', i)
  {
    hide Owned, Addr;
    SlotBlock(s, n, Slot(bn));
    OverwriteAddr(s, n, bn, d, n', Slot(i / BSIZE));
    if Addr(s, n', Slot(i / BSIZE)) != 0 {
      SlotBlock(s, n', Slot(i / BSIZE));
    }
  }

  // ----- truncation -----

  /** The order in which itrunc visits the slots: direct blocks, entries, indirect block. */
  function Order(j: nat): (k: nat)
    requires j < SLOTS
    ensures k < SLOTS
  {
    if j < NDIRECT then j else if j < SLOTS - 1 then j + 1 else NDIRECT
  }

  function Rank(k: nat): (j: nat)
    requires k < SLOTS
    ensures j < SLOTS && Order(j) == k
  {
    if k < NDIRECT then k else if k == NDIRECT then SLOTS - 1 else k - 1
  }

  /** The disk after itrunc has visited j slots of inode n. */
  ghost function Freed(s: Fs, n: nat, j: nat): (d: seq<Block>)
    requires Inv(s) && n < |s.inodes| && j <= SLOTS
    ensures |d| == |s.disk|
  {
    if j == 0 then s.disk
    else
      var a := Addr(s, n, Order(j - 1));
      if a == 0 then Freed(s, n, j - 1)
      else SlotBlock(s, n, Order(j - 1)); Mark(s.sb, Freed(s, n, j - 1), a, false)
  }

  /** Block c belongs to one of the first j slots visited. */
  ghost predicate Visited(s: Fs, n: nat, j: nat, c: nat)
    requires Inv(s)
  {
    c in s.owner && s.owner[c].inum == n && s.owner[c].slot < SLOTS && Rank(s.owner[c].slot) < j
  }

  /** itrunc clears the mark of exactly the blocks it has visited, and no data block. */
  lemma {:induction false} FreedIs(s: Fs, n: nat, j: nat, c: nat)
    requires Inv(s) && n < |s.inodes| && j <= SLOTS
    ensures s.sb.data <= c < |s.disk| ==> Freed(s, n, j)[c] == s.disk[c]
    ensures c < s.sb.size ==>
              (Marked(s.sb, Freed(s, n, j), c) <==> Marked(s.sb, s.disk, c) && !Visited(s, n, j, c))
  {
    hide Owned, Marked, Addr, Mark, Visited;
    if j == 0 {
      NoneVisited(s, n, c);
    } else {
      FreedIs(s, n, j - 1, c);
      VisitedStep(s, n, j, c);
      var a := Addr(s, n, Order(j - 1));
      if a != 0 {
        SlotBlock(s, n, Order(j - 1));
        MarkElsewhere(s, Freed(s, n, j - 1), a, c);
      }
    }
  }

  lemma NoneVisited(s: Fs, n: nat, c: nat)
    requires Inv(s)
    ensures !Visited(s, n, 0, c)
  {
  }

  lemma VisitedStep(s: Fs, n: nat, j: nat, c: nat)
    requires Inv(s) && n < |s.inodes| && 0 < j <= SLOTS
    ensures Visited(s, n, j, c) <==>
            Visited(s, n, j - 1, c) || (c != 0 && c == Addr(s, n, Order(j - 1)))
  {
    hide Owned, Addr;
    var a := Addr(s, n, Order(j - 1));
    if a != 0 { SlotBlock(s, n, Order(j - 1)); }
    if c in s.owner { OwnerSlot(s, c); }
  }

  lemma MarkElsewhere(s: Fs, d: seq<Block>, a: nat, c: nat)
    requires Shape(s) && |d| == |s.disk| && a < s.sb.size
    ensures Bblock(s.sb, a) < |d|
    ensures s.sb.data <= c < |d| ==> Mark(s.sb, d, a, false)[c] == d[c]
    ensures c < s.sb.size ==>
            Bblock(s.sb, c) < |d| && (Marked(s.sb, Mark(s.sb, d, a, false), c) <==> Marked(s.sb, d, c) && c != a)
  {
    BitmapBelow(s, a);
    if c < s.sb.size {
      BitmapBelow(s, c);
      MarkedMark(s.sb, d, a, false, c);
    }
  }

  lemma OwnerSlot(s: Fs, c: nat)
    requires Inv(s) && c in s.owner
    ensures s.owner[c].inum < |s.inodes| && s.owner[c].slot < SLOTS
    ensures Addr(s, s.owner[c].inum, s.owner[c].slot) == c != 0
  {
  }

  /** The file system with inode n's blocks given back. */
  ghost function Truncated(s: Fs, n: nat): (t: Fs)
    requires Inv(s) && n < |s.inodes|
  {
    Fs(s.sb, Freed(s, n, SLOTS), s.inodes[n := Inode(0, Zeros(NDIRECT + 1))],
       map b | b in s.owner && s.owner[b].inum != n :: s.owner[b])
  }

  lemma TruncatedAddr(s: Fs, n: nat, n': nat, k: nat)
    requires Inv(s) && n < |s.inodes| && n' < |s.inodes| && k < SLOTS
    ensures Shape(Truncated(s, n))
    ensures Addr(Truncated(s, n), n', k) == if n' == n then 0 else Addr(s, n', k)
  {
    hide Owned, Freed;
    if n' != n && s.inodes[n'].addrs[NDIRECT] != 0 {
      IndirectBlock(s, n');
      FreedIs(s, n, SLOTS, s.inodes[n'].addrs[NDIRECT]);
    }
  }

  /** itrunc frees exactly the inode's own blocks, and the ownership invariant holds again. */
  lemma TruncatedKeeps(s: Fs, n: nat)
    requires Inv(s) && n < |s.inodes|
    ensures Inv(Truncated(s, n))
    ensures forall c :: 0 <= c < s.sb.size ==>
              (Marked(s.sb, Truncated(s, n).disk, c) <==>
               Marked(s.sb, s.disk, c) && !(c in s.owner && s.owner[c].inum == n))
  {
    hide Owned, Addr, Marked, Freed, Visited;
    var t := Truncated(s, n);
    assert Shape(t) by { TruncatedAddr(s, n, n, 0); }
    forall n', k | 0 <= n' < |s.inodes| && 0 <= k < SLOTS
      ensures Addr(t, n', k) == if n' == n then 0 else Addr(s, n', k)
    {
      TruncatedAddr(s, n, n', k);
    }
    forall c | 0 <= c < s.sb.size
      ensures Marked(s.sb, t.disk, c) <==> Marked(s.sb, s.disk, c) && !(c in s.owner && s.owner[c].inum == n)
    {
      FreedIs(s, n, SLOTS, c);
      AllVisited(s, n, c);
    }
    OwnedAfterTrunc(s, n, t);
  }

  lemma AllVisited(s: Fs, n: nat, c: nat)
    requires Inv(s)
    ensures Visited(s, n, SLOTS, c) <==> c in s.owner && s.owner[c].inum == n
  {
  }

  lemma OwnedAfterTrunc(s: Fs, n: nat, t: Fs)
    requires Inv(s) && n < |s.inodes| && Shape(t) && t.sb == s.sb && |t.inodes| == |s.inodes|
    requires t.owner == map b | b in s.owner && s.owner[b].inum != n :: s.owner[b]
    requires forall n', k :: 0 <= n' < |s.inodes| && 0 <= k < SLOTS ==>
               Addr(t, n', k) == if n' == n then 0 else Addr(s, n', k)
    requires forall c :: 0 <= c < s.sb.size ==>
               (Marked(s.sb, t.disk, c) <==> Marked(s.sb, s.disk, c) && !(c in s.owner && s.owner[c].inum == n))
    ensures Owned(t)
  {
    hide Addr, Marked;
  }

  /** Truncating one file changes no byte of another. */
  lemma TruncatedByte(s: Fs, n: nat, n': nat, i: nat)
    requires Inv(s) && n < |s.inodes| && n' < |s.inodes| && n' != n && i < MAXBYTES
    ensures Shape(Truncated(s, n)) && Byte(Truncated(s, n), n', i) == Byte(s, n', i)
  {
    hide Owned, Freed, Addr;
    var k := Slot(i / BSIZE);
    TruncatedAddr(s, n, n', k);
    if Addr(s, n', k) != 0 {
      SlotBlock(s, n', k);
      FreedIs(s, n, SLOTS, Addr(s, n', k));
    }
  }
}
