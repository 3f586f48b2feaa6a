/** filewrite's arithmetic for the size of a chunk (kernel/file.c) leaves nothing to spare:
    there is a file system in which one chunk logs exactly MAXOPBLOCKS blocks. */
module FsTight {
  import opened Machine
  import opened Param
  import opened Blocks
  import opened FsLayout
  import opened FsBlocks
  import opened FsFiles
  import opened FsSpace
  import opened FileSystem
  import opened Counting

  const OFF := 11 * BSIZE + 1

  /** The worst case: a file that ends inside its last direct block, and four free blocks,
      each with its bit in another block of the free map. */
  ghost predicate Tight(s: Fs, n: nat)
    ensures Tight(s, n) ==> Good(s) && n < |s.inodes|
  {
    && Good(s) && n < |s.inodes| && s.inodes[n].size == OFF && s.inodes[n].addrs[NDIRECT] == 0 && Room(s) == 4
    && (forall b, c :: s.sb.data <= b < c < s.sb.size && b !in s.owner && c !in s.owner ==>
        Bblock(s.sb, b) != Bblock(s.sb, c))
  }

  // ----- such a write logs ten blocks -----

  lemma {:induction false} BitmapsExact(s: Fs, bs: set<nat>)
    requires forall b, c :: b in bs && c in bs && b != c ==> Bblock(s.sb, b) != Bblock(s.sb, c)
    ensures |Bitmaps(s.sb, bs)| == |bs|
  {
    if bs != {} {
      var b :| b in bs;
      BitmapsExact(s, bs - {b});
      assert Bitmaps(s.sb, bs) == Bitmaps(s.sb, bs - {b}) + {Bblock(s.sb, b)};
      assert Bblock(s.sb, b) !in Bitmaps(s.sb, bs - {b});
    }
  }

  /** The four blocks allocated were the free ones. */
  lemma FourBitmaps(s: Fs, t: Fs, n: nat)
    requires Tight(s, n) && Inv(t) && t.sb == s.sb && s.owner.Keys <= t.owner.Keys && |t.owner| == |s.owner| + 4
    ensures |Bitmaps(s.sb, NewBlocks(s, t))| == 4
    ensures forall b :: b in Bitmaps(s.sb, NewBlocks(s, t)) ==> s.sb.bmapstart <= b < s.sb.data
  {
    hide Good, Addr, Bblock, Bitmaps, Room, Marked;
    var added := NewBlocks(s, t);
    NewCount(s, t);
    WereFree(s, t, n);
    BitmapsExact(s, added);
    forall b | b in Bitmaps(s.sb, added) ensures s.sb.bmapstart <= b < s.sb.data { BitmapRange(s, added, b); }
  }

  lemma WereFree(s: Fs, t: Fs, n: nat)
    requires Tight(s, n) && Inv(t) && t.sb == s.sb
    ensures forall b :: b in NewBlocks(s, t) ==> s.sb.data <= b < s.sb.size && b !in s.owner
    ensures forall b, c :: b in NewBlocks(s, t) && c in NewBlocks(s, t) && b != c ==> Bblock(s.sb, b) != Bblock(s.sb, c)
  {
    hide Good, Addr, Bblock, Room, Marked;
    var added := NewBlocks(s, t);
    forall b, c | b in added && c in added && b != c ensures Bblock(s.sb, b) != Bblock(s.sb, c) {
      assert b < c || c < b;
    }
  }

  lemma BitmapRange(s: Fs, bs: set<nat>, b: nat)
    requires Shape(s) && b in Bitmaps(s.sb, bs) && forall c :: c in bs ==> c < s.sb.size
    ensures s.sb.bmapstart <= b < s.sb.data
  {
    var c :| c in bs && Bblock(s.sb, c) == b;
    BitmapBelow(s, c);
  }

  /** The blocks of different slots are different. */
  lemma SlotsDiffer(t: Fs, n: nat, k: nat, k': nat)
    requires Inv(t) && n < |t.inodes| && k < k' < SLOTS && Addr(t, n, k) != 0
    ensures Addr(t, n, k) != Addr(t, n, k') && t.sb.data <= Addr(t, n, k)
  {
    hide Addr;
  }

  lemma FourData(t: Fs, n: nat)
    requires Good(t) && n < |t.inodes| && t.inodes[n].size > 14 * BSIZE
    ensures var a := t.inodes[n].addrs[NDIRECT];
            && a != 0 && a !in DataBlocks(t, n, 11, 15) && t.sb.data <= a
            && |DataBlocks(t, n, 11, 15)| == 4 && (forall b :: b in DataBlocks(t, n, 11, 15) ==> t.sb.data <= b)
  {
    hide Owned;
    assert Filled(t, n, t.inodes[n].size);
    assert Addr(t, n, Slot(11)) != 0 && Addr(t, n, Slot(12)) != 0 && Addr(t, n, Slot(13)) != 0
        && Addr(t, n, Slot(14)) != 0;
    assert t.inodes[n].addrs[NDIRECT] != 0;
    DirectAddr(t, n, NDIRECT);
    hide Addr, Good;
    SlotsDiffer(t, n, 11, 12);
    SlotsDiffer(t, n, 11, 13);
    SlotsDiffer(t, n, 11, 14);
    SlotsDiffer(t, n, 11, 15);
    SlotsDiffer(t, n, 12, 13);
    SlotsDiffer(t, n, 12, 14);
    SlotsDiffer(t, n, 12, 15);
    SlotsDiffer(t, n, 13, 14);
    SlotsDiffer(t, n, 13, 15);
    SlotsDiffer(t, n, 14, 15);
    SlotBlock(t, n, 15);
    assert DataBlocks(t, n, 11, 15) == {Addr(t, n, 11), Addr(t, n, 13), Addr(t, n, 14), Addr(t, n, 15)};
  }

  lemma FourNeeded(s: Fs, n: nat)
    requires Tight(s, n)
    ensures Needed(s, n, 11, 15) == 4 == Room(s) && Missing(s, n, 12, 15) == 3 && s.inodes[n].size == OFF
  {
    hide Owned;
    BeginsInside(s, n, OFF);
    assert Fresh(s, n, 12) == 1 && Fresh(s, n, 13) == 1 && Fresh(s, n, 14) == 1;
    hide Good, Fresh;
    assert Missing(s, n, 12, 13) == 1 && Missing(s, n, 12, 14) == 2;
    assert Missing(s, n, 11, 12) == 0 && Missing(s, n, 11, 13) == 1 && Missing(s, n, 11, 14) == 2;
  }

  lemma TenLogged(s: Fs, t: Fs, n: nat)
    requires Tight(s, n) && Good(t) && n < |t.inodes| && t.inodes[n].size > 14 * BSIZE && Taken(s, t, n, 11, 15)
    ensures |Footprint(s, t, n, 11, 15) + {s.sb.inodestart + n / 16}| == MAXOPBLOCKS
  {
    hide Addr, Owned, Bitmaps, NewBlocks, DataBlocks, Missing;
    FourNeeded(s, n);
    FourBitmaps(s, t, n);
    FourData(t, n);
    var d, b := DataBlocks(t, n, 11, 15), Bitmaps(s.sb, NewBlocks(s, t));
    var a := t.inodes[n].addrs[NDIRECT];
    assert |d + b| == 8 && a !in d + b && |d + b + {a}| == 9;
    assert Iblock(s.sb, n) < s.sb.bmapstart;
  }

  lemma ChunkSpans()
    ensures OFF / BSIZE == 11 && Spanned(OFF, 3 * BSIZE) == 4
  {
  }

  /** The bound of ChunkBound is reached: a chunk of the largest size logs MAXOPBLOCKS blocks. */
  method WriteTen(fs: FileSys, n: nat, src: seq<byte>) returns (ok: bool, r: int)
    requires Tight(fs.St(), n) && |src| == 3 * BSIZE && fs.logged == {}
    modifies fs
    ensures ok && r == |src| && |fs.logged| == MAXOPBLOCKS
  {
    hide Tight, Good, Footprint, Taken, Needed, Missing, Room, Content, Splice, Spanned;
    ghost var s := fs.St();
    ChunkSpans();
    FourNeeded(s, n);
    GoodFile(s, n);
    SpliceAt(Content(s, n), OFF, src);
    ok, r := fs.Writei(n, OFF, src);
    TenLogged(s, fs.St(), n);
  }

  // ----- there is such a file system -----

  const SB := Super(24577, 32, 160, 164)
  const INODES := 2040
  const FREE := {8191, 8192, 16384, 24576}

  lemma {:induction false} ZeroBit(k: nat)
    ensures !Bit(0, k)
  {
    if k > 0 { ZeroBit(k - 1); }
  }

  /** A free map in which the blocks before b are in use. */
  lemma {:induction false} MarkedBelow(b: nat) returns (d: seq<Block>)
    requires b <= SB.data
    ensures |d| == SB.size && forall c :: 0 <= c < SB.size ==> (Marked(SB, d, c) <==> c < b)
  {
    if b == 0 {
      d := seq(SB.size, _ => ZERO);
      forall c | 0 <= c < SB.size ensures !Marked(SB, d, c) { ZeroBit(c % 8); }
    } else {
      var e := MarkedBelow(b - 1);
      d := Mark(SB, e, b - 1, true);
      forall c | 0 <= c < SB.size ensures Marked(SB, d, c) <==> c < b { MarkedMark(SB, e, b - 1, true, c); }
    }
  }

  /** Every data block below b is in use except the free four: the m-th is in direct slot
      m % 12 of inode m / 12. */
  ghost predicate Stage(s: Fs, b: nat) {
    && Inv(s) && s.sb == SB && |s.inodes| == INODES
    && (forall n :: 0 <= n < INODES ==> s.inodes[n].size == 0)
    && (forall x :: x in s.owner <==> SB.data <= x < b && x !in FREE)
    && (forall x :: x in s.owner ==> s.owner[x] == Place((x - SB.data) / 12, (x - SB.data) % 12))
    && (forall n, k :: 0 <= n < INODES && 0 <= k < SLOTS && (k >= 12 || 12 * n + k >= b - SB.data) ==>
        Addr(s, n, k) == 0)
  }

  lemma Empty() returns (s: Fs)
    ensures Stage(s, SB.data)
  {
    var d := MarkedBelow(SB.data);
    s := Fs(SB, d, seq(INODES, _ => Inode(0, Zeros(NDIRECT + 1))), map[]);
    hide Marked, Word;
    assert forall n, k :: 0 <= n < INODES && 0 <= k < SLOTS ==> Addr(s, n, k) == 0;
  }

  lemma StageStep(s: Fs, b: nat)
    requires Stage(s, b) && SB.data <= b < SB.size && b !in FREE
    ensures var m := b - SB.data;
            CanAlloc(s, m / 12, m % 12, b) && Stage(Alloc(s, m / 12, m % 12, b), b + 1)
  {
    hide Owned, Addr, Mark, Marked;
    var m := b - SB.data;
    assert 12 * (m / 12) + m % 12 == m;
    assert CanAlloc(s, m / 12, m % 12, b);
    var t := Alloc(s, m / 12, m % 12, b);
    AllocKeeps(s, m / 12, m % 12, b);
    forall n, k | 0 <= n < INODES && 0 <= k < SLOTS && (k >= 12 || 12 * n + k >= b + 1 - SB.data)
        ensures Addr(t, n, k) == 0 {
      AllocAddr(s, m / 12, m % 12, b, n, k);
    }
  }

  lemma {:induction false} Build(b: nat) returns (s: Fs)
    requires SB.data <= b <= SB.size
    ensures Stage(s, b)
  {
    hide Stage, Alloc, Owned, Addr;
    if b == SB.data {
      s := Empty();
    } else {
      var t := Build(b - 1);
      if b - 1 in FREE {
        StageSkip(t, b - 1);
        s := t;
      } else {
        StageStep(t, b - 1);
        s := Alloc(t, (b - 1 - SB.data) / 12, (b - 1 - SB.data) % 12, b - 1);
      }
    }
  }

  lemma StageSkip(s: Fs, b: nat)
    requires Stage(s, b) && SB.data <= b && b in FREE
    ensures Stage(s, b + 1)
  {
    hide Owned, Addr;
  }

  /** The worst case exists. */
  lemma TightState() returns (s: Fs)
    ensures Tight(s, 0)
  {
    hide Stage, Good, Bblock;
    var t := Build(SB.size);
    TightGood(t);
    TightRoom(t);
    s := Resized(t, 0, OFF);
  }

  lemma TightGood(t: Fs)
    requires Stage(t, SB.size)
    ensures |t.inodes| == INODES && t.inodes[0].size == 0 && t.sb == SB
    ensures Good(Resized(t, 0, OFF)) && Resized(t, 0, OFF).inodes[0].addrs[NDIRECT] == 0
  {
    hide Owned, Addr;
    var s := Resized(t, 0, OFF);
    ResizedKeeps(t, 0, OFF);
    forall bn | 0 <= bn < MAXFILE && bn * BSIZE < OFF ensures Addr(s, 0, Slot(bn)) != 0 {
      ResizedAddr(t, 0, OFF, 0, bn);
      OwnerSlot(t, SB.data + bn);
    }
    assert Filled(s, 0, OFF);
    forall n | 0 < n < INODES ensures Filled(s, n, 0) {}
    DirectAddr(t, 0, NDIRECT);
  }

  lemma TightRoom(t: Fs)
    requires Stage(t, SB.size)
    ensures Inv(t) && t.sb == SB && Room(t) == 4
    ensures forall b, c :: SB.data <= b < c < SB.size && b !in t.owner && c !in t.owner ==>
            Bblock(SB, b) != Bblock(SB, c)
  {
    hide Owned, Addr;
    SpanSize(SB.data, SB.size - SB.data);
    assert t.owner.Keys == Span(SB.data, SB.size - SB.data) - FREE;
    assert |FREE| == 4 && FREE <= Span(SB.data, SB.size - SB.data);
  }
}
