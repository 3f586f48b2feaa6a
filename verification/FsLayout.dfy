/** The block and inode layers of the file system (kernel/fs.c, kernel/fs.h), over the plain
    block map that buffer cache and log provide: free map, block slots of inodes, and who
    owns which block. */
module FsLayout {
  import opened Machine
  import opened Blocks

  const NDIRECT := 12
  const NINDIRECT := 256
  const MAXFILE := 268
  const BPB := 8192
  const IPB := 16
  const SLOTS := 269  // 12 direct blocks, the indirect block, 256 entries of it

  /** Where things are: `data` is the first data block, `size` the number of blocks. */
  datatype Super = Super(size: nat, inodestart: nat, bmapstart: nat, data: nat)

  datatype Inode = Inode(size: nat, addrs: seq<nat>)

  datatype Place = Place(inum: nat, slot: nat)

  /** `owner` is the inverse of the block slots: which slot of which inode holds a block. */
  datatype Fs = Fs(sb: Super, disk: seq<Block>, inodes: seq<Inode>, owner: map<nat, Place>)

  function Bblock(sb: Super, b: nat): nat { sb.bmapstart + b / BPB }
  function Iblock(sb: Super, inum: nat): nat { sb.inodestart + inum / IPB }

  /** The free map and the inodes lie before the data blocks, inside the disk. */
  ghost predicate Shape(s: Fs) {
    && 0 < s.sb.data <= s.sb.size <= |s.disk| < UINT32
    && Bblock(s.sb, s.sb.size) < s.sb.data
    && Iblock(s.sb, |s.inodes|) < s.sb.bmapstart
    && (forall n :: 0 <= n < |s.inodes| ==> |s.inodes[n].addrs| == NDIRECT + 1)
  }

  // ----- the free map -----

  predicate Marked(sb: Super, disk: seq<Block>, b: nat)
    requires Bblock(sb, b) < |disk|
  {
    Bit(disk[Bblock(sb, b)].bytes[b % BPB / 8], b % 8)
  }

  /** A bitmap block with the bit of one of its blocks decided. */
  function PutMark(m: Block, b: nat, v: bool): (r: Block) {
    var i := b % BPB / 8;
    Data(m.bytes[i := PutByte(m.bytes[i], b % 8, v)])
  }

  function Mark(sb: Super, disk: seq<Block>, b: nat, v: bool): (r: seq<Block>)
    requires Bblock(sb, b) < |disk|
    ensures |r| == |disk|
  {
    disk[Bblock(sb, b) := PutMark(disk[Bblock(sb, b)], b, v)]
  }

  /** Marking decides one block's bit and no other's. */
  lemma MarkedMark(sb: Super, disk: seq<Block>, b: nat, v: bool, c: nat)
    requires Bblock(sb, b) < |disk| && Bblock(sb, c) < |disk|
    ensures Marked(sb, Mark(sb, disk, b, v), c) == if c == b then v else Marked(sb, disk, c)
  {
    if Bblock(sb, c) == Bblock(sb, b) && c % BPB / 8 == b % BPB / 8 {
      BitOfPutByte(disk[Bblock(sb, b)].bytes[b % BPB / 8], b % 8, v, c % 8);
      SameBit(b, c);
    }
  }

  lemma SameBit(b: nat, c: nat)
    requires b / BPB == c / BPB && b % BPB / 8 == c % BPB / 8
    ensures b % 8 == c % 8 <==> b == c
  {
    BitOffset(b);
    BitOffset(c);
  }

  /** A block number from its bitmap block, byte and bit. */
  lemma BitOffset(b: nat)
    ensures b == BPB * (b / BPB) + 8 * (b % BPB / 8) + b % 8
  {
    var q, x := b / BPB, b % BPB;
    assert b == BPB * q + x;
    assert x == 8 * (x / 8) + x % 8;
    AddEights(1024 * q, x);
  }

  /** The bit bfree looks at. */
  lemma MarkedBit(sb: Super, disk: seq<Block>, b: nat)
    requires Bblock(sb, b) < |disk|
    ensures Marked(sb, disk, b) == Bit(disk[Bblock(sb, b)].bytes[b % BPB / 8], b % BPB % 8)
  {
    hide Bit;
    AddEights(1024 * (b / BPB), b % BPB);
  }

  lemma AddEights(k: nat, x: nat)
    ensures (8 * k + x) % 8 == x % 8
  {
  }

  /** Every block is in use: what balloc panics on. */
  ghost predicate Full(s: Fs) {
    Shape(s) && forall c :: 0 <= c < s.sb.size ==> Marked(s.sb, s.disk, c)
  }

  // ----- block slots -----

  /** The block in slot k of inode n, 0 when empty. */
  function Addr(s: Fs, n: nat, k: nat): (a: nat)
    requires Shape(s) && n < |s.inodes| && k < SLOTS
  {
    var addrs := s.inodes[n].addrs;
    if k <= NDIRECT then addrs[k]
    else if addrs[NDIRECT] == 0 || addrs[NDIRECT] >= |s.disk| then 0
    else Word(s.disk[addrs[NDIRECT]], k - NDIRECT - 1)
  }

  /** The slot of the bn-th block of a file. */
  function Slot(bn: nat): (k: nat)
    requires bn < MAXFILE
    ensures k < SLOTS && k != NDIRECT
  {
    if bn < NDIRECT then bn else bn + 1
  }

  /** Every block in a slot is a data block, marked in the free map, and in no other slot;
      every marked data block is in a slot; the blocks before the data are marked. */
  ghost predicate Owned(s: Fs)
    requires Shape(s)
  {
    && (forall b :: b in s.owner ==>
          && s.sb.data <= b < s.sb.size && s.owner[b].inum < |s.inodes| && s.owner[b].slot < SLOTS
          && Addr(s, s.owner[b].inum, s.owner[b].slot) == b)
    && (forall n, k :: 0 <= n < |s.inodes| && 0 <= k < SLOTS && Addr(s, n, k) != 0 ==>
          Addr(s, n, k) in s.owner && s.owner[Addr(s, n, k)] == Place(n, k))
    && (forall b :: 0 <= b < s.sb.size ==>
          (Marked(s.sb, s.disk, b) <==> b < s.sb.data || b in s.owner))
  }

  ghost predicate Inv(s: Fs)
    ensures Inv(s) ==> Shape(s)
  {
    Shape(s) && Owned(s)
  }
}
