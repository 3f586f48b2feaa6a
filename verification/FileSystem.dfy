/** The code of the block and inode layers (kernel/fs.c: balloc, bfree, bmap, itrunc, readi,
    writei) and of filewrite's loop (kernel/file.c).  A transaction's caller holds the
    inode, `disk` is the block map the log and cache provide, and `logged` collects the
    blocks handed to log_write; copies to and from user memory succeed.  A result
    `ok == false` is a panic. */
module FileSystem {
  import opened Machine
  import opened Param
  import opened Blocks
  import opened FsLayout
  import opened FsBlocks
  import opened FsFiles
  import opened FsSpace
  import opened Counting

  class FileSys {
    const sb: Super
    var disk: seq<Block>
    var inodes: seq<Inode>
    ghost var owner: map<nat, Place>
    ghost var logged: set<nat>

    ghost function St(): (s: Fs)
      reads this
    {
      Fs(sb, disk, inodes, owner)
    }

    constructor (s: Fs)
      ensures St() == s && logged == {}
    {
      sb, disk, inodes, owner, logged := s.sb, s.disk, s.inodes, s.owner, {};
    }

    /** balloc: the first block that is free, marked and zeroed; it panics exactly when all
        are in use. */
    method Balloc() returns (ok: bool, b: nat)
      requires Shape(St())
      modifies this`disk, this`logged
      ensures ok <==> exists c :: 0 <= c < sb.size && !Marked(sb, old(disk), c)
      ensures !ok ==> disk == old(disk) && logged == old(logged)
      ensures ok ==> b < sb.size && !Marked(sb, old(disk), b)
      ensures ok ==> forall c :: 0 <= c < b ==> Marked(sb, old(disk), c)
      ensures ok ==> disk == Mark(sb, old(disk), b, true)[b := ZERO]
      ensures ok ==> logged == old(logged) + {Bblock(sb, b), b}
    {
      hide Mark, Bit, Marked;
      var base := 0;
      while base < sb.size
        invariant base % BPB == 0 && disk == old(disk) && logged == old(logged)
        invariant forall c :: 0 <= c < base && c < sb.size ==> Marked(sb, disk, c)
      {
        var bi := FirstClear(base);
        if bi < BPB && base + bi < sb.size {
          var c := base + bi;
          BitmapBelow(St(), c);
          disk := Mark(sb, disk, c, true);
          logged := logged + {Bblock(sb, c)};
          disk := disk[c := ZERO];
          logged := logged + {c};
          return true, c;
        }
        base := base + BPB;
      }
      return false, 0;
    }

    /** balloc's inner loop: the first clear bit of one bitmap block. */
    method FirstClear(base: nat) returns (bi: nat)
      requires Shape(St()) && base % BPB == 0 && base < sb.size
      ensures bi <= BPB && base + bi <= sb.size
      ensures bi < BPB && base + bi < sb.size ==> !Marked(sb, disk, base + bi)
      ensures forall c :: base <= c < base + bi ==> Marked(sb, disk, c)
    {
      hide Bit, Marked;
      bi := 0;
      while bi < BPB && base + bi < sb.size
        invariant 0 <= bi <= BPB && base + bi <= sb.size
        invariant forall c :: base <= c < base + bi ==> Marked(sb, disk, c)
      {
        BitmapBelow(St(), base + bi);
        MarkedIs(sb, disk, base, bi);
        if !Bit(disk[Bblock(sb, base)].bytes[bi / 8], bi % 8) { return; }
        bi := bi + 1;
      }
    }

    /** bfree: it panics exactly when the block is already free. */
    method Bfree(b: nat) returns (ok: bool)
      requires Shape(St()) && b < sb.size
      modifies this`disk, this`logged
      ensures ok <==> Marked(sb, old(disk), b)
      ensures !ok ==> disk == old(disk) && logged == old(logged)
      ensures ok ==> disk == Mark(sb, old(disk), b, false) && logged == old(logged) + {Bblock(sb, b)}
    {
      hide Bit, Marked, Mark;
      BitmapBelow(St(), b);
      MarkedBit(sb, disk, b);
      var bi := b % BPB;
      if !Bit(disk[Bblock(sb, b)].bytes[bi / 8], bi % 8) {
        return false;
      }
      disk := Mark(sb, disk, b, false);
      logged := logged + {Bblock(sb, b)};
      return true;
    }

    /** balloc into an empty slot of inode n: a direct block, or the indirect block. */
    method AllocDirect(n: nat, k: nat) returns (ok: bool, b: nat)
      requires Inv(St()) && n < |inodes| && k <= NDIRECT && Addr(St(), n, k) == 0
      modifies this
      ensures ok <==> Room(old(St())) > 0
      ensures !ok ==> St() == old(St()) && logged == old(logged)
      ensures ok ==> CanAlloc(old(St()), n, k, b) && St() == Alloc(old(St()), n, k, b)
      ensures ok ==> logged == old(logged) + {Bblock(sb, b), b}
    {
      hide Owned, Marked, Mark, Addr;
      ghost var s := St();
      RoomFree(s);
      ok, b := Balloc();
      if ok {
        FreeIsUnowned(s, b);
        SlotReachable(s, n, k);
        inodes := inodes[n := inodes[n].(addrs := inodes[n].addrs[k := b])];
        owner := owner[b := Place(n, k)];
      }
    }

    /** balloc into an empty entry of inode n's indirect block. */
    method AllocEntry(n: nat, j: nat) returns (ok: bool, b: nat)
      requires Inv(St()) && n < |inodes| && j < NINDIRECT && inodes[n].addrs[NDIRECT] != 0
      requires Addr(St(), n, NDIRECT + 1 + j) == 0
      modifies this
      ensures inodes == old(inodes) && old(inodes)[n].addrs[NDIRECT] < |old(disk)|
      ensures ok <==> Room(old(St())) > 0
      ensures !ok ==> St() == old(St()) && logged == old(logged)
      ensures ok ==> CanAlloc(old(St()), n, NDIRECT + 1 + j, b) && St() == Alloc(old(St()), n, NDIRECT + 1 + j, b)
      ensures ok ==> logged == old(logged) + {Bblock(sb, b), b, inodes[n].addrs[NDIRECT]}
    {
      hide Owned, Marked, Mark, Addr;
      ghost var s := St();
      IndirectBlock(s, n);
      RoomFree(s);
      ok, b := Balloc();
      if ok {
        FreeIsUnowned(s, b);
        SlotReachable(s, n, NDIRECT + 1 + j);
        var ind := inodes[n].addrs[NDIRECT];
        disk := disk[ind := SetWord(disk[ind], j, b)];
        owner := owner[b := Place(n, NDIRECT + 1 + j)];
        logged := logged + {ind};
      }
    }

    /** bmap: the disk block of the bn-th block of file n, allocated if it is not there.  It
        panics exactly when bn is too large or what it needs is more than there is room for.
        It moves nothing, changes no byte of any file and allocates nothing else; a block
        that is there is returned without touching anything. */
    method Bmap(n: nat, bn: nat) returns (ok: bool, addr: nat)
      requires Inv(St()) && n < |inodes|
      modifies this
      ensures ok <==> bn < MAXFILE && Need(old(St()), n, bn) <= Room(old(St()))
      ensures !ok && bn < MAXFILE ==> Full(St())
      ensures ok ==> Grew(old(St()), St()) && Mapped(old(St()), St(), n, bn) && Addr(St(), n, Slot(bn)) == addr
      ensures ok && Addr(old(St()), n, Slot(bn)) != 0 ==> St() == old(St()) && logged == old(logged)
      ensures ok ==> logged == old(logged) + MapLogs(old(St()), St(), n, bn)
    {
      hide Owned, Addr, Grew, Inv, Mapped, MapLogs, Alloc, CanAlloc, Need, Room, Full, Word, Bblock;
      ghost var s := St();
      if bn < NDIRECT {
        DirectAddr(s, n, bn);
        addr := inodes[n].addrs[bn];
        ok := true;
        if addr == 0 {
          NeedIs(s, n, bn);
          ok, addr := AllocDirect(n, bn);
          if ok { MapOne(s, n, bn, addr); }
        } else {
          MapThere(s, n, bn);
        }
        return;
      }
      var j := bn - NDIRECT;
      if j < NINDIRECT {
        DirectAddr(s, n, NDIRECT);
        addr := inodes[n].addrs[NDIRECT];
        ghost var i := 0;
        if addr == 0 {
          NoEntries(s, n, NDIRECT + 1 + j);
          NeedIs(s, n, bn);
          ok, addr := AllocDirect(n, NDIRECT);
          if !ok { return; }
          i := addr;
          IndirectThere(s, n, i);
        }
        ghost var t := St();
        EntryAddr(t, n, j);
        addr := Word(disk[addr], j);
        ok := true;
        if addr == 0 {
          NeedIs(t, n, bn);
          ok, addr := AllocEntry(n, j);
          if ok {
            if i != 0 { MapTwo(s, t, n, bn, i, addr); } else { MapOne(s, n, bn, addr); }
          }
        } else {
          MapThere(s, n, bn);
        }
        return;
      }
      return false, 0;
    }

    /** itrunc's first loop: the direct blocks. */
    method TruncDirect(n: nat, ghost s: Fs)
      requires Inv(s) && s == St() && n < |inodes|
      modifies this
      ensures disk == Freed(s, n, NDIRECT) && owner == s.owner && |inodes| == |s.inodes|
      ensures inodes == s.inodes[n := inodes[n]] && |inodes[n].addrs| == NDIRECT + 1
      ensures forall k :: 0 <= k < NDIRECT ==> inodes[n].addrs[k] == 0
      ensures inodes[n].addrs[NDIRECT] == s.inodes[n].addrs[NDIRECT]
      ensures logged == old(logged) + Bitmaps(sb, Seen(s, n, NDIRECT))
    {
      hide Owned, Addr, Freed, Marked, Mark, Seen, Bitmaps, Bblock;
      FreedStart(s, n);
      SeenStart(s, n);
      var i := 0;
      while i < NDIRECT
        invariant 0 <= i <= NDIRECT && disk == Freed(s, n, i) && owner == s.owner && |inodes| == |s.inodes|
        invariant inodes == s.inodes[n := inodes[n]] && |inodes[n].addrs| == NDIRECT + 1
        invariant forall k :: 0 <= k <= NDIRECT ==> inodes[n].addrs[k] == if k < i then 0 else s.inodes[n].addrs[k]
        invariant logged == old(logged) + Bitmaps(sb, Seen(s, n, i))
      {
        DirectAddr(s, n, i);
        FreedNext(s, n, i);
        SeenNext(s, n, i);
        if inodes[n].addrs[i] != 0 {
          var ok := Bfree(inodes[n].addrs[i]);
          assert ok;
          inodes := inodes[n := inodes[n].(addrs := inodes[n].addrs[i := 0])];
        }
        i := i + 1;
      }
    }

    /** itrunc's second loop and the indirect block itself. */
    method TruncIndirect(n: nat, ghost s: Fs, ghost was: set<nat>)
      requires Inv(s) && Shape(St()) && n < |inodes| == |s.inodes| && sb == s.sb
      requires disk == Freed(s, n, NDIRECT) && inodes[n].addrs[NDIRECT] == s.inodes[n].addrs[NDIRECT] != 0
      requires logged == was + Bitmaps(sb, Seen(s, n, NDIRECT))
      modifies this
      ensures disk == Freed(s, n, SLOTS) && owner == old(owner)
      ensures inodes == old(inodes)[n := old(inodes)[n].(addrs := old(inodes)[n].addrs[NDIRECT := 0])]
      ensures logged == was + Bitmaps(sb, Seen(s, n, SLOTS))
    {
      hide Owned, Addr, Freed, Marked, Mark, Seen, Bitmaps, Bblock;
      var ind := inodes[n].addrs[NDIRECT];
      IndirectBlock(s, n);
      FreedIs(s, n, NDIRECT, ind);
      var a := disk[ind];
      var j := 0;
      while j < NINDIRECT
        invariant 0 <= j <= NINDIRECT && disk == Freed(s, n, NDIRECT + j)
        invariant inodes == old(inodes) && owner == old(owner)
        invariant logged == was + Bitmaps(sb, Seen(s, n, NDIRECT + j))
      {
        EntryAddr(s, n, j);
        FreedNext(s, n, NDIRECT + j);
        SeenNext(s, n, NDIRECT + j);
        if Word(a, j) != 0 {
          var ok := Bfree(Word(a, j));
          assert ok;
        }
        j := j + 1;
      }
      DirectAddr(s, n, NDIRECT);
      FreedNext(s, n, SLOTS - 1);
      SeenNext(s, n, SLOTS - 1);
      var ok := Bfree(ind);
      assert ok;
      inodes := inodes[n := inodes[n].(addrs := inodes[n].addrs[NDIRECT := 0])];
    }

    /** itrunc: the inode's blocks are all given back, in order; bfree never finds one of
        them free, so its panic is unreachable.  It logs the inode's block and the bitmap blocks of
        what it frees, and nothing else. */
    method Itrunc(n: nat)
      requires Inv(St()) && n < |inodes|
      modifies this
      ensures St() == Truncated(old(St()), n)
      ensures Good(old(St())) ==> Good(St()) && inodes[n].size == 0
      ensures Good(old(St())) ==> forall n' :: 0 <= n' < |inodes| && n' != n ==>
                && inodes[n'].size == old(inodes)[n'].size <= MAXBYTES
                && Content(St(), n') == Content(old(St()), n')
      ensures logged == old(logged) + Bitmaps(sb, BlocksOf(old(St()), n)) + {sb.inodestart + n / 16}
    {
      hide Owned, Addr, Freed, Marked, Mark, Good, Content, Seen, Bitmaps, BlocksOf;
      ghost var s := St();
      SeenAll(s, n);
      if Good(s) { TruncatedGood(s, n); }
      TruncDirect(n, s);
      if inodes[n].addrs[NDIRECT] != 0 {
        TruncIndirect(n, s, old(logged));
      } else {
        NothingIndirect(s, n, SLOTS);
      }
      inodes := inodes[n := inodes[n].(size := 0)];
      assert inodes[n].addrs == Zeros(NDIRECT + 1);
      owner := map b | b in owner && owner[b].inum != n :: owner[b];
      logged := logged + {Iblock(sb, n)};
    }

    /** readi: a slice of the file, stopping at its end; nothing is allocated or changed,
        because files have no holes. */
    method Readi(n: nat, off0: uint32, n0: uint32) returns (data: seq<byte>)
      requires Good(St()) && n < |inodes|
      modifies this
      ensures St() == old(St()) && logged == old(logged)
      ensures inodes[n].size <= MAXBYTES
      ensures data == if off0 > inodes[n].size || off0 + n0 >= UINT32 then []
                      else Content(St(), n)[off0..if off0 + n0 > inodes[n].size then inodes[n].size else off0 + n0]
    {
      hide Owned, Addr, Grew, Inv, Content, Good, Byte;
      ghost var s := St();
      GoodFile(s, n);
      data := [];
      var size := inodes[n].size;
      if off0 > size || (off0 + n0) % UINT32 < off0 { return; }
      var cnt := if off0 + n0 > size then size - off0 else n0;
      var tot, off := 0, off0;
      while tot < cnt
        invariant 0 <= tot <= cnt && off == off0 + tot
        invariant St() == s && logged == old(logged)
        invariant data == Content(s, n)[off0..off0 + tot]
      {
        var o := off % BSIZE;
        var m := if cnt - tot < BSIZE - o then cnt - tot else BSIZE - o;
        var chunk := ReadChunk(n, off, m);
        JoinSlices(Content(s, n), off0, off, off + m);
        data := data + chunk;
        tot, off := tot + m, off + m;
      }
    }

    /** One iteration of readi's loop. */
    method ReadChunk(n: nat, off: nat, m: nat) returns (chunk: seq<byte>)
      requires Good(St()) && n < |inodes| && inodes[n].size <= MAXBYTES
      requires off < inodes[n].size && off + m <= inodes[n].size && off % BSIZE + m <= BSIZE
      modifies this
      ensures St() == old(St()) && logged == old(logged)
      ensures chunk == Content(St(), n)[off..off + m]
    {
      hide Owned, Addr, Grew, Inv, Content, Good, Byte;
      FilePresent(St(), n, off);
      ContentChunk(St(), n, off, m);
      MapThere(St(), n, off / BSIZE);
      var ok, addr := Bmap(n, off / BSIZE);
      chunk := disk[addr].bytes[off % BSIZE..off % BSIZE + m];
    }

    /** One iteration of writei's loop: the bytes ys at off, which is where the bytes xs
        written so far end. */
    method WriteChunk(n: nat, off: nat, ys: seq<byte>, ghost s: Fs, ghost off0: nat, ghost xs: seq<byte>)
      returns (ok: bool, addr: nat)
      requires Inv(s) && Inv(St()) && n < |s.inodes| && Wrote(s, St(), n, off0, xs)
      requires off == off0 + |xs| && off / BSIZE < MAXFILE && off % BSIZE + |ys| <= BSIZE
      modifies this
      ensures ok <==> Need(old(St()), n, off / BSIZE) <= Room(old(St()))
      ensures !ok ==> Full(St())
      ensures ok ==> Inv(St()) && Wrote(s, St(), n, off0, xs + ys)
      ensures ok ==> Stay(old(St()), St()) && Mapped(old(St()), St(), n, off / BSIZE)
      ensures ok ==> addr == Addr(St(), n, Slot(off / BSIZE)) != 0
      ensures ok ==> logged == old(logged) + MapLogs(old(St()), St(), n, off / BSIZE) + {addr}
    {
      hide Owned, Addr, Grew, Inv, Wrote, Stay, MapLogs, Need;
      ghost var t := St();
      var bn, o := off / BSIZE, off % BSIZE;
      ok, addr := Bmap(n, bn);
      if !ok { return; }
      ghost var u := St();
      WroteGrew(s, t, u, n, off0, xs);
      WroteMore(s, u, n, off0, xs, bn, o, ys);
      var d := Patch(disk[addr], o, ys);
      OverwriteSlots(u, n, bn, d);
      StayGrew(t, u, n, bn, d);
      MappedOverwrite(t, u, n, bn, d);
      disk := disk[addr := d];
      logged := logged + {addr};
    }

    /** writei: -1 exactly when the range is out of bounds, and then nothing changes.  It
        panics exactly when the blocks it needs are more than there is room for.  Otherwise the
        file becomes the splice, every other file stays, the invariants hold, and exactly the
        footprint and the inode's block are logged. */
    method Writei(n: nat, off0: uint32, src: seq<byte>) returns (ok: bool, r: int)
      requires Good(St()) && n < |inodes| && |src| < UINT32
      modifies this
      ensures ok && r == -1 <==> off0 > old(inodes[n].size) || off0 + |src| > MAXBYTES
      ensures ok && r == -1 ==> St() == old(St()) && logged == old(logged)
      ensures off0 <= old(inodes[n].size) && off0 + |src| <= MAXBYTES ==>
                (ok <==> Needed(old(St()), n, off0 / BSIZE, off0 / BSIZE + Spanned(off0, |src|)) <= Room(old(St())))
      ensures !ok ==> Full(St())
      ensures ok && r != -1 ==> r == |src| && Good(St()) && |inodes| == |old(inodes)|
      ensures ok && r != -1 ==>
                && old(inodes[n].size) <= MAXBYTES && inodes[n].size <= MAXBYTES
                && Content(St(), n) == Splice(Content(old(St()), n), off0, src)
                && forall n' :: 0 <= n' < |inodes| && n' != n ==>
                     && old(inodes)[n'].size <= MAXBYTES && inodes[n'].size <= MAXBYTES
                     && Content(St(), n') == Content(old(St()), n')
      ensures ok && r != -1 ==>
                var lo, hi := off0 / BSIZE, off0 / BSIZE + Spanned(off0, |src|);
                && hi <= MAXFILE && Taken(old(St()), St(), n, lo, hi)
                && logged == old(logged) + Footprint(old(St()), St(), n, lo, hi) + if src == [] then {}
                    else {sb.inodestart + n / 16}
    {
      hide Good, Inv, Wrote, Stay, Progress, Content, Grew, Resized, Spanned, Splice, Taken, Footprint, Needed, Room;
      ghost var s := St();
      GoodFile(s, n);
      if off0 > inodes[n].size || (off0 + |src|) % UINT32 < off0 { return true, -1; }
      if off0 + |src| > MAXBYTES { return true, -1; }
      SpanFits(off0, |src|);
      ok := WriteLoop(n, off0, src);
      if !ok { return false, 0; }
      ghost var t := St();
      ProgressEnd(s, t, n, off0, src);
      NoGrowth(s, t, n, off0, |src|);
      ResizedTaken(s, t, n, off0 + |src|, off0 / BSIZE, off0 / BSIZE + Spanned(off0, |src|));
      if |src| > 0 {
        var off := off0 + |src|;
        if off > inodes[n].size {
          inodes := inodes[n := inodes[n].(size := off)];
        }
        logged := logged + {Iblock(sb, n)};
      }
      return true, |src|;
    }

    /** The loop of writei. */
    method WriteLoop(n: nat, off0: nat, src: seq<byte>) returns (ok: bool)
      requires Good(St()) && n < |inodes| && off0 <= inodes[n].size && off0 + |src| <= MAXBYTES
      requires off0 / BSIZE + Spanned(off0, |src|) <= MAXFILE
      modifies this
      ensures ok <==> Needed(old(St()), n, off0 / BSIZE, off0 / BSIZE + Spanned(off0, |src|)) <= Room(old(St()))
      ensures !ok ==> Full(St())
      ensures ok ==> Progress(old(St()), St(), n, off0, src)
      ensures ok ==> var lo, hi := off0 / BSIZE, off0 / BSIZE + Spanned(off0, |src|);
                && Taken(old(St()), St(), n, lo, hi)
                && logged == old(logged) + Footprint(old(St()), St(), n, lo, hi)
    {
      hide Good, Inv, Wrote, Stay, Progress, Addr, Taken, Footprint, Mapped, MapLogs, Need, Needed, Room, Spanned;
      ghost var s, lo := St(), off0 / BSIZE;
      ProgressStart(s, n, off0);
      TakenStart(s, n, lo);
      var tot, off := 0, off0;
      assert src[..0] == [];
      ghost var h := lo;
      assert Spanned(off0, 0) == 0 by { SpanZero(off0); }
      while tot < |src|
        invariant 0 <= tot <= |src| && off == off0 + tot
        invariant tot == 0 || tot == |src| || off % BSIZE == 0
        invariant h == lo + Spanned(off0, tot) <= lo + Spanned(off0, |src|)
        invariant Progress(s, St(), n, off0, src[..tot])
        invariant Taken(s, St(), n, lo, h)
        invariant logged == old(logged) + Footprint(s, St(), n, lo, h)
      {
        var m := if |src| - tot < BSIZE - off % BSIZE then |src| - tot else BSIZE - off % BSIZE;
        ChunkFits(off, m, |src| - tot);
        SpanStep(off0, tot, m);
        SpanGrows(off0, tot + m, |src|);
        var ys := src[tot..tot + m];
        assert src[..tot] + ys == src[..tot + m];
        ghost var t := St();
        TakenRoom(s, t, n, lo, h, lo + Spanned(off0, |src|));
        var addr;
        ok, addr := WriteChunk(n, off, ys, s, off0, src[..tot]);
        if !ok { return; }
        ProgressStep(s, t, St(), n, off0, src[..tot], ys);
        TakenStep(s, t, St(), n, lo, h);
        FootprintStep(s, t, St(), n, lo, h);
        h := h + 1;
        tot, off := tot + m, off + m;
      }
      assert src[..tot] == src;
      TakenAll(s, St(), n, lo, h);
      ok := true;
    }

    /** The loop of filewrite for an inode, from file offset fo: transactions of at most 3072
        bytes, each logging at most MAXOPBLOCKS blocks (`peak` is the most any logged).  The
        file gets all bytes and n comes back exactly when fo is not past the file's end and
        they fit the largest file; otherwise -1 comes back and the chunks before the one that
        failed have been written. */
    method FileWrite(n: nat, fo: uint32, src: seq<byte>) returns (ok: bool, ret: int, fo': int, ghost peak: nat)
      requires Good(St()) && n < |inodes| && |src| < 0x8000_0000
      modifies this
      ensures !ok ==> Full(St())
      ensures ok ==> fo <= fo' <= fo + |src| && Good(St()) && |inodes| == |old(inodes)|
      ensures peak <= MAXOPBLOCKS
      ensures ok ==> ret == if fo' == fo + |src| then |src| else -1
      ensures ok ==> (ret == |src| <==> src == [] || (fo <= old(inodes[n].size) && fo + |src| <= MAXBYTES))
      ensures ok && fo > old(inodes[n].size) ==> St() == old(St())
      ensures ok && fo <= old(inodes[n].size) ==>
                && old(inodes[n].size) <= MAXBYTES && inodes[n].size <= MAXBYTES
                && Content(St(), n) == Splice(Content(old(St()), n), fo, src[..fo' - fo])
                && forall n' :: 0 <= n' < |inodes| && n' != n ==>
                     && old(inodes)[n'].size <= MAXBYTES && inodes[n'].size <= MAXBYTES
                     && Content(St(), n') == Content(old(St()), n')
    {
      hide Good, Content, Splice, Spanned, Taken, Footprint, Needed, Room, Full, Iblock, Inv;
      ghost var s := St();
      GoodFile(s, n);
      ghost var inside := fo <= inodes[n].size;
      if inside { SpliceNothing(Content(s, n), fo); }
      GoodSizes(s);
      var max := (MAXOPBLOCKS - 1 - 1 - 2) / 2 * BSIZE;
      var i := 0;
      fo', ret, peak := fo, -1, 0;
      assert src[..0] == [];
      while i < |src|
        invariant 0 <= i <= |src| && fo' == fo + i && Good(St()) && |inodes| == |s.inodes|
        invariant peak <= MAXOPBLOCKS
        invariant !inside ==> i == 0 && St() == s
        invariant inside ==> fo' <= inodes[n].size && (i > 0 ==> fo' <= MAXBYTES)
        invariant inodes[n].size <= MAXBYTES
        invariant inside ==> Content(St(), n) == Splice(Content(s, n), fo, src[..i])
        invariant forall n' :: 0 <= n' < |inodes| && n' != n ==>
                    inodes[n'].size <= MAXBYTES && Content(St(), n') == Content(s, n')
      {
        var n1 := if |src| - i > max then max else |src| - i;
        logged := {};  // begin_op
        ghost var t := St();
        var r;
        ok, r := Writei(n, fo', src[i..i + n1]);
        if !ok { return; }
        if r < 0 { break; }
        ChunkBound(t, St(), n, fo', n1);
        peak := if |logged| > peak then |logged| else peak;
        assert r == n1;
        SpliceMore(Content(s, n), fo, src, i, n1);
        SpliceAt(Content(t, n), fo', src[i..i + n1]);
        fo' := fo' + r;
        i := i + r;
      }
      ret := if i == |src| then |src| else -1;
      ok := true;
    }
  }

  // ----- facts the code uses -----

  lemma InBlock(base: nat, bi: nat)
    requires base % BPB == 0 && bi < BPB
    ensures (base + bi) % BPB == bi && (base + bi) / BPB == base / BPB && (base + bi) % 8 == bi % 8
  {
  }

  /** The bit balloc looks at. */
  lemma MarkedIs(sb: Super, disk: seq<Block>, base: nat, bi: nat)
    requires base % BPB == 0 && bi < BPB && Bblock(sb, base + bi) < |disk|
    ensures Bblock(sb, base) < |disk|
    ensures Marked(sb, disk, base + bi) == Bit(disk[Bblock(sb, base)].bytes[bi / 8], bi % 8)
  {
    hide Bit;
    InBlock(base, bi);
  }

  lemma FreeIsUnowned(s: Fs, b: nat)
    requires Inv(s) && b < s.sb.size && !Marked(s.sb, s.disk, b)
    ensures s.sb.data <= b && b != 0 && b !in s.owner
  {
  }

  lemma SlotReachable(s: Fs, n: nat, k: nat)
    requires Inv(s) && n < |s.inodes| && k < SLOTS && Addr(s, n, k) == 0
    requires k <= NDIRECT || s.inodes[n].addrs[NDIRECT] != 0
    ensures forall b :: s.sb.data <= b < s.sb.size && b !in s.owner ==> CanAlloc(s, n, k, b)
  {
  }

  lemma NoEntries(s: Fs, n: nat, k: nat)
    requires Shape(s) && n < |s.inodes| && NDIRECT < k < SLOTS && s.inodes[n].addrs[NDIRECT] == 0
    ensures Addr(s, n, k) == 0
  {
  }

  lemma EntryAddr(s: Fs, n: nat, j: nat)
    requires Inv(s) && n < |s.inodes| && j < NINDIRECT && s.inodes[n].addrs[NDIRECT] != 0
    ensures s.inodes[n].addrs[NDIRECT] < |s.disk|
    ensures Addr(s, n, NDIRECT + 1 + j) == Word(s.disk[s.inodes[n].addrs[NDIRECT]], j)
    ensures Slot(NDIRECT + j) == NDIRECT + 1 + j
  {
    IndirectBlock(s, n);
  }

  lemma FreedStart(s: Fs, n: nat)
    requires Inv(s) && n < |s.inodes|
    ensures Freed(s, n, 0) == s.disk
  {
  }

  /** The next slot visited: its block is still marked, and freeing it is the next disk. */
  lemma FreedNext(s: Fs, n: nat, j: nat)
    requires Inv(s) && n < |s.inodes| && j < SLOTS
    ensures var a := Addr(s, n, Order(j));
            && a < s.sb.size && Bblock(s.sb, a) < |s.disk|
            && (a == 0 ==> Freed(s, n, j + 1) == Freed(s, n, j))
            && (a != 0 ==> Marked(s.sb, Freed(s, n, j), a))
            && (a != 0 ==> Freed(s, n, j + 1) == Mark(s.sb, Freed(s, n, j), a, false))
  {
    hide Owned, Addr, Marked, Mark;
    var a := Addr(s, n, Order(j));
    if a != 0 {
      SlotBlock(s, n, Order(j));
      FreedIs(s, n, j, a);
    }
  }

  lemma {:induction false} NothingIndirect(s: Fs, n: nat, j: nat)
    requires Inv(s) && n < |s.inodes| && s.inodes[n].addrs[NDIRECT] == 0 && NDIRECT <= j <= SLOTS
    ensures Freed(s, n, j) == Freed(s, n, NDIRECT) && Seen(s, n, j) == Seen(s, n, NDIRECT)
  {
    hide Owned, Marked, Mark, Seen;
    if j > NDIRECT {
      NothingIndirect(s, n, j - 1);
      SeenNext(s, n, j - 1);
    }
  }

  lemma JoinSlices(c: seq<byte>, i: nat, j: nat, k: nat)
    requires i <= j <= k <= |c|
    ensures c[i..j] + c[j..k] == c[i..k]
  {
  }

  lemma GoodFile(s: Fs, n: nat)
    requires Good(s) && n < |s.inodes|
    ensures Inv(s) && s.inodes[n].size <= MAXBYTES < UINT32
  {
  }

  lemma FilePresent(s: Fs, n: nat, off: nat)
    requires Good(s) && n < |s.inodes| && off < s.inodes[n].size
    ensures off / BSIZE < MAXFILE && 0 != Addr(s, n, Slot(off / BSIZE)) < |s.disk|
  {
    hide Owned, Addr;
    assert (off / BSIZE) * BSIZE <= off;
    assert Filled(s, n, s.inodes[n].size);
    SlotBlock(s, n, Slot(off / BSIZE));
  }

  lemma ContentChunk(s: Fs, n: nat, off: nat, m: nat)
    requires Good(s) && n < |s.inodes| && s.inodes[n].size <= MAXBYTES
    requires off < s.inodes[n].size && off % BSIZE + m <= BSIZE && off + m <= s.inodes[n].size
    ensures off / BSIZE < MAXFILE && Addr(s, n, Slot(off / BSIZE)) < |s.disk|
    ensures Content(s, n)[off..off + m] ==
            s.disk[Addr(s, n, Slot(off / BSIZE))].bytes[off % BSIZE..off % BSIZE + m]
  {
    hide Owned, Addr;
    FilePresent(s, n, off);
    var c := Content(s, n)[off..off + m];
    var d := s.disk[Addr(s, n, Slot(off / BSIZE))].bytes[off % BSIZE..off % BSIZE + m];
    forall i | 0 <= i < m ensures c[i] == d[i] {
      WithinBlock(off, i);
    }
  }

  lemma NoGrowth(s: Fs, t: Fs, n: nat, off: nat, m: nat)
    requires Stay(s, t) && n < |t.inodes|
    ensures t.inodes[n].size == s.inodes[n].size
    ensures off + m <= t.inodes[n].size ==> Resized(t, n, off + m) == t
    ensures off + m > t.inodes[n].size ==>
              Resized(t, n, off + m) == t.(inodes := t.inodes[n := t.inodes[n].(size := off + m)])
  {
  }

  lemma ChunkFits(off: nat, m: nat, left: nat)
    requires 0 < left && off + left <= MAXBYTES
    requires m == if left < BSIZE - off % BSIZE then left else BSIZE - off % BSIZE
    ensures 0 < m <= left && off % BSIZE + m <= BSIZE && off / BSIZE < MAXFILE
    ensures m == left || (off + m) % BSIZE == 0
  {
    if m != left {
      assert off + m == (off / BSIZE + 1) * BSIZE;
    }
  }

  lemma GoodSizes(s: Fs)
    requires Good(s)
    ensures forall n' :: 0 <= n' < |s.inodes| ==> s.inodes[n'].size <= MAXBYTES
  {
  }

  lemma SpliceNothing(c: seq<byte>, off: nat)
    requires off <= |c|
    ensures Splice(c, off, []) == c
  {
  }

  lemma SpliceMore(c: seq<byte>, off: nat, src: seq<byte>, i: nat, m: nat)
    requires off <= |c| && i + m <= |src|
    ensures off + i <= |Splice(c, off, src[..i])|
    ensures Splice(Splice(c, off, src[..i]), off + i, src[i..i + m]) == Splice(c, off, src[..i + m])
  {
    SpliceTwice(c, off, src[..i], src[i..i + m]);
    assert src[..i] + src[i..i + m] == src[..i + m];
  }
}
