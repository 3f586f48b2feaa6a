/** Files as byte sequences without holes, and what a write of some bytes means. */
module FsFiles {
  import opened Machine
  import opened Blocks
  import opened FsLayout
  import opened FsBlocks

  /** The first `upto` bytes of file n have their blocks. */
  ghost predicate Filled(s: Fs, n: nat, upto: nat)
    requires Shape(s) && n < |s.inodes|
  {
    forall bn :: 0 <= bn < MAXFILE && bn * BSIZE < upto ==> Addr(s, n, Slot(bn)) != 0
  }

  ghost predicate NoHoles(s: Fs)
    requires Shape(s)
  {
    forall n :: 0 <= n < |s.inodes| ==> s.inodes[n].size <= MAXBYTES && Filled(s, n, s.inodes[n].size)
  }

  ghost predicate Good(s: Fs)
    ensures Good(s) ==> Inv(s)
  {
    Inv(s) && NoHoles(s)
  }

  /** File n as the byte sequence readers see. */
  ghost function Content(s: Fs, n: nat): (c: seq<byte>)
    requires Shape(s) && n < |s.inodes| && s.inodes[n].size <= MAXBYTES
    ensures |c| == s.inodes[n].size
  {
    seq(s.inodes[n].size, i requires 0 <= i < s.inodes[n].size => Byte(s, n, i))
  }

  /** The simple object: bytes xs written over c at off, growing it if need be. */
  function Splice(c: seq<byte>, off: nat, xs: seq<byte>): (r: seq<byte>)
    requires off <= |c|
  {
    c[..off] + xs + (if off + |xs| < |c| then c[off + |xs|..] else [])
  }

  /** t is s with more blocks allocated: no byte changed, no block moved. */
  ghost predicate Grew(s: Fs, t: Fs)
    ensures Grew(s, t) ==> Inv(s) && Inv(t) && |t.inodes| == |s.inodes| && t.sb == s.sb
  {
    && Inv(s) && Inv(t) && t.sb == s.sb && SameBytes(s, t)
    && forall n, k :: 0 <= n < |s.inodes| && 0 <= k < SLOTS && Addr(s, n, k) != 0 ==> Addr(t, n, k) == Addr(s, n, k)
  }

  lemma GrewAlloc(s: Fs, n: nat, k: nat, b: nat)
    requires CanAlloc(s, n, k, b)
    ensures k <= NDIRECT || s.inodes[n].addrs[NDIRECT] < |s.disk|
    ensures Grew(s, Alloc(s, n, k, b)) && Addr(Alloc(s, n, k, b), n, k) == b
  {
    AllocBytes(s, n, k, b);
    var t := Alloc(s, n, k, b);
    forall n', k' | 0 <= n' < |s.inodes| && 0 <= k' < SLOTS
      ensures Addr(t, n', k') == if n' == n && k' == k then b else Addr(s, n', k')
    {
      AllocAddr(s, n, k, b, n', k');
    }
    hide Owned, SameBytes, Alloc, Addr;
  }

  lemma GrewRefl(s: Fs)
    requires Inv(s)
    ensures Grew(s, s)
  {
  }

  lemma GrewTrans(s: Fs, t: Fs, u: Fs)
    requires Grew(s, t) && Grew(t, u)
    ensures Grew(s, u)
  {
    hide Addr, Byte, Inv, Shape;
  }

  /** Every byte of t is as in s, except that file n reads xs at off. */
  ghost predicate Wrote(s: Fs, t: Fs, n: nat, off: nat, xs: seq<byte>)
    requires Shape(s) && n < |s.inodes|
    ensures Wrote(s, t, n, off, xs) ==> Shape(t) && t.sb == s.sb && |t.inodes| == |s.inodes|
  {
    && Shape(t) && t.sb == s.sb && |t.inodes| == |s.inodes|
    && forall n', i :: 0 <= n' < |s.inodes| && 0 <= i < MAXBYTES ==>
         Byte(t, n', i) == if n' == n && off <= i < off + |xs| then xs[i - off] else Byte(s, n', i)
  }

  /** Blocks that are there stay where they are, and sizes stay. */
  ghost predicate Stay(s: Fs, t: Fs)
    ensures Stay(s, t) ==> Shape(s) && Shape(t) && |t.inodes| == |s.inodes| && t.sb == s.sb
  {
    && Shape(s) && Shape(t) && t.sb == s.sb && |t.inodes| == |s.inodes|
    && (forall n :: 0 <= n < |s.inodes| ==> t.inodes[n].size == s.inodes[n].size)
    && (forall n, k :: 0 <= n < |s.inodes| && 0 <= k < SLOTS && Addr(s, n, k) != 0 ==> Addr(t, n, k) == Addr(s, n, k))
  }

  lemma StayRefl(s: Fs)
    requires Shape(s)
    ensures Stay(s, s)
  {
  }

  lemma StayTrans(s: Fs, t: Fs, u: Fs)
    requires Stay(s, t) && Stay(t, u)
    ensures Stay(s, u)
  {
    hide Addr, Shape;
  }

  lemma StayGrew(t: Fs, u: Fs, n: nat, bn: nat, d: Block)
    requires Grew(t, u) && n < |u.inodes| && bn < MAXFILE && Addr(u, n, Slot(bn)) < |u.disk|
    requires Shape(Overwrite(u, n, bn, d))
    requires forall n', k :: 0 <= n' < |u.inodes| && 0 <= k < SLOTS ==>
             Addr(Overwrite(u, n, bn, d), n', k) == Addr(u, n', k)
    ensures Stay(t, Overwrite(u, n, bn, d))
  {
    hide Addr, Shape, Inv, Byte;
  }

  lemma WroteGrew(s: Fs, t: Fs, u: Fs, n: nat, off: nat, xs: seq<byte>)
    requires Inv(s) && n < |s.inodes| && Wrote(s, t, n, off, xs) && Grew(t, u)
    ensures Wrote(s, u, n, off, xs)
  {
    hide Addr, Byte, Inv;
  }

  /** The memmove of one iteration of writei: xs at offset o of a block. */
  function Patch(d: Block, o: nat, xs: seq<byte>): (r: Block)
    requires o + |xs| <= BSIZE
  {
    Data(d.bytes[..o] + xs + d.bytes[o + |xs|..])
  }

  /** One more chunk: the bytes written so far, extended by the chunk. */
  lemma WroteMore(s: Fs, t: Fs, n: nat, off: nat, xs: seq<byte>, bn: nat, o: nat, ys: seq<byte>)
    requires Inv(s) && Inv(t) && n < |s.inodes| && Wrote(s, t, n, off, xs)
    requires bn < MAXFILE && Addr(t, n, Slot(bn)) != 0 && o + |ys| <= BSIZE
    requires off + |xs| == bn * BSIZE + o
    ensures Addr(t, n, Slot(bn)) < |t.disk|
    ensures var u := Overwrite(t, n, bn, Patch(t.disk[Addr(t, n, Slot(bn))], o, ys));
            Inv(u) && Wrote(s, u, n, off, xs + ys) && Addr(u, n, Slot(bn)) == Addr(t, n, Slot(bn))
  {
    hide Owned, Addr;
    OverwriteKeeps(t, n, bn, t.disk[0]);
    var d := t.disk[Addr(t, n, Slot(bn))];
    var p := Patch(d, o, ys);
    OverwriteKeeps(t, n, bn, p);
    OverwriteAddr(t, n, bn, p, n, Slot(bn));
    var u := Overwrite(t, n, bn, p);
    forall n', i | 0 <= n' < |s.inodes| && 0 <= i < MAXBYTES
      ensures Byte(u, n', i) == if n' == n && off <= i < off + |xs + ys| then (xs + ys)[i - off] else Byte(s, n', i)
    {
      OverwriteByte(t, n, bn, p, n', i);
      if n' == n && i / BSIZE == bn {
        Offset(i, bn);
        PatchedByte(d, o, ys, i % BSIZE);
        assert Byte(t, n, i) == d.bytes[i % BSIZE];
        AppendAt(xs, ys, off, i);
      } else {
        OutsideChunk(i, bn, o, |ys|);
        AppendAt(xs, ys, off, i);
      }
    }
  }

  lemma AppendAt(xs: seq<byte>, ys: seq<byte>, off: nat, i: nat)
    ensures off <= i < off + |xs| ==> (xs + ys)[i - off] == xs[i - off]
    ensures off + |xs| <= i < off + |xs| + |ys| ==> (xs + ys)[i - off] == ys[i - off - |xs|]
    ensures off <= i < off + |xs + ys| <==> off <= i < off + |xs| || off + |xs| <= i < off + |xs| + |ys|
  {
  }

  lemma Offset(i: nat, bn: nat)
    requires i / BSIZE == bn
    ensures i == bn * BSIZE + i % BSIZE
  {
  }

  lemma OutsideChunk(i: nat, bn: nat, o: nat, m: nat)
    requires o + m <= BSIZE
    ensures i / BSIZE != bn ==> !(bn * BSIZE + o <= i < bn * BSIZE + o + m)
  {
  }

  lemma PatchedByte(d: Block, o: nat, xs: seq<byte>, j: nat)
    requires o + |xs| <= BSIZE && j < BSIZE
    ensures Patch(d, o, xs).bytes[j] == if o <= j < o + |xs| then xs[j - o] else d.bytes[j]
  {
  }

  lemma OverwriteSlots(t: Fs, n: nat, bn: nat, d: Block)
    requires Inv(t) && n < |t.inodes| && bn < MAXFILE && Addr(t, n, Slot(bn)) != 0
    ensures Addr(t, n, Slot(bn)) < |t.disk| && Shape(Overwrite(t, n, bn, d))
    ensures forall n', k :: 0 <= n' < |t.inodes| && 0 <= k < SLOTS ==>
              Addr(Overwrite(t, n, bn, d), n', k) == Addr(t, n', k)
  {
    OverwriteAddr(t, n, bn, d, n, 0);
    forall n', k | 0 <= n' < |t.inodes| && 0 <= k < SLOTS
      ensures Addr(Overwrite(t, n, bn, d), n', k) == Addr(t, n', k)
    {
      OverwriteAddr(t, n, bn, d, n', k);
    }
  }

  /** With the size brought up to date, the bytes written are a splice of the file, and
      every other file is as it was. */
  lemma WroteIsSplice(s: Fs, t: Fs, n: nat, off: nat, xs: seq<byte>, n': nat)
    requires Shape(s) && NoHoles(s) && n < |s.inodes| && Wrote(s, t, n, off, xs) && n' < |s.inodes|
    requires off <= s.inodes[n].size && off + |xs| <= MAXBYTES
    requires t.inodes[n'].size == if n' == n && off + |xs| > s.inodes[n].size then off + |xs| else s.inodes[n'].size
    ensures s.inodes[n'].size <= MAXBYTES && t.inodes[n'].size <= MAXBYTES
    ensures Content(t, n') == if n' == n then Splice(Content(s, n), off, xs) else Content(s, n')
  {
    hide Byte, Splice;
    var c, d := Content(s, n), Content(t, n');
    if n' == n {
      SpliceAt(c, off, xs);
      forall i | 0 <= i < |d| ensures d[i] == Splice(c, off, xs)[i] { }
    } else {
      assert d == Content(s, n');
    }
  }

  lemma SpliceAt(c: seq<byte>, off: nat, xs: seq<byte>)
    requires off <= |c|
    ensures |Splice(c, off, xs)| == if off + |xs| > |c| then off + |xs| else |c|
    ensures forall i :: 0 <= i < |Splice(c, off, xs)| ==>
              Splice(c, off, xs)[i] == if off <= i < off + |xs| then xs[i - off] else c[i]
  {
  }

  // ----- a write in progress -----

  /** The blocks from the one holding off up to `end` are there. */
  ghost predicate Covered(s: Fs, n: nat, off: nat, end: nat)
    requires Shape(s) && n < |s.inodes|
  {
    forall bn :: off / BSIZE <= bn < MAXFILE && bn * BSIZE < end ==> Addr(s, n, Slot(bn)) != 0
  }

  ghost predicate Progress(s: Fs, t: Fs, n: nat, off: nat, xs: seq<byte>)
    requires Shape(s) && n < |s.inodes|
    ensures Progress(s, t, n, off, xs) ==> Inv(t) && Stay(s, t) && Wrote(s, t, n, off, xs)
  {
    Inv(t) && Wrote(s, t, n, off, xs) && Stay(s, t) && Covered(t, n, off, off + |xs|)
  }

  lemma ProgressStart(s: Fs, n: nat, off: nat)
    requires Good(s) && n < |s.inodes| && off <= s.inodes[n].size
    ensures Progress(s, s, n, off, [])
  {
    hide Addr, Byte, Inv;
    StayRefl(s);
    assert Filled(s, n, s.inodes[n].size);
  }

  lemma ProgressStep(s: Fs, t: Fs, u: Fs, n: nat, off: nat, xs: seq<byte>, ys: seq<byte>)
    requires Inv(s) && n < |s.inodes| && Progress(s, t, n, off, xs)
    requires Inv(u) && Wrote(s, u, n, off, xs + ys) && Stay(t, u)
    requires var e := off + |xs|;
             e / BSIZE < MAXFILE && e % BSIZE + |ys| <= BSIZE && Addr(u, n, Slot(e / BSIZE)) != 0
    ensures Progress(s, u, n, off, xs + ys)
  {
    hide Addr, Inv, Wrote;
    StayTrans(s, t, u);
    var e := off + |xs|;
    forall bn | off / BSIZE <= bn < MAXFILE && bn * BSIZE < off + |xs + ys| ensures Addr(u, n, Slot(bn)) != 0 {
      if bn * BSIZE >= e {
        OutsideChunk(bn * BSIZE, e / BSIZE, e % BSIZE, |ys|);
        Offset(e, e / BSIZE);
      }
    }
  }

  /** The inode with its size raised to `end`, as writei leaves it. */
  function Resized(s: Fs, n: nat, end: nat): (t: Fs)
    requires n < |s.inodes|
  {
    if end > s.inodes[n].size then s.(inodes := s.inodes[n := s.inodes[n].(size := end)]) else s
  }

  /** A finished write: the invariants hold, the file is the splice, the others are as before. */
  lemma ProgressEnd(s: Fs, t: Fs, n: nat, off: nat, xs: seq<byte>)
    requires Good(s) && n < |s.inodes| && Progress(s, t, n, off, xs)
    requires off <= s.inodes[n].size && off + |xs| <= MAXBYTES
    ensures var u := Resized(t, n, off + |xs|);
            && Good(u) && |u.inodes| == |s.inodes| && u.sb == s.sb
            && s.inodes[n].size <= MAXBYTES && u.inodes[n].size <= MAXBYTES
            && Content(u, n) == Splice(Content(s, n), off, xs)
            && forall n' :: 0 <= n' < |s.inodes| && n' != n ==>
                 && s.inodes[n'].size <= MAXBYTES && u.inodes[n'].size <= MAXBYTES
                 && Content(u, n') == Content(s, n')
  {
    hide Content, Owned, Covered, Filled;
    var u := Resized(t, n, off + |xs|);
    ResizedKeeps(t, n, off + |xs|);
    ResizedHoles(s, t, n, off, xs);
    ResizedWrote(s, t, n, off, xs);
    forall n' | 0 <= n' < |s.inodes|
      ensures s.inodes[n'].size <= MAXBYTES && u.inodes[n'].size <= MAXBYTES
      ensures Content(u, n') == if n' == n then Splice(Content(s, n), off, xs) else Content(s, n')
    {
      WroteIsSplice(s, u, n, off, xs, n');
    }
  }

  lemma ResizedAddr(t: Fs, n: nat, end: nat, n': nat, k: nat)
    requires Shape(t) && n < |t.inodes| && n' < |t.inodes| && k < SLOTS
    ensures Shape(Resized(t, n, end)) && Addr(Resized(t, n, end), n', k) == Addr(t, n', k)
  {
  }

  lemma ResizedKeeps(t: Fs, n: nat, end: nat)
    requires Inv(t) && n < |t.inodes|
    ensures Inv(Resized(t, n, end))
  {
    var u := Resized(t, n, end);
    forall n', k | 0 <= n' < |t.inodes| && 0 <= k < SLOTS ensures Addr(u, n', k) == Addr(t, n', k) {
      ResizedAddr(t, n, end, n', k);
    }
    hide Addr, Marked;
  }

  lemma ResizedHoles(s: Fs, t: Fs, n: nat, off: nat, xs: seq<byte>)
    requires Good(s) && n < |s.inodes| && Progress(s, t, n, off, xs)
    requires off <= s.inodes[n].size && off + |xs| <= MAXBYTES
    ensures Shape(Resized(t, n, off + |xs|)) && NoHoles(Resized(t, n, off + |xs|))
  {
    hide Addr, Owned, Wrote;
    var end := off + |xs|;
    var u := Resized(t, n, end);
    ResizedAddr(t, n, end, n, 0);
    forall n' | 0 <= n' < |s.inodes| ensures u.inodes[n'].size <= MAXBYTES && Filled(u, n', u.inodes[n'].size) {
      assert Filled(s, n', s.inodes[n'].size);
      forall bn | 0 <= bn < MAXFILE && bn * BSIZE < u.inodes[n'].size ensures Addr(u, n', Slot(bn)) != 0 {
        ResizedAddr(t, n, end, n', Slot(bn));
        if bn * BSIZE >= s.inodes[n'].size {
          assert off / BSIZE <= bn;
        }
      }
    }
  }

  lemma ResizedWrote(s: Fs, t: Fs, n: nat, off: nat, xs: seq<byte>)
    requires Shape(s) && n < |s.inodes| && Wrote(s, t, n, off, xs)
    ensures Wrote(s, Resized(t, n, off + |xs|), n, off, xs)
  {
    hide Addr;
    var u := Resized(t, n, off + |xs|);
    ResizedAddr(t, n, off + |xs|, n, 0);
    forall n', i | 0 <= n' < |s.inodes| && 0 <= i < MAXBYTES ensures Byte(u, n', i) == Byte(t, n', i) {
      ResizedAddr(t, n, off + |xs|, n', Slot(i / BSIZE));
    }
  }

  /** Writing on where a write ended is one longer write. */
  lemma SpliceTwice(c: seq<byte>, off: nat, xs: seq<byte>, ys: seq<byte>)
    requires off <= |c|
    ensures off + |xs| <= |Splice(c, off, xs)|
    ensures Splice(Splice(c, off, xs), off + |xs|, ys) == Splice(c, off, xs + ys)
  {
  }

  /** Truncation empties its file and leaves the others as they were. */
  lemma TruncatedGood(s: Fs, n: nat)
    requires Good(s) && n < |s.inodes|
    ensures Good(Truncated(s, n)) && Truncated(s, n).inodes[n].size == 0
    ensures forall n' :: 0 <= n' < |s.inodes| && n' != n ==>
              && Truncated(s, n).inodes[n'].size == s.inodes[n'].size <= MAXBYTES
              && Content(Truncated(s, n), n') == Content(s, n')
  {
    hide Owned, Addr, Freed, Byte;
    TruncatedKeeps(s, n);
    var t := Truncated(s, n);
    forall n' | 0 <= n' < |s.inodes|
      ensures t.inodes[n'].size <= MAXBYTES && Filled(t, n', t.inodes[n'].size)
    {
      assert Filled(s, n', s.inodes[n'].size);
      forall bn | 0 <= bn < MAXFILE && bn * BSIZE < t.inodes[n'].size ensures Addr(t, n', Slot(bn)) != 0 {
        TruncatedAddr(s, n, n', Slot(bn));
      }
    }
    forall n' | 0 <= n' < |s.inodes| && n' != n ensures Content(t, n') == Content(s, n') {
      forall i | 0 <= i < s.inodes[n'].size ensures Byte(t, n', i) == Byte(s, n', i) {
        TruncatedByte(s, n, n', i);
      }
    }
  }
}
