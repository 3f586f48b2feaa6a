/** Disk blocks: 1024 bytes, read as 256 little-endian 32-bit words where the
    source casts `bp->data` to `uint*` or `struct logheader*`, and as 8192 bits
    where it indexes the free map. */
module Blocks {
  import opened Machine

  const BSIZE := 1024
  const WORDS := 256

  datatype Data = Data(bytes: seq<byte>)
  type Block = b: Data | |b.bytes| == BSIZE witness Data(seq(BSIZE, _ => 0))

  const ZERO: Block := Data(Zeros(BSIZE))

  function Word(b: Block, j: nat): (w: uint32)
    requires j < WORDS
  {
    var d := b.bytes;
    d[4 * j] as int + 256 * d[4 * j + 1] as int + 65536 * d[4 * j + 2] as int + 16777216 * d[4 * j + 3] as int
  }

  function SetWord(b: Block, j: nat, w: uint32): (r: Block)
    requires j < WORDS
  {
    Data(b.bytes[4 * j := w % 256]
                [4 * j + 1 := w / 256 % 256]
                [4 * j + 2 := w / 65536 % 256]
                [4 * j + 3 := w / 16777216])
  }

  /** A stored word reads back, and no other word of the block moves. */
  lemma WordOfSetWord(b: Block, j: nat, w: uint32, k: nat)
    requires j < WORDS && k < WORDS
    ensures Word(SetWord(b, j, w), k) == if k == j then w else Word(b, k)
  {
    if k == j { WordBytes(w); }
  }

  /** A word from its four bytes. */
  lemma WordBytes(w: uint32)
    ensures w == w % 256 + 256 * (w / 256 % 256) + 65536 * (w / 65536 % 256) + 16777216 * (w / 16777216)
  {
    assert w / 65536 == w / 256 / 256 && w / 16777216 == w / 65536 / 256;
  }

  /** Bit k of a number, as the source's `x & (1 << k)`. */
  predicate Bit(x: nat, k: nat) {
    if k == 0 then x % 2 == 1 else Bit(x / 2, k - 1)
  }

  function Pow2(n: nat): (p: nat) {
    if n == 0 then 1 else 2 * Pow2(n - 1)
  }

  /** `x | (1 << k)` or `x & ~(1 << k)`, selected by `v`, on a number of w bits. */
  function PutBit(x: nat, k: nat, v: bool, w: nat): (r: nat)
    requires k < w && x < Pow2(w)
    ensures r < Pow2(w)
    decreases k
  {
    if k == 0 then x - x % 2 + (if v then 1 else 0) else 2 * PutBit(x / 2, k - 1, v, w - 1) + x % 2
  }

  function PutByte(x: byte, k: nat, v: bool): (r: byte)
    requires k < 8
  {
    assert Pow2(4) == 16;
    PutBit(x, k, v, 8)
  }

  /** PutBit decides bit k and only bit k. */
  lemma {:induction false} BitOfPutBit(x: nat, k: nat, v: bool, w: nat, j: nat)
    requires k < w && x < Pow2(w)
    ensures Bit(PutBit(x, k, v, w), j) == if j == k then v else Bit(x, j)
    decreases k
  {
    var r := PutBit(x, k, v, w);
    if k == 0 {
      assert r % 2 == 1 <==> v;
      assert r / 2 == x / 2;
    } else {
      assert r % 2 == x % 2 && r / 2 == PutBit(x / 2, k - 1, v, w - 1);
      if j > 0 {
        BitOfPutBit(x / 2, k - 1, v, w - 1, j - 1);
      }
    }
  }

  lemma BitOfPutByte(x: byte, k: nat, v: bool, j: nat)
    requires k < 8
    ensures Bit(PutByte(x, k, v), j) == if j == k then v else Bit(x, j)
  {
    assert Pow2(4) == 16;
    BitOfPutBit(x, k, v, 8, j);
  }
}
