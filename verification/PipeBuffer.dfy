/** The ring of a pipe (kernel/pipe.c): an array and two 32-bit counters. */
module PipeBuffer {
  import opened Machine

  const PIPESIZE := 512

  datatype Ring = Ring(data: seq<byte>, nread: nat, nwrite: nat)

  predicate Shape(r: Ring) { |r.data| == PIPESIZE && r.nread < UINT32 && r.nwrite < UINT32 }

  /** pi->nwrite == pi->nread + PIPESIZE, in 32-bit arithmetic. */
  predicate Full(r: Ring) { r.nwrite == (r.nread + PIPESIZE) % UINT32 }
  predicate Empty(r: Ring) { r.nread == r.nwrite }

  function Put(r: Ring, ch: byte): (t: Ring)
    requires Shape(r)
    ensures Shape(t)
  {
    r.(data := r.data[r.nwrite % PIPESIZE := ch], nwrite := (r.nwrite + 1) % UINT32)
  }

  function Next(r: Ring): (ch: byte)
    requires Shape(r)
  {
    r.data[r.nread % PIPESIZE]
  }

  function Get(r: Ring): (t: Ring)
    requires Shape(r)
    ensures Shape(t)
  {
    r.(nread := (r.nread + 1) % UINT32)
  }

  /** The ring holds the bytes accepted and not yet delivered. */
  ghost predicate Tracks(r: Ring, accepted: seq<byte>, delivered: seq<byte>)
    ensures Tracks(r, accepted, delivered) ==> Shape(r)
  {
    && Shape(r) && |delivered| <= |accepted| <= |delivered| + PIPESIZE
    && accepted[..|delivered|] == delivered
    && r.nread == |delivered| % UINT32 && r.nwrite == |accepted| % UINT32
    && (forall k :: |delivered| <= k < |accepted| ==> r.data[k % PIPESIZE] == accepted[k])
  }

  /** Counters that have wrapped any number of times still index the same slot. */
  lemma SlotOfCounter(k: nat)
    ensures k % UINT32 % PIPESIZE == k % PIPESIZE
  {
    var q := k / UINT32;
    assert k == q * UINT32 + k % UINT32;
    assert q * UINT32 == PIPESIZE * (q * (UINT32 / PIPESIZE));
    AddMultiple(q * (UINT32 / PIPESIZE), k % UINT32);
  }

  lemma AddMultiple(a: nat, x: nat)
    ensures (PIPESIZE * a + x) % PIPESIZE == x % PIPESIZE
  {
  }

  lemma Wrapped(k: nat, d: nat)
    ensures (k % UINT32 + d) % UINT32 == (k + d) % UINT32
  {
  }

  lemma CountersEqual(a: nat, b: nat)
    requires a <= b <= a + PIPESIZE
    ensures a % UINT32 == b % UINT32 <==> a == b
    ensures b % UINT32 == (a % UINT32 + PIPESIZE) % UINT32 <==> b == a + PIPESIZE
  {
    Wrapped(a, PIPESIZE);
  }

  /** The tests for full and empty are exact, wraparound or not. */
  lemma TestsExact(r: Ring, accepted: seq<byte>, delivered: seq<byte>)
    requires Tracks(r, accepted, delivered)
    ensures Full(r) <==> |accepted| == |delivered| + PIPESIZE
    ensures Empty(r) <==> accepted == delivered
  {
    CountersEqual(|delivered|, |accepted|);
    if |accepted| == |delivered| { assert accepted[..|delivered|] == accepted; }
  }

  lemma SlotsApart(a: nat, b: nat)
    requires a < b < a + PIPESIZE
    ensures a % PIPESIZE != b % PIPESIZE
  {
  }

  lemma PutTracks(r: Ring, accepted: seq<byte>, delivered: seq<byte>, ch: byte)
    requires Tracks(r, accepted, delivered) && !Full(r)
    ensures Tracks(Put(r, ch), accepted + [ch], delivered)
  {
    TestsExact(r, accepted, delivered);
    SlotOfCounter(|accepted|);
    Wrapped(|accepted|, 1);
    var t, a := Put(r, ch), accepted + [ch];
    forall k | |delivered| <= k < |a| ensures t.data[k % PIPESIZE] == a[k] {
      if k < |accepted| { SlotsApart(k, |accepted|); }
    }
    assert a[..|delivered|] == accepted[..|delivered|];
  }

  lemma GetTracks(r: Ring, accepted: seq<byte>, delivered: seq<byte>)
    requires Tracks(r, accepted, delivered) && !Empty(r)
    ensures |delivered| < |accepted| && Next(r) == accepted[|delivered|]
    ensures Tracks(Get(r), accepted, delivered + [Next(r)])
  {
    TestsExact(r, accepted, delivered);
    SlotOfCounter(|delivered|);
    Wrapped(|delivered|, 1);
    assert accepted[..|delivered| + 1] == delivered + [accepted[|delivered|]];
  }

  // ----- the copy loops, between one sleep and the next -----

  class Buffer {
    const data: array<byte>
    var nread: nat
    var nwrite: nat
    ghost var accepted: seq<byte>
    ghost var delivered: seq<byte>

    ghost predicate Ok()
      reads this, data
    {
      data.Length == PIPESIZE && Tracks(Ring(data[..], nread, nwrite), accepted, delivered)
    }

    /** pipealloc's part in the ring; the array's old contents do not matter. */
    constructor ()
      ensures Ok() && fresh(data) && accepted == [] && delivered == []
    {
      data := new byte[PIPESIZE];
      nread, nwrite, accepted, delivered := 0, 0, [], [];
    }

    /** pipewrite's for loop from byte i until it ends or finds the ring full. */
    method Fill(src: seq<byte>, i: nat) returns (j: nat)
      requires Ok() && i <= |src|
      modifies this, data
      ensures Ok() && i <= j <= |src|
      ensures accepted == old(accepted) + src[i..j] && delivered == old(delivered)
      ensures j == |src| || |accepted| == |delivered| + PIPESIZE
    {
      hide Tracks;
      j := i;
      while j < |src|
        invariant i <= j <= |src| && Ok() && accepted == old(accepted) + src[i..j] && delivered == old(delivered)
      {
        ghost var r := Ring(data[..], nread, nwrite);
        TestsExact(r, accepted, delivered);
        if nwrite == (nread + PIPESIZE) % UINT32 { return; }
        PutTracks(r, accepted, delivered, src[j]);
        assert src[i..j + 1] == src[i..j] + [src[j]];
        data[nwrite % PIPESIZE] := src[j];
        nwrite := (nwrite + 1) % UINT32;
        accepted := accepted + [src[j]];
        assert Ring(data[..], nread, nwrite) == Put(r, src[j]);
        j := j + 1;
      }
    }

    /** piperead's for loop: at most n bytes, in the order they were accepted. */
    method Drain(n: nat) returns (out: seq<byte>)
      requires Ok()
      modifies this
      ensures Ok() && |out| <= n && accepted == old(accepted) && delivered == old(delivered) + out
      ensures |out| == n || accepted == delivered
    {
      hide Tracks;
      out := [];
      while |out| < n
        invariant |out| <= n && Ok() && accepted == old(accepted) && delivered == old(delivered) + out
      {
        ghost var r := Ring(data[..], nread, nwrite);
        TestsExact(r, accepted, delivered);
        if nread == nwrite { return; }
        GetTracks(r, accepted, delivered);
        var ch := data[nread % PIPESIZE];
        nread := (nread + 1) % UINT32;
        delivered := delivered + [ch];
        assert Ring(data[..], nread, nwrite) == Get(r);
        out := out + [ch];
      }
    }
  }
}
