/** malloc, free and morecore (user/umalloc.c): the circular free list, its headers rewritten
    in place. */
module Malloc {
  import opened Machine
  import opened Arena
  import opened Counting

  const HEADER := 16                // sizeof(Header)
  const MINUNITS := 4096

  // ----- the ring in memory -----

  ghost predicate LinkAt(ptr: map<nat, nat>, ring: seq<nat>, i: nat) {
    i < |ring| && ring[i] in ptr && ptr[ring[i]] == ring[Next(i, |ring|)]
  }

  /** The pointers form one cycle through `ring`. */
  ghost predicate Circular(ptr: map<nat, nat>, ring: seq<nat>) {
    forall i :: 0 <= i < |ring| ==> LinkAt(ptr, ring, i)
  }

  /** All but the pointer of ring[k]; q points where that one should. */
  ghost predicate Open(ptr: map<nat, nat>, ring: seq<nat>, k: nat, q: nat) {
    && k < |ring| && q in ptr && ptr[q] == ring[Next(k, |ring|)]
    && (forall i :: 0 <= i < |ring| && i != k ==> LinkAt(ptr, ring, i))
  }

  lemma OpenPlain(ptr: map<nat, nat>, ring: seq<nat>, k: nat, q: nat)
    requires Circular(ptr, ring) && k < |ring| && q !in ring && ring[k] in ptr
    ensures Open(ptr[q := ptr[ring[k]]], ring, k, q)
  {
    assert LinkAt(ptr, ring, k);
    var p := ptr[q := ptr[ring[k]]];
    forall i | 0 <= i < |ring| && i != k ensures LinkAt(p, ring, i) {
      assert LinkAt(ptr, ring, i);
    }
  }

  /** The link at i, where ring[k + 1] is left out. */
  lemma SkipLink(ptr: map<nat, nat>, p: map<nat, nat>, ring: seq<nat>, k: nat, i: nat)
    requires k + 1 < |ring| && i < |ring| - 1 && i != k
    requires LinkAt(ptr, ring, if i < k + 1 then i else i + 1)
    requires var c := ring[if i < k + 1 then i else i + 1]; c in ptr ==> c in p && p[c] == ptr[c]
    ensures LinkAt(p, Without(ring, k + 1), i)
  {
  }

  lemma OpenSkip(ptr: map<nat, nat>, ring: seq<nat>, k: nat, q: nat)
    requires Circular(ptr, ring) && k + 1 < |ring| && q !in ring && ring[k + 1] in ptr
    ensures Open(ptr[q := ptr[ring[k + 1]]], Without(ring, k + 1), k, q)
  {
    assert LinkAt(ptr, ring, k + 1);
    var p, r := ptr[q := ptr[ring[k + 1]]], Without(ring, k + 1);
    forall i | 0 <= i < |r| && i != k ensures LinkAt(p, r, i) {
      var j := if i < k + 1 then i else i + 1;
      assert LinkAt(ptr, ring, j) && ring[j] in ring;
      SkipLink(ptr, p, ring, k, i);
    }
  }

  lemma CloseSame(ptr: map<nat, nat>, ring: seq<nat>, k: nat, q: nat)
    requires Open(ptr, ring, k, q) && Ascending(ring)
    ensures Circular(ptr[ring[k] := ptr[q]], ring)
  {
    var p := ptr[ring[k] := ptr[q]];
    forall i | 0 <= i < |ring| ensures LinkAt(p, ring, i) {
      if i != k { assert LinkAt(ptr, ring, i); }
    }
  }

  lemma CloseWith(ptr: map<nat, nat>, ring: seq<nat>, k: nat, q: nat)
    requires Open(ptr, ring, k, q) && Ascending(ring) && q !in ring
    ensures Circular(ptr[ring[k] := q], With(ring, k + 1, q))
  {
    var p, r := ptr[ring[k] := q], With(ring, k + 1, q);
    forall i | 0 <= i < |r| ensures LinkAt(p, r, i) {
      if i != k && i != k + 1 { assert LinkAt(ptr, ring, if i < k + 1 then i else i - 1); }
    }
  }

  lemma CloseSkip(ptr: map<nat, nat>, ring: seq<nat>, k: nat)
    requires Circular(ptr, ring) && Ascending(ring) && k + 1 < |ring| && ring[k + 1] in ptr
    ensures Circular(ptr[ring[k] := ptr[ring[k + 1]]], Without(ring, k + 1))
  {
    var p, r := ptr[ring[k] := ptr[ring[k + 1]]], Without(ring, k + 1);
    assert LinkAt(ptr, ring, k + 1);
    forall i | 0 <= i < |r| ensures LinkAt(p, r, i) {
      var j := if i < k + 1 then i else i + 1;
      assert LinkAt(ptr, ring, j);
      if i != k { SkipLink(ptr, p, ring, k, i); }
    }
  }

  // ----- where a block goes -----

  /** b goes right after the k-th free block. */
  ghost predicate Slot(h: Arena, b: nat, k: nat) {
    && k < |h.ring| && h.ring[k] in h.size && b in h.size && h.ring[k] < b
    && h.ring[k] + h.size[h.ring[k]] <= b
    && (k + 1 < |h.ring| ==> b < h.ring[k + 1] && b + h.size[b] <= h.ring[k + 1])
  }

  lemma {:induction false} FindSlot(h: Arena, b: nat, n: nat) returns (k: nat)
    requires Inv(h) && b in h.used && 0 < n <= |h.ring| && (n < |h.ring| ==> b < h.ring[n])
    ensures Slot(h, b, k)
  {
    assert b in h.size && b != h.ring[0] && Holds(h, b, b);
    if b < h.ring[n - 1] {
      k := FindSlot(h, b, n - 1);
    } else {
      k := n - 1;
      var c := h.ring[k];
      assert c in h.size && c in h.ring;
      if c + h.size[c] > b { assert Holds(h, c, b); }
      if n < |h.ring| && b + h.size[b] > h.ring[n] {
        assert Holds(h, h.ring[n], h.ring[n]) && Holds(h, b, h.ring[n]);
      }
    }
  }

  /** The search of free stops at the slot and nowhere else. */
  lemma StopsAtSlot(h: Arena, b: nat, k: nat, i: nat)
    requires Inv(h) && Slot(h, b, k) && b in h.used && i < |h.ring|
    ensures var p, q := h.ring[i], h.ring[Next(i, |h.ring|)];
            (b > p && b < q) || (p >= q && (b > p || b < q)) <==> i == k
  {
    RingDistinct(h);
    assert b > h.ring[0];
  }

  /** Sizes are 32-bit; with addresses below 2^32 they never wrap. */
  ghost predicate Small(h: Arena) {
    forall b :: b in h.size ==> b + h.size[b] <= UINT32
  }

  function Add32(a: nat, b: nat): (c: nat) { (a + b) % UINT32 }

  /** The headers in memory; blocks merged away leave stale ones behind. */
  ghost predicate Headers(size: map<nat, nat>, h: Arena) {
    forall b :: b in h.size ==> b in size && size[b] == h.size[b]
  }

  // ----- the two halves of free -----

  /** b has its slot and does not touch the free block after it. */
  ghost predicate Clear(h: Arena, b: nat, k: nat)
    ensures Clear(h, b, k) ==> Slot(h, b, k)
  {
    Slot(h, b, k) && (k + 1 < |h.ring| ==> b + h.size[b] < h.ring[k + 1])
  }

  /** g is h with free memory moved into the allocated block b. */
  ghost predicate Reshaped(h: Arena, g: Arena, b: nat)
    ensures Reshaped(h, g, b) ==> Inv(h) && Inv(g) && b in g.used && g.ring[0] == h.ring[0]
  {
    && Inv(h) && Inv(g) && b in h.used && g.used == h.used && g.ring[0] == h.ring[0] && g.owner.Keys == h.owner.Keys
    && (forall u: nat :: IsFree(g, u) || Holds(g, b, u) <==> IsFree(h, u) || Holds(h, b, u))
    && (forall c :: c in h.used && c != b ==> g.size[c] == h.size[c])
  }

  lemma ReshapedNone(h: Arena, b: nat)
    requires Inv(h) && b in h.used
    ensures Reshaped(h, h, b)
  {
  }

  lemma ReshapedReleased(h: Arena, g: Arena, k: Arena, b: nat)
    requires Reshaped(h, g, b) && Released(g, k, b)
    ensures Released(h, k, b)
  {
    hide Ordered, Owns, Holds, IsFree;
  }

  /** The block after b is free and touches it: b takes it over. */
  function TakeOver(h: Arena, b: nat, i: nat): (g: Arena)
    requires i < |h.ring| && b in h.size && h.ring[i] in h.size
  {
    Merge(Unlink(h, i), b, h.ring[i])
  }

  lemma TakeOverFields(h: Arena, b: nat, i: nat)
    requires 0 < i < |h.ring| && b in h.used && b in h.size && h.ring[i] in h.size && h.ring[i] !in h.used
    ensures var g := TakeOver(h, b, i);
            && g.ring == Without(h.ring, i) && g.used == h.used && g.owner.Keys == h.owner.Keys
            && (forall j :: 0 <= j < i ==> g.ring[j] == h.ring[j])
            && (forall j :: i <= j < |g.ring| ==> g.ring[j] == h.ring[j + 1])
            && (forall c :: c in g.size <==> c in h.size && (c != h.ring[i] || c == b))
            && (forall c :: c in g.size && c != b ==> g.size[c] == h.size[c])
            && g.size[b] == h.size[b] + h.size[h.ring[i]]
  {
  }

  lemma JoinRight(h: Arena, b: nat, k: nat)
    requires Inv(h) && Slot(h, b, k) && b in h.used && k + 1 < |h.ring| && h.ring[k + 1] in h.size
    requires b + h.size[b] == h.ring[k + 1]
    ensures var g := TakeOver(h, b, k + 1);
            Reshaped(h, g, b) && Clear(g, b, k) && g.ring == Without(h.ring, k + 1) && g.ring[k] == h.ring[k]
    ensures Small(h) ==> Small(TakeOver(h, b, k + 1))
  {
    hide Owns, Ordered, Blocks, Merge, Unlink, Without, Holds, IsFree, Ascending, Slot, Clear;
    SlotFacts(h, b, k);
    MergeRightKeeps(h, b, k + 1);
    RingAscends(h);
    assert h.ring[k + 1] in h.ring;
    TakeOverFields(h, b, k + 1);
    TakenClear(h, TakeOver(h, b, k + 1), b, k);
    TakenSmall(h, TakeOver(h, b, k + 1), b, h.ring[k + 1]);
  }

  lemma TakenSmall(h: Arena, g: Arena, b: nat, c: nat)
    requires b in h.size && c in h.size && b + h.size[b] == c && b in g.size && g.size[b] == h.size[b] + h.size[c]
    requires forall x :: x in g.size ==> x in h.size && (x != b ==> g.size[x] == h.size[x])
    ensures Small(h) ==> Small(g)
  {
  }

  lemma TakenClear(h: Arena, g: Arena, b: nat, k: nat)
    requires Ordered(h) && Slot(h, b, k) && k + 1 < |h.ring| && b !in h.ring && b + h.size[b] == h.ring[k + 1]
    requires |g.ring| == |h.ring| - 1 && g.ring[k] == h.ring[k] && (k + 1 < |g.ring| ==> g.ring[k + 1] == h.ring[k + 2])
    requires b in g.size && g.size[b] == h.size[b] + h.size[h.ring[k + 1]]
    requires h.ring[k] in g.size && g.size[h.ring[k]] == h.size[h.ring[k]]
    ensures Clear(g, b, k)
  {
  }

  /** The block before b is free and touches it: it takes b over. */
  lemma JoinLeft(h: Arena, b: nat, k: nat)
    requires Inv(h) && Clear(h, b, k) && b in h.used && h.ring[k] + h.size[h.ring[k]] == b
    ensures var g := Merge(h, h.ring[k], b);
            Released(h, g, b) && g.ring == h.ring && h.ring[k] in g.ring && (Small(h) ==> Small(g))
  {
    hide Owns;
    assert k > 0;
    MergeLeftKeeps(h, k, b);
  }

  lemma LinkIn(h: Arena, b: nat, k: nat)
    requires Inv(h) && Clear(h, b, k) && b in h.used && h.ring[k] + h.size[h.ring[k]] != b
    ensures var g := Link(h, b, k + 1);
            && Released(h, g, b) && g.ring == With(h.ring, k + 1, b) && g.size == h.size
            && h.ring[k] in g.ring && (Small(h) ==> Small(g))
  {
    hide Owns;
    LinkKeeps(h, b, k + 1);
    assert With(h.ring, k + 1, b)[k] == h.ring[k];
  }

  lemma RingAscends(h: Arena)
    requires Inv(h)
    ensures Ascending(h.ring) && (forall b :: b in h.used ==> b !in h.ring && b in h.size) && |h.ring| > 0
    ensures forall i :: 0 <= i < |h.ring| ==> h.ring[i] in h.size
  {
    RingDistinct(h);
  }

  /** A 32-bit sum of the sizes of two touching blocks does not wrap. */
  lemma SumFits(h: Arena, b: nat, c: nat)
    requires Small(h) && b in h.size && c in h.size && b + h.size[b] == c && b > 0
    ensures Add32(h.size[b], h.size[c]) == h.size[b] + h.size[c]
  {
  }

  /** The block b goes after is the last free one before it. */
  lemma SlotIsLast(h: Arena, b: nat, k: nat)
    requires Inv(h) && Slot(h, b, k)
    ensures k < |h.ring| && h.ring[k] < b && forall c :: c in h.ring && c < b ==> c <= h.ring[k]
  {
    RingAscends(h);
  }

  lemma SlotFacts(h: Arena, b: nat, k: nat)
    requires Inv(h) && Slot(h, b, k)
    ensures k < |h.ring| && h.ring[k] in h.size && b in h.size && h.ring[k] < b
    ensures k + 1 < |h.ring| ==> h.ring[k + 1] in h.size
    ensures b > h.ring[0]
    ensures b + h.size[b] == h.ring[Next(k, |h.ring|)] ==> k + 1 < |h.ring|
    ensures k + 1 < |h.ring| && b + h.size[b] != h.ring[k + 1] ==> Clear(h, b, k)
    ensures k + 1 == |h.ring| ==> Clear(h, b, k)
  {
    RingDistinct(h);
  }

  class Heap {
    const base: nat
    var ptr: map<nat, nat>
    var size: map<nat, nat>
    var freep: nat                  // 0 before the first malloc
    ghost var st: Arena

    ghost predicate Ok()
      reads this
    {
      && base > 0 && Inv(st) && st.ring[0] == base && Small(st)
      && if freep == 0 then st == Arena([base], map[base := 0], {}, map[])
         else Headers(size, st) && Circular(ptr, st.ring) && freep in st.ring
    }

    /** The search loop of free: it ends at the free block b goes after. */
    method Search(b: nat) returns (p: nat, ghost k: nat)
      requires Ok() && freep != 0 && b in st.used
      ensures Slot(st, b, k) && p == st.ring[k]
    {
      hide Owns, Blocks, Ordered, Inv, Slot, LinkAt;
      RingAscends(st);
      k := FindSlot(st, b, |st.ring|);
      p := freep;
      ghost var n := |st.ring|;
      ghost var i :| 0 <= i < n && st.ring[i] == p;
      StopsAtSlot(st, b, k, i);
      LinkFacts(ptr, st.ring, i);
      SlotFacts(st, b, k);
      while !(b > p && b < ptr[p])
        invariant 0 <= i < n && p == st.ring[i] && p in ptr && ptr[p] == st.ring[Next(i, n)]
        invariant (b > p && b < ptr[p]) || (p >= ptr[p] && (b > p || b < ptr[p])) <==> i == k
        decreases if i <= k then k - i else k + n - i
      {
        if p >= ptr[p] && (b > p || b < ptr[p]) { break; }
        p := ptr[p];
        i := Next(i, n);
        StopsAtSlot(st, b, k, i);
        LinkFacts(ptr, st.ring, i);
      }
    }

    /** free: the block's units are free again and touching free blocks have been joined. */
    method Free(bp: nat)
      requires Ok() && freep != 0 && bp in st.used
      modifies this
      ensures Ok() && freep != 0 && Released(old(st), st, bp)
      ensures freep in old(st.ring) && freep < bp && forall c :: c in old(st.ring) && c < bp ==> c <= freep
    {
      hide Owns, Blocks, Ordered, Inv, Slot, LinkAt, Merge, TakeOver, Link, Without, With, Circular, Open,
           Released, Reshaped, Clear, Ascending, Small, Add32, Headers;
      ghost var h := st;
      var p; ghost var k;
      p, k := Search(bp);
      SlotIsLast(st, bp, k);
      RingAscends(h);
      SlotFacts(h, bp, k);
      HeaderFacts(size, h);
      LinkFacts(ptr, h.ring, k);
      LinkFacts(ptr, h.ring, Next(k, |h.ring|));
      ReshapedNone(h, bp);
      if bp + size[bp] == ptr[p] {
        var r := ptr[p];
        JoinRight(h, bp, k);
        SumFits(h, bp, r);
        OpenSkip(ptr, h.ring, k, bp);
        TakeOverHeaders(size, h, bp, k + 1);
        size := size[bp := Add32(size[bp], size[r])];
        ptr := ptr[bp := ptr[r]];
        st := TakeOver(h, bp, k + 1);
      } else {
        OpenPlain(ptr, h.ring, k, bp);
        ptr := ptr[bp := ptr[p]];
      }
      ghost var g := st;
      RingAscends(g);
      SlotFacts(g, bp, k);
      HeaderFacts(size, g);
      if p + size[p] == bp {
        JoinLeft(g, bp, k);
        SumFits(g, p, bp);
        CloseSame(ptr, g.ring, k, bp);
        MergeHeaders(size, g, p, bp);
        size := size[p := Add32(size[p], size[bp])];
        ptr := ptr[p := ptr[bp]];
        st := Merge(g, p, bp);
      } else {
        LinkIn(g, bp, k);
        LinkHeaders(size, g, bp, k + 1);
        CloseWith(ptr, g.ring, k, bp);
        ptr := ptr[p := bp];
        st := Link(g, bp, k + 1);
      }
      ReshapedReleased(h, g, st, bp);
      freep := p;
    }

    /** The heap of a program that has not called malloc. */
    constructor (base: nat)
      requires 0 < base < UINT32
      ensures Ok() && this.base == base && freep == 0 && st == Arena([base], map[base := 0], {}, map[])
    {
      this.base := base;
      ptr, size, freep := map[], map[], 0;
      st := Arena([base], map[base := 0], {}, map[]);
    }

    /** morecore, where sbrk would return address avail, or fail with -1: all of the new memory
        is free. */
    method Morecore(nunits: nat, avail: int) returns (p: nat, ghost got: nat)
      requires Ok() && freep != 0 && 0 < nunits && Granted(st, nunits, avail)
      modifies this
      ensures Ok() && freep != 0 && got == Amount(nunits) == (if nunits < 4096 then 4096 else nunits)
      ensures p == if avail == -1 then 0 else freep
      ensures avail == -1 ==> st == old(st) && freep == old(freep)
      ensures avail != -1 ==> Released(Region(old(st), avail, got), st, avail)
    {
      hide Owns, Blocks, Ordered, Inv, LinkAt, Region, Circular, Released, Small, Headers, Above;
      var nu := if nunits < MINUNITS then MINUNITS else nunits;
      got := nu;
      if avail == -1 { return 0, got; }
      RegionKeeps(st, avail, nu);
      RegionHeaders(size, st, avail, nu);
      RingAscends(st);
      size := size[avail := nu];
      st := Region(st, avail, nu);
      Free(avail);
      return freep, got;
    }

    /** malloc's taking of n units from the free block p, which follows prevp. */
    method Take(prevp: nat, p: nat, n: nat, ghost i: nat) returns (b: nat)
      requires Ok() && freep != 0 && i + 1 < |st.ring| && prevp == st.ring[i] && p == st.ring[i + 1]
      requires p in st.size && 0 < n <= st.size[p]
      modifies this
      ensures Ok() && freep != 0 && Allocated(old(st), st, b, n) && Taken(old(st), n, i + 1, b, freep)
    {
      hide Owns, Blocks, Ordered, Inv, LinkAt, Split, Unlink, Circular, Allocated, Small, Headers, Without;
      ghost var h := st;
      RingAscends(h);
      HeaderFacts(size, h);
      LinkFacts(ptr, h.ring, i + 1);
      b := p;
      if size[p] == n {
        TakeWhole(h, i + 1, n);
        CloseSkip(ptr, h.ring, i);
        UnlinkHeaders(size, h, i + 1);
        ptr := ptr[prevp := ptr[p]];
        st := Unlink(h, i + 1);
      } else {
        TakeTail(h, i + 1, n);
        SplitHeaders(size, h, p, n);
        size := size[p := size[p] - n];
        b := p + size[p];
        size := size[b := n];
        st := Split(h, p, n);
      }
      freep := prevp;
    }

    /** malloc of nbytes, where sbrk would return avail: sbrk is asked once if no free block is
        large enough and not at all otherwise; 0 is returned only when it is asked and
        fails.  The block returned has room for nbytes, all of it free before. */
    method Malloc(nbytes: nat, avail: int) returns (r: nat, ghost grew: bool, ghost mid: Arena)
      requires Ok() && nbytes < UINT32 && Units(nbytes) * HEADER < 0x8000_0000
      requires Granted(st, Units(nbytes), avail)
      modifies this
      ensures Ok() && freep != 0
      ensures grew <==> NoFit(old(st), Units(nbytes))
      ensures r == 0 <==> grew && avail == -1
      ensures r == 0 ==> st == old(st)
      ensures r != 0 ==> Allocated(mid, st, r - 1, Units(nbytes))
      ensures r != 0 ==> TakenSomewhere(mid, Units(nbytes), r - 1, freep)
      ensures r != 0 && !grew ==> mid == old(st) && NextFit(mid, Units(nbytes), old(freep), r - 1, freep)
      ensures r != 0 && grew ==> Released(Region(old(st), avail, Amount(Units(nbytes))), mid, avail)
      ensures st.owner.Keys == old(st).owner.Keys + (if grew && avail >= 0 then Span(avail, Amount(Units(nbytes)))
              else {})
    {
      hide Owns, Blocks, Ordered, Inv, LinkAt, Circular, Allocated, Released, Small, Headers, Region, Granted, Units,
           Amount, At, Hope, NoFit, FitsAt, Taken, NextFit;
      var n := Units(nbytes);
      var prevp := freep;
      if prevp == 0 {
        FirstRing(base);
        NothingYet(base, n);
        ptr, size := map[base := base], map[base := 0];
        freep, prevp := base, base;
      }
      ghost var h := st;
      ghost var f, i, d, goal := AtStart(h, ptr, freep, n);
      grew, mid := false, h;
      var p := ptr[prevp];
      while true
        invariant Ok() && freep != 0 && st == mid && n == Units(nbytes)
        invariant At(st, f, i, d, freep, prevp, p) && d < |st.ring| && Hope(st, n, f, d, grew, goal)
        invariant !grew ==> st == h && (freep == old(freep) || NoFit(h, n))
        invariant grew ==> avail >= 0 && st.owner.Keys == h.owner.Keys + Span(avail, Amount(n))
        invariant grew ==> avail >= 0 && NoFit(h, n) && Released(Region(h, avail, Amount(n)), st, avail)
        decreases !grew, |st.ring| - d
      {
        AtHere(st, size, f, i, d, freep, prevp, p);
        if size[p] >= n {
          Fitting(st, n, f, i, d, freep, prevp, p);
          ghost var from := freep;
          var b := Take(prevp, p, n, i);
          if !grew { FoundNextFit(mid, n, f, i, d, from, prevp, p, goal, b, freep); }
          return b + 1, grew, mid;
        }
        HopeMore(st, n, f, i, d, freep, prevp, p, grew, goal);
        if p == freep {
          ghost var got;
          p, got := Morecore(n, avail);
          grew := true;
          if p == 0 { return 0, grew, mid; }
          mid := st;
          GrantedAbove(h, n, avail);
          RegionUnits(h, avail, got);
          f, i, d, goal := AtNew(h, st, ptr, freep, n, avail);
        } else {
          i, d := AtNext(st, ptr, f, i, d, freep, prevp, p);
        }
        prevp := p;
        p := ptr[p];
      }
    }
  }

  lemma LinkFacts(ptr: map<nat, nat>, ring: seq<nat>, i: nat)
    requires Circular(ptr, ring) && i < |ring|
    ensures ring[i] in ptr && ptr[ring[i]] == ring[Next(i, |ring|)]
  {
    assert LinkAt(ptr, ring, i);
  }

  lemma MergeHeaders(size: map<nat, nat>, h: Arena, b: nat, c: nat)
    requires Headers(size, h) && b in h.size && c in h.size
    ensures b in size && c in size && Headers(size[b := size[b] + size[c]], Merge(h, b, c))
  {
  }

  lemma TakeOverHeaders(size: map<nat, nat>, h: Arena, b: nat, i: nat)
    requires Headers(size, h) && i < |h.ring| && b in h.size && h.ring[i] in h.size
    ensures b in size && h.ring[i] in size && Headers(size[b := size[b] + size[h.ring[i]]], TakeOver(h, b, i))
  {
  }

  lemma HeaderFacts(size: map<nat, nat>, h: Arena)
    requires Headers(size, h)
    ensures forall b :: b in h.size ==> b in size && size[b] == h.size[b]
  {
  }

  lemma LinkHeaders(size: map<nat, nat>, h: Arena, b: nat, i: nat)
    requires Headers(size, h) && i <= |h.ring|
    ensures Headers(size, Link(h, b, i))
  {
  }

  // ----- malloc's pieces -----

  /** nunits, header included. */
  function Units(nbytes: nat): (n: nat)
    ensures n > 0 && nbytes <= (n - 1) * 16 < nbytes + 16
  {
    (nbytes + HEADER - 1) / HEADER + 1
  }

  function Amount(nunits: nat): (n: nat) { if nunits < MINUNITS then MINUNITS else nunits }

  /** sbrk fails, or returns memory above all there is and within 32-bit reach. */
  ghost predicate Granted(h: Arena, nunits: nat, avail: int) {
    avail == -1 || (avail >= 0 && Above(h, avail) && avail + Amount(nunits) <= UINT32)
  }

  ghost predicate FitsAt(h: Arena, n: nat, i: nat) {
    i < |h.ring| && h.ring[i] in h.size && h.size[h.ring[i]] >= n
  }

  ghost predicate NoFit(h: Arena, n: nat) {
    forall i :: 0 <= i < |h.ring| ==> !FitsAt(h, n, i)
  }

  /** The index d steps after the one following f. */
  function Cyc(f: nat, d: nat, n: nat): (i: nat)
    requires f < n && d < n
    ensures i < n
  {
    if f + 1 + d < n then f + 1 + d else f + 1 + d - n
  }

  function Dist(f: nat, i: nat, n: nat): (d: nat)
    requires f < n && i < n
    ensures d < n && Cyc(f, d, n) == i
  {
    if f < i then i - f - 1 else i + n - f - 1
  }

  ghost predicate NoFitYet(h: Arena, n: nat, f: nat, d: nat)
    requires f < |h.ring| && d <= |h.ring|
  {
    forall j :: 0 <= j < d ==> !FitsAt(h, n, Cyc(f, j, |h.ring|))
  }

  /** malloc's position: p, after prevp, is d steps past the block after freep. */
  ghost predicate At(h: Arena, f: nat, i: nat, d: nat, freep: nat, prevp: nat, p: nat) {
    && |h.ring| > 0 && f < |h.ring| && h.ring[f] == freep && i < |h.ring| && d < |h.ring|
    && prevp == h.ring[i] && p == h.ring[Next(i, |h.ring|)] && Next(i, |h.ring|) == Cyc(f, d, |h.ring|)
  }

  /** Nothing passed so far fits; or, after morecore, a block that fits is still ahead. */
  ghost predicate Hope(h: Arena, n: nat, f: nat, d: nat, grew: bool, goal: nat) {
    && f < |h.ring| && d <= |h.ring|
    && if grew then d <= goal < |h.ring| && FitsAt(h, n, Cyc(f, goal, |h.ring|)) else NoFitYet(h, n, f, d)
  }

  /** The last n units of the free block at index i are taken, and freep is the block before. */
  ghost predicate Taken(h: Arena, n: nat, i: nat, b: nat, freep: nat) {
    0 < i < |h.ring| && FitsAt(h, n, i) && b == h.ring[i] + h.size[h.ring[i]] - n && freep == h.ring[i - 1]
  }

  ghost predicate TakenSomewhere(h: Arena, n: nat, b: nat, freep: nat) { exists i :: Taken(h, n, i, b, freep) }

  /** ... of the first block that fits, looking from the one after `from` and round to it. */
  ghost predicate NextFit(h: Arena, n: nat, from: nat, b: nat, freep: nat) {
    exists f, d :: NextFitAt(h, n, from, f, d) && Taken(h, n, Cyc(f, d, |h.ring|), b, freep)
  }

  ghost predicate NextFitAt(h: Arena, n: nat, from: nat, f: nat, d: nat)
    ensures NextFitAt(h, n, from, f, d) ==> f < |h.ring| && d < |h.ring|
  {
    f < |h.ring| && d < |h.ring| && h.ring[f] == from && NoFitYet(h, n, f, d)
  }

  lemma FoundNextFit(h: Arena, n: nat, f: nat, i: nat, d: nat, freep: nat, prevp: nat, p: nat, goal: nat, b: nat,
                     next: nat)
    requires At(h, f, i, d, freep, prevp, p) && Hope(h, n, f, d, false, goal) && i + 1 < |h.ring|
    requires Taken(h, n, i + 1, b, next)
    ensures NextFit(h, n, freep, b, next)
  {
    hide FitsAt, Taken, NoFitYet;
    assert NextFitAt(h, n, freep, f, d);
  }

  /** An untouched heap has nothing to give. */
  lemma NothingYet(base: nat, n: nat)
    requires n > 0
    ensures NoFit(Arena([base], map[base := 0], {}, map[]), n)
  {
  }

  lemma AtStart(h: Arena, ptr: map<nat, nat>, freep: nat, n: nat) returns (f: nat, i: nat, d: nat, goal: nat)
    requires Inv(h) && Circular(ptr, h.ring) && freep in h.ring
    ensures freep in ptr && d == 0 < |h.ring| && At(h, f, i, d, freep, freep, ptr[freep])
            && Hope(h, n, f, d, false, goal)
  {
    f :| 0 <= f < |h.ring| && h.ring[f] == freep;
    LinkFacts(ptr, h.ring, f);
    i, d, goal := f, 0, 0;
  }

  lemma AtNext(h: Arena, ptr: map<nat, nat>, f: nat, i: nat, d: nat, freep: nat, prevp: nat, p: nat)
    returns (i': nat, d': nat)
    requires Inv(h) && Circular(ptr, h.ring) && At(h, f, i, d, freep, prevp, p) && p != freep
    ensures p in ptr && At(h, f, i', d', freep, p, ptr[p]) && d' == d + 1 < |h.ring|
  {
    i', d' := Next(i, |h.ring|), d + 1;
    LinkFacts(ptr, h.ring, i');
  }

  lemma AtHere(h: Arena, size: map<nat, nat>, f: nat, i: nat, d: nat, freep: nat, prevp: nat, p: nat)
    requires Inv(h) && Headers(size, h) && At(h, f, i, d, freep, prevp, p)
    ensures p in size && p in h.size && size[p] == h.size[p]
  {
    RingAscends(h);
  }

  /** A block that fits is not base, so prevp is the block before it in memory. */
  lemma Fitting(h: Arena, n: nat, f: nat, i: nat, d: nat, freep: nat, prevp: nat, p: nat)
    requires Inv(h) && At(h, f, i, d, freep, prevp, p) && p in h.size && h.size[p] >= n > 0
    ensures i + 1 < |h.ring| && prevp == h.ring[i] && p == h.ring[i + 1] && !NoFit(h, n)
  {
    assert FitsAt(h, n, Next(i, |h.ring|));
  }

  /** p does not fit: the search goes on, and at freep it is over. */
  lemma HopeMore(h: Arena, n: nat, f: nat, i: nat, d: nat, freep: nat, prevp: nat, p: nat, grew: bool, goal: nat)
    requires Inv(h) && At(h, f, i, d, freep, prevp, p) && p in h.size && h.size[p] < n && Hope(h, n, f, d, grew, goal)
    ensures Hope(h, n, f, d + 1, grew, goal)
    ensures p == freep ==> !grew && NoFit(h, n)
  {
    hide Inv, FitsAt, At, NoFit;
    NotHere(h, n, f, i, d, freep, prevp, p);
    if p == freep && !grew { NoFitAll(h, n, f); }
  }

  /** The block looked at does not fit, and is freep's only at the end of the round. */
  lemma NotHere(h: Arena, n: nat, f: nat, i: nat, d: nat, freep: nat, prevp: nat, p: nat)
    requires Inv(h) && At(h, f, i, d, freep, prevp, p) && p in h.size && h.size[p] < n
    ensures f < |h.ring| && d < |h.ring| && !FitsAt(h, n, Cyc(f, d, |h.ring|))
    ensures p == freep ==> d == |h.ring| - 1
  {
    RingAscends(h);
    hide Inv;
  }

  lemma NoFitAll(h: Arena, n: nat, f: nat)
    requires f < |h.ring| && NoFitYet(h, n, f, |h.ring|)
    ensures NoFit(h, n)
  {
    hide FitsAt;
    forall i | 0 <= i < |h.ring| ensures !FitsAt(h, n, i) { assert Cyc(f, Dist(f, i, |h.ring|), |h.ring|) == i; }
  }

  lemma GrantedAbove(h: Arena, n: nat, avail: int)
    requires Granted(h, n, avail) && avail != -1
    ensures avail >= 0 && Above(h, avail)
  {
  }

  /** After morecore the search starts again with a block ahead that fits. */
  lemma AtNew(h: Arena, g: Arena, ptr: map<nat, nat>, freep: nat, n: nat, a: nat)
    returns (f: nat, i: nat, d: nat, goal: nat)
    requires Inv(h) && Above(h, a) && Released(Region(h, a, Amount(n)), g, a) && Circular(ptr, g.ring)
             && freep in g.ring
    ensures freep in ptr && d == 0 < |g.ring| && At(g, f, i, d, freep, freep, ptr[freep])
            && Hope(g, n, f, d, true, goal)
  {
    hide Owns, Blocks, Ordered, Region, Circular, Released;
    f, i, d, goal := AtStart(g, ptr, freep, n);
    var j := NewBlock(h, g, a, Amount(n));
    goal := Dist(f, j, |g.ring|);
  }

  /** The block that holds the new memory. */
  lemma NewBlock(h: Arena, g: Arena, a: nat, got: nat) returns (j: nat)
    requires Inv(h) && Above(h, a) && got > 0 && Released(Region(h, a, got), g, a)
    ensures FitsAt(g, got, j)
  {
    RegionKeeps(h, a, got);
    forall u: nat | a <= u < a + got ensures IsFree(g, u) { assert Holds(Region(h, a, got), a, u); }
    j := RunInOneBlock(g, a, got);
  }

  lemma RegionUnits(h: Arena, a: nat, n: nat)
    ensures Region(h, a, n).owner.Keys == h.owner.Keys + Span(a, n)
  {
  }

  lemma FirstRing(base: nat)
    ensures Circular(map[base := base], [base]) && Headers(map[base := 0], Arena([base], map[base := 0], {}, map[]))
  {
    assert LinkAt(map[base := base], [base], 0);
  }

  lemma RegionHeaders(size: map<nat, nat>, h: Arena, a: nat, n: nat)
    requires Headers(size, h) && Small(h) && a + n <= UINT32
    ensures Headers(size[a := n], Region(h, a, n)) && Small(Region(h, a, n))
  {
  }

  lemma UnlinkHeaders(size: map<nat, nat>, h: Arena, i: nat)
    requires Headers(size, h) && i < |h.ring|
    ensures Headers(size, Unlink(h, i)) && (Small(h) ==> Small(Unlink(h, i)))
  {
  }

  lemma SplitHeaders(size: map<nat, nat>, h: Arena, b: nat, n: nat)
    requires Headers(size, h) && b in h.size && 0 < n < h.size[b]
    ensures b in size && size[b] == h.size[b] && Headers(size[b := size[b] - n][b + (size[b] - n) := n], Split(h, b, n))
    ensures Small(h) ==> Small(Split(h, b, n))
  {
  }

  lemma TakeWhole(h: Arena, i: nat, n: nat)
    requires Inv(h) && 0 < i < |h.ring| && h.ring[i] in h.size && h.size[h.ring[i]] == n
    ensures Allocated(h, Unlink(h, i), h.ring[i], n) && Unlink(h, i).ring == Without(h.ring, i)
    ensures h.ring[i - 1] in Without(h.ring, i)
  {
    hide Owns, Ordered;
    UnlinkKeeps(h, i);
    assert h.ring[i] in h.ring;
    assert Without(h.ring, i)[i - 1] == h.ring[i - 1];
    WholeIsFree(h, i);
  }

  lemma WholeIsFree(h: Arena, i: nat)
    requires Owns(h) && i < |h.ring| && h.ring[i] in h.size
    ensures forall u: nat :: h.ring[i] <= u < h.ring[i] + h.size[h.ring[i]] <==> Holds(h, h.ring[i], u)
    ensures forall u: nat :: Holds(h, h.ring[i], u) ==> IsFree(h, u)
  {
  }

  lemma TakeTail(h: Arena, i: nat, n: nat)
    requires Inv(h) && 0 < i < |h.ring| && h.ring[i] in h.size && 0 < n < h.size[h.ring[i]]
    ensures var c := h.ring[i] + h.size[h.ring[i]] - n;
            Allocated(h, Split(h, h.ring[i], n), c, n) && Split(h, h.ring[i], n).ring == h.ring
    ensures h.ring[i - 1] in h.ring
  {
    hide Owns, Ordered;
    SplitKeeps(h, i, n);
    assert h.ring[i] in h.ring;
  }
}
