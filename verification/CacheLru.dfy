/** Which buffer a miss recycles (kernel/bio.c): over every run of the cache's steps, the least
    recently used one, by the history of releases and not by the ring. */
module CacheLru {
  import opened Param
  import opened Blocks
  import opened LogDisk
  import opened BufferCache
  import opened C = CacheRuns

  /** A run from binit: any steps of any processes that the cache allows. */
  ghost predicate IsRun(d: Disk, cs: seq<State>, ops: seq<C.Op>)
    ensures IsRun(d, cs, ops) ==> |cs| == |ops| + 1
  {
    && |cs| == |ops| + 1 && cs[0] == Empty(d)
    && forall k :: 0 <= k < |ops| ==> C.Can(cs[k], ops[k]) && cs[k + 1] == C.Next(cs[k], ops[k])
  }

  /** Step m is a brelse of buffer i after which nobody counts on it. */
  ghost predicate LetGo(cs: seq<State>, ops: seq<C.Op>, m: nat, i: nat)
    requires m < |ops| && m + 1 < |cs|
  {
    ops[m].Done? && ops[m].i == i < |cs[m + 1].buf| && cs[m + 1].buf[i].refcnt == 0
  }

  /** The last step before k that let go of buffer i, or -1. */
  ghost function LastUse(cs: seq<State>, ops: seq<C.Op>, k: nat, i: nat): (m: int)
    requires k <= |ops| < |cs|
    ensures -1 <= m < k && (m >= 0 ==> LetGo(cs, ops, m, i))
    ensures forall l: nat :: m < l < k ==> !LetGo(cs, ops, l, i)
  {
    if k == 0 then -1 else if LetGo(cs, ops, k - 1, i) then k - 1 else LastUse(cs, ops, k - 1, i)
  }

  /** Buffer i was last used before buffer j; those never used come first, by number. */
  ghost predicate Older(cs: seq<State>, ops: seq<C.Op>, k: nat, i: nat, j: nat)
    requires k <= |ops| < |cs|
  {
    var x, y := LastUse(cs, ops, k, i), LastUse(cs, ops, k, j);
    x < y || (x == -1 && y == -1 && i < j)
  }

  /** The ring, from its head, is in order of last use, latest first. */
  ghost predicate Sorted(cs: seq<State>, ops: seq<C.Op>, k: nat)
    requires k <= |ops| < |cs|
  {
    && Permutation(cs[k].order)
    && forall a, b :: 0 <= a < b < NBUF ==> Older(cs, ops, k, cs[k].order[b], cs[k].order[a])
  }

  lemma {:induction false} RingSorted(d: Disk, cs: seq<State>, ops: seq<C.Op>, k: nat)
    requires IsRun(d, cs, ops) && k <= |ops|
    ensures Sorted(cs, ops, k)
  {
    hide C.Can, C.Next, Permutation;
    if k == 0 {
      StartSorted(d, cs, ops);
    } else {
      RingSorted(d, cs, ops, k - 1);
      StepOrder(cs[k - 1], ops[k - 1]);
      if LetGo(cs, ops, k - 1, ops[k - 1].i) { FrontSorted(cs, ops, k); } else { SameSorted(cs, ops, k); }
    }
  }

  lemma StartSorted(d: Disk, cs: seq<State>, ops: seq<C.Op>)
    requires IsRun(d, cs, ops)
    ensures Sorted(cs, ops, 0)
  {
    var o := cs[0].order;
    forall i: nat | i < NBUF ensures i in o { assert o[NBUF - 1 - i] == i; }
  }

  /** Only a brelse that takes the count to zero moves a buffer, and it moves it to the front. */
  lemma StepOrder(c: State, op: C.Op)
    requires C.Can(c, op)
    ensures var e := C.Next(c, op);
            && |e.buf| == NBUF && Permutation(e.order) && op.i < NBUF
            && if op.Done? && e.buf[op.i].refcnt == 0 then e.order == ToFront(c.order, Position(c.order, op.i))
               else e.order == c.order
  {
    if op.Done? { ToFrontPermutes(c.order, Position(c.order, op.i)); }
    hide Permutation;
  }

  lemma SameUse(cs: seq<State>, ops: seq<C.Op>, k: nat, i: nat)
    requires 0 < k <= |ops| < |cs| && !LetGo(cs, ops, k - 1, i)
    ensures LastUse(cs, ops, k, i) == LastUse(cs, ops, k - 1, i)
  {
  }

  lemma SameSorted(cs: seq<State>, ops: seq<C.Op>, k: nat)
    requires 0 < k <= |ops| < |cs| && Sorted(cs, ops, k - 1) && cs[k].order == cs[k - 1].order
    requires !LetGo(cs, ops, k - 1, ops[k - 1].i)
    ensures Sorted(cs, ops, k)
  {
    hide LetGo, Permutation, LastUse;
    var o := cs[k].order;
    forall a, b | 0 <= a < b < NBUF ensures Older(cs, ops, k, o[b], o[a]) {
      NotAnother(cs, ops, k - 1, o[a]);
      NotAnother(cs, ops, k - 1, o[b]);
      SameUse(cs, ops, k, o[a]);
      SameUse(cs, ops, k, o[b]);
      assert Older(cs, ops, k - 1, o[b], o[a]);
    }
  }

  lemma NotAnother(cs: seq<State>, ops: seq<C.Op>, m: nat, i: nat)
    requires m < |ops| && m + 1 < |cs|
    ensures LetGo(cs, ops, m, i) ==> i == ops[m].i
  {
  }

  lemma FrontSorted(cs: seq<State>, ops: seq<C.Op>, k: nat)
    requires 0 < k <= |ops| < |cs| && Sorted(cs, ops, k - 1) && ops[k - 1].i < NBUF
    requires LetGo(cs, ops, k - 1, ops[k - 1].i) && Permutation(cs[k].order)
    requires cs[k].order == ToFront(cs[k - 1].order, Position(cs[k - 1].order, ops[k - 1].i))
    ensures Sorted(cs, ops, k)
  {
    hide LetGo, Permutation, LastUse;
    var o, i := cs[k].order, ops[k - 1].i;
    forall a, b | 0 <= a < b < NBUF ensures Older(cs, ops, k, o[b], o[a]) { FrontPair(cs, ops, k, a, b); }
  }

  /** Of two buffers in the new ring, the one in front was used later. */
  lemma FrontPair(cs: seq<State>, ops: seq<C.Op>, k: nat, a: nat, b: nat)
    requires 0 < k <= |ops| < |cs| && Sorted(cs, ops, k - 1) && ops[k - 1].i < NBUF && a < b < NBUF
    requires LetGo(cs, ops, k - 1, ops[k - 1].i) && Permutation(cs[k].order)
    requires cs[k].order == ToFront(cs[k - 1].order, Position(cs[k - 1].order, ops[k - 1].i))
    ensures Older(cs, ops, k, cs[k].order[b], cs[k].order[a])
  {
    hide LetGo, LastUse;
    var p, o, i := cs[k - 1].order, cs[k].order, ops[k - 1].i;
    var at := Position(p, i);
    var x, y := o[a], o[b];
    NotAnother(cs, ops, k - 1, y);
    SameUse(cs, ops, k, y);
    if a == 0 {
      JustUsed(cs, ops, k, i);
    } else {
      NotAnother(cs, ops, k - 1, x);
      SameUse(cs, ops, k, x);
      var a', b' := if a <= at then a - 1 else a, if b <= at then b - 1 else b;
      assert p[a'] == x && p[b'] == y && a' < b';
      assert Older(cs, ops, k - 1, p[b'], p[a']);
    }
  }

  lemma JustUsed(cs: seq<State>, ops: seq<C.Op>, k: nat, i: nat)
    requires 0 < k <= |ops| < |cs| && LetGo(cs, ops, k - 1, i)
    ensures LastUse(cs, ops, k, i) == k - 1
  {
  }

  /** In every run a miss recycles, of the buffers nobody counts on, one that was never used, the
      lowest numbered of those, or, if all have been used, the one let go of longest ago. */
  lemma MissRecyclesOldest(d: Disk, cs: seq<State>, ops: seq<C.Op>, k: nat, j: nat)
    requires IsRun(d, cs, ops) && k < |ops| && ops[k].Get? && ops[k].b !in cs[k].index
    requires j < NBUF <= |cs[k].buf| && cs[k].buf[j].refcnt == 0 && j != ops[k].i
    ensures ops[k].i < NBUF && cs[k].buf[ops[k].i].refcnt == 0 && Older(cs, ops, k, ops[k].i, j)
  {
    hide Permutation, LastUse, Older;
    RingSorted(d, cs, ops, k);
    var o := cs[k].order;
    var a, b := Position(o, j), Position(o, ops[k].i);
    assert a < b;
    assert Older(cs, ops, k, o[b], o[a]);
  }

  /** So a block just let go of stays cached through the next miss while another buffer is free. */
  lemma JustReleasedStays(d: Disk, cs: seq<State>, ops: seq<C.Op>, k: nat, j: nat)
    requires IsRun(d, cs, ops) && 0 < k < |ops| && ops[k].Get? && ops[k].b !in cs[k].index
    requires LetGo(cs, ops, k - 1, ops[k - 1].i) && j < NBUF <= |cs[k].buf| && j != ops[k - 1].i
             && cs[k].buf[j].refcnt == 0
    ensures ops[k].i != ops[k - 1].i
  {
    hide Permutation;
    if ops[k].i == ops[k - 1].i {
      MissRecyclesOldest(d, cs, ops, k, j);
      JustUsed(cs, ops, k, ops[k].i);
      assert false;
    }
  }
}
