/** Finite-set counting used by the pigeonhole arguments. */
module Counting {

  /** The numbers below n. */
  ghost function Below(n: nat): (s: set<nat>)
    ensures |s| == n
    ensures forall i: nat :: i in s <==> i < n
  {
    if n == 0 then {} else Below(n - 1) + {n - 1}
  }

  /** The n numbers from lo on. */
  function Span(lo: nat, n: nat): (r: set<nat>)
    ensures forall i :: i in r <==> lo <= i < lo + n
  {
    if n == 0 then {} else Span(lo, n - 1) + {lo + n - 1}
  }

  lemma {:induction false} SpanSize(lo: nat, n: nat)
    ensures |Span(lo, n)| == n
  {
    if n > 0 { SpanSize(lo, n - 1); }
  }

  lemma {:induction false} SubsetCount<T>(a: set<T>, b: set<T>)
    requires a <= b
    ensures |a| <= |b|
    ensures |a| == |b| ==> a == b
  {
    if a != {} {
      var x :| x in a;
      SubsetCount(a - {x}, b - {x});
    }
  }

  /** Numbers below n: at most n of them, and n of them only when all are there. */
  lemma Pigeonhole(s: set<nat>, n: nat)
    requires forall i :: i in s ==> i < n
    ensures |s| <= n
    ensures |s| == n <==> forall i: nat :: i < n ==> i in s
  {
    SubsetCount(s, Below(n));
    if forall i: nat :: i < n ==> i in s {
      assert s == Below(n);
    }
  }

  /** The same for the n numbers from lo on. */
  lemma SpanCount(s: set<nat>, lo: nat, n: nat)
    requires forall i :: i in s ==> lo <= i < lo + n
    ensures |s| <= n
    ensures |s| == n <==> forall i: nat :: lo <= i < lo + n ==> i in s
  {
    SpanSize(lo, n);
    SubsetCount(s, Span(lo, n));
    if forall i: nat :: lo <= i < lo + n ==> i in s {
      assert s == Span(lo, n);
    }
  }

  lemma UnionCount<T>(a: set<T>, b: set<T>)
    requires a !! b
    ensures |a + b| == |a| + |b|
  {
  }

  /** A subset that misses an element is smaller. */
  lemma LessCount<T>(a: set<T>, b: set<T>, x: T)
    requires a <= b && x in b && x !in a
    ensures |a| < |b|
  {
    SubsetCount(a, b);
  }

  lemma ThreeCount<T>(a: set<T>, b: set<T>, c: set<T>)
    requires a !! b && a !! c && b !! c
    ensures |a + b + c| == |a| + |b| + |c|
  {
    UnionCount(a, b);
    UnionCount(a + b, c);
  }

  ghost function Elements(xs: seq<nat>): (s: set<nat>) { set x | x in xs }

  lemma {:induction false} DistinctCount(xs: seq<nat>)
    requires forall i, j :: 0 <= i < j < |xs| ==> xs[i] != xs[j]
    ensures |Elements(xs)| == |xs|
  {
    if xs != [] {
      var last := |xs| - 1;
      DistinctCount(xs[..last]);
      assert Elements(xs) == Elements(xs[..last]) + {xs[last]};
      UnionCount(Elements(xs[..last]), {xs[last]});
    }
  }
}
