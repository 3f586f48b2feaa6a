/** The heap of user/umalloc.c as a value: free blocks in address order, allocated blocks, and
    the block every unit obtained from sbrk belongs to.  Addresses and sizes are counted
    in units of one header.  Only the order of `base` against the other addresses matters: it
    need not be a whole number of units away from them. */
module Arena {
  import opened Counting

  /** `ring` lists the free blocks from `base` on; `size` has every block's header size;
      `owner` gives the block of every unit obtained from sbrk. */
  datatype Arena = Arena(ring: seq<nat>, size: map<nat, nat>, used: set<nat>, owner: map<nat, nat>)

  /** The free list is in address order; free blocks neither overlap nor touch. */
  ghost predicate Ordered(h: Arena) {
    && |h.ring| > 0 && (forall i :: 0 <= i < |h.ring| ==> h.ring[i] in h.size) && h.size[h.ring[0]] == 0
    && (forall i, j :: 0 <= i < j < |h.ring| ==> h.ring[i] + h.size[h.ring[i]] < h.ring[j])
  }

  /** A block is free or allocated, not both; all are above `base`. */
  ghost predicate Blocks(h: Arena) {
    && |h.ring| > 0
    && (forall b :: b in h.size <==> b in h.ring || b in h.used)
    && (forall b :: b in h.used ==> b !in h.ring)
    && (forall b :: b in h.size && b != h.ring[0] ==> h.size[b] > 0 && b > h.ring[0])
  }

  predicate Holds(h: Arena, b: nat, u: nat) { b in h.size && b <= u < b + h.size[b] }

  /** Every unit is in its owner and in no other block; blocks hold nothing else. */
  ghost predicate Owns(h: Arena) {
    && (forall u :: u in h.owner ==> Holds(h, h.owner[u], u))
    && (forall b, u :: Holds(h, b, u) ==> u in h.owner && h.owner[u] == b)
  }

  ghost predicate Inv(h: Arena)
    ensures Inv(h) ==> Ordered(h) && Blocks(h) && Owns(h)
  {
    Ordered(h) && Blocks(h) && Owns(h)
  }

  ghost predicate IsFree(h: Arena, u: nat) { u in h.owner && h.owner[u] in h.ring }

  function Next(i: nat, n: nat): (j: nat)
    requires i < n
    ensures j < n
  {
    if i + 1 < n then i + 1 else 0
  }

  function Without(s: seq<nat>, i: nat): (r: seq<nat>)
    requires i < |s|
    ensures |r| == |s| - 1
    ensures forall j :: 0 <= j < |r| ==> r[j] == if j < i then s[j] else s[j + 1]
  {
    s[..i] + s[i + 1..]
  }

  function With(s: seq<nat>, i: nat, b: nat): (r: seq<nat>)
    requires i <= |s|
    ensures |r| == |s| + 1
    ensures forall j :: 0 <= j < |r| ==> r[j] == if j < i then s[j] else if j == i then b else s[j - 1]
  {
    s[..i] + [b] + s[i..]
  }

  lemma WithoutHas(s: seq<nat>, i: nat, b: nat)
    requires i < |s| && forall j, k :: 0 <= j < k < |s| ==> s[j] != s[k]
    ensures b in Without(s, i) <==> b in s && b != s[i]
  {
    if b in s && b != s[i] {
      var j :| 0 <= j < |s| && s[j] == b;
      assert Without(s, i)[if j < i then j else j - 1] == b;
    }
  }

  lemma WithHas(s: seq<nat>, i: nat, b: nat, c: nat)
    requires i <= |s|
    ensures c in With(s, i, b) <==> c in s || c == b
  {
    assert With(s, i, b)[i] == b;
    if c in s {
      var j :| 0 <= j < |s| && s[j] == c;
      assert With(s, i, b)[if j < i then j else j + 1] == c;
    }
  }

  lemma RingDistinct(h: Arena)
    requires Ordered(h)
    ensures forall j, k :: 0 <= j < k < |h.ring| ==> h.ring[j] < h.ring[k]
  {
  }

  // ----- a free block is unlinked whole, or linked -----

  function Unlink(h: Arena, i: nat): (g: Arena)
    requires i < |h.ring|
  {
    h.(ring := Without(h.ring, i), used := h.used + {h.ring[i]})
  }

  function Link(h: Arena, b: nat, i: nat): (g: Arena)
    requires i <= |h.ring|
  {
    h.(ring := With(h.ring, i, b), used := h.used - {b})
  }

  /** Sizes and owners unchanged, so are the holdings. */
  lemma SameOwns(h: Arena, g: Arena)
    requires Owns(h) && g.size == h.size && g.owner == h.owner
    ensures Owns(g) && forall b, u: nat :: Holds(g, b, u) <==> Holds(h, b, u)
  {
    assert forall b, u: nat :: Holds(g, b, u) <==> Holds(h, b, u);
    hide Holds;
  }

  lemma UnlinkOrdered(h: Arena, i: nat)
    requires Ordered(h) && 0 < i < |h.ring|
    ensures Ordered(Unlink(h, i))
  {
    var g := Unlink(h, i);
    assert g.ring[0] == h.ring[0];
    forall j | 0 <= j < |g.ring| ensures g.ring[j] in g.size { }
    forall j, k | 0 <= j < k < |g.ring| ensures g.ring[j] + g.size[g.ring[j]] < g.ring[k] { }
  }

  lemma UnlinkBlocks(h: Arena, i: nat)
    requires Ordered(h) && Blocks(h) && 0 < i < |h.ring|
    ensures Blocks(Unlink(h, i)) && forall b :: b in Unlink(h, i).ring <==> b in h.ring && b != h.ring[i]
  {
    RingDistinct(h);
    forall b ensures b in Without(h.ring, i) <==> b in h.ring && b != h.ring[i] { WithoutHas(h.ring, i, b); }
    assert Without(h.ring, i)[0] == h.ring[0];
    hide Ordered, Without;
  }

  lemma UnlinkKeeps(h: Arena, i: nat)
    requires Inv(h) && 0 < i < |h.ring|
    ensures Inv(Unlink(h, i)) && h.ring[i] in Unlink(h, i).used
    ensures forall u: nat :: IsFree(Unlink(h, i), u) <==> IsFree(h, u) && !Holds(h, h.ring[i], u)
  {
    hide Ordered, Blocks, Holds;
    UnlinkOrdered(h, i);
    UnlinkBlocks(h, i);
    SameOwns(h, Unlink(h, i));
  }

  lemma LinkBlocks(h: Arena, b: nat, i: nat)
    requires Blocks(h) && b in h.used && 0 < i <= |h.ring|
    ensures Blocks(Link(h, b, i)) && forall c :: c in Link(h, b, i).ring <==> c in h.ring || c == b
  {
    forall c ensures c in With(h.ring, i, b) <==> c in h.ring || c == b { WithHas(h.ring, i, b, c); }
    assert With(h.ring, i, b)[0] == h.ring[0];
    hide With;
  }

  lemma LinkKeeps(h: Arena, b: nat, i: nat)
    requires Inv(h) && b in h.used && 0 < i <= |h.ring| && h.ring[i - 1] in h.size && b in h.size
    requires h.ring[i - 1] + h.size[h.ring[i - 1]] < b
    requires i < |h.ring| ==> b + h.size[b] < h.ring[i]
    ensures Inv(Link(h, b, i))
    ensures forall u: nat :: IsFree(Link(h, b, i), u) <==> IsFree(h, u) || Holds(h, b, u)
  {
    hide Ordered, Blocks, Holds;
    LinkOrdered(h, b, i);
    LinkBlocks(h, b, i);
    SameOwns(h, Link(h, b, i));
  }

  lemma LinkOrdered(h: Arena, b: nat, i: nat)
    requires Ordered(h) && b in h.size && 0 < i <= |h.ring|
    requires h.ring[i - 1] + h.size[h.ring[i - 1]] < b
    requires i < |h.ring| ==> b + h.size[b] < h.ring[i]
    ensures Ordered(Link(h, b, i))
  {
    var g := Link(h, b, i);
    forall j, k | 0 <= j < k < |g.ring| ensures g.ring[j] + g.size[g.ring[j]] < g.ring[k] {
      if k == i && j < i - 1 { assert h.ring[j] + h.size[h.ring[j]] < h.ring[i - 1]; }
      if j == i && k > i + 1 { assert h.ring[i] + h.size[h.ring[i]] < h.ring[k - 1]; }
    }
  }

  // ----- two touching blocks become one, and one becomes two -----

  /** Block c, right after block b, is merged into b. */
  function Merge(h: Arena, b: nat, c: nat): (g: Arena)
    requires b in h.size && c in h.size
  {
    h.(size := (h.size - {c})[b := h.size[b] + h.size[c]], used := h.used - {c},
       owner := map u | u in h.owner :: if h.owner[u] == c then b else h.owner[u])
  }

  /** The last n units of block b become a block of their own, allocated. */
  function Split(h: Arena, b: nat, n: nat): (g: Arena)
    requires b in h.size && n <= h.size[b]
  {
    var c := b + h.size[b] - n;
    h.(size := h.size[b := h.size[b] - n][c := n], used := h.used + {c},
       owner := map u | u in h.owner :: if h.owner[u] == b && u >= c then c else h.owner[u])
  }

  lemma MergeOwns(h: Arena, b: nat, c: nat)
    requires Owns(h) && b in h.size && c in h.size && b + h.size[b] == c && b != c
    ensures Owns(Merge(h, b, c))
    ensures forall x, u: nat :: Holds(Merge(h, b, c), x, u) <==>
                           if x == b then Holds(h, b, u) || Holds(h, c, u) else x != c && Holds(h, x, u)
  {
    var g := Merge(h, b, c);
    assert forall x, u: nat :: Holds(g, x, u) <==>
                          if x == b then Holds(h, b, u) || Holds(h, c, u) else x != c && Holds(h, x, u);
    hide Holds;
  }

  /** An allocated block right after a free one joins it. */
  lemma MergeLeftKeeps(h: Arena, i: nat, c: nat)
    requires Inv(h) && 0 < i < |h.ring| && c in h.used && h.ring[i] + h.size[h.ring[i]] == c
    requires i + 1 < |h.ring| ==> c + h.size[c] < h.ring[i + 1]
    ensures Inv(Merge(h, h.ring[i], c))
    ensures forall u: nat :: IsFree(Merge(h, h.ring[i], c), u) <==> IsFree(h, u) || Holds(h, c, u)
  {
    RingDistinct(h);
    var b := h.ring[i];
    var g := Merge(h, b, c);
    MergeOwns(h, b, c);
    assert Blocks(g);
    MergeLeftOrdered(h, i, c);
  }

  lemma MergeLeftOrdered(h: Arena, i: nat, c: nat)
    requires Ordered(h) && 0 < i < |h.ring| && c in h.size && c !in h.ring && h.ring[i] + h.size[h.ring[i]] == c
    requires i + 1 < |h.ring| ==> c + h.size[c] < h.ring[i + 1]
    ensures Ordered(Merge(h, h.ring[i], c))
  {
    RingDistinct(h);
    var g := Merge(h, h.ring[i], c);
    forall j, k | 0 <= j < k < |g.ring| ensures g.ring[j] + g.size[g.ring[j]] < g.ring[k] {
      if j == i && k > i + 1 { assert h.ring[i + 1] < h.ring[k]; }
    }
  }

  /** A free block right after an allocated one joins it. */
  lemma MergeRightKeeps(h: Arena, b: nat, i: nat)
    requires Inv(h) && 0 < i < |h.ring| && b in h.used && b + h.size[b] == h.ring[i]
    ensures var g := Merge(Unlink(h, i), b, h.ring[i]);
            && Inv(g) && b in g.used && g.size[b] == h.size[b] + h.size[h.ring[i]] && g.ring == Without(h.ring, i)
            && (forall u: nat :: IsFree(g, u) || Holds(g, b, u) <==> IsFree(h, u) || Holds(h, b, u))
  {
    var t, c := Unlink(h, i), h.ring[i];
    UnlinkKeeps(h, i);
    var g := Merge(t, b, c);
    MergeOwns(t, b, c);
    MergeUsedKeeps(t, b, c);
  }

  lemma MergeUsedKeeps(h: Arena, b: nat, c: nat)
    requires Inv(h) && b in h.used && c in h.used && b + h.size[b] == c
    ensures Inv(Merge(h, b, c))
    ensures forall u: nat :: IsFree(Merge(h, b, c), u) <==> IsFree(h, u)
  {
    var g := Merge(h, b, c);
    MergeOwns(h, b, c);
    assert Blocks(g);
    assert Ordered(g);
  }

  /** The tail of a free block is cut off. */
  lemma SplitKeeps(h: Arena, i: nat, n: nat)
    requires Inv(h) && i < |h.ring| && h.ring[i] in h.size && 0 < n < h.size[h.ring[i]]
    ensures var b := h.ring[i];
            var g, c := Split(h, b, n), b + h.size[b] - n;
            && Inv(g) && c in g.used && c !in h.size && g.size[c] == n && g.ring == h.ring
            && (forall u: nat :: IsFree(g, u) <==> IsFree(h, u) && !(c <= u < c + n))
            && (forall u: nat :: c <= u < c + n ==> IsFree(h, u))
  {
    hide Ordered, Blocks;
    var b := h.ring[i];
    var c := b + h.size[b] - n;
    FreshTail(h, b, n);
    SplitOwns(h, b, n);
    SplitBlocks(h, b, n);
    SplitOrdered(h, b, n);
    forall u: nat ensures c <= u < c + n <==> u in h.owner && h.owner[u] == b && u >= c
        { assert c <= u < c + n ==> Holds(h, b, u); }
  }

  lemma FreshTail(h: Arena, b: nat, n: nat)
    requires Blocks(h) && Owns(h) && b in h.ring && b in h.size && 0 < n < h.size[b]
    ensures b + h.size[b] - n !in h.size && b + h.size[b] - n !in h.ring
  {
    var c := b + h.size[b] - n;
    assert Holds(h, b, c);
    if c in h.size && h.size[c] > 0 { assert Holds(h, c, c); }
  }

  lemma SplitBlocks(h: Arena, b: nat, n: nat)
    requires Blocks(h) && b in h.ring && b in h.size && 0 < n < h.size[b] && b + h.size[b] - n !in h.size
    ensures Blocks(Split(h, b, n))
  {
  }

  lemma SplitOrdered(h: Arena, b: nat, n: nat)
    requires Ordered(h) && b in h.ring && 0 < n < h.size[b] && b + h.size[b] - n !in h.size
    ensures Ordered(Split(h, b, n))
  {
    var g := Split(h, b, n);
    forall j | 0 <= j < |g.ring| ensures g.ring[j] in g.size && g.size[g.ring[j]] <= h.size[h.ring[j]] { }
  }

  lemma SplitOwns(h: Arena, b: nat, n: nat)
    requires Owns(h) && b in h.size && 0 < n < h.size[b] && b + h.size[b] - n !in h.size
    ensures Owns(Split(h, b, n))
  {
    var g, c := Split(h, b, n), b + h.size[b] - n;
    assert forall x, u: nat :: Holds(g, x, u) <==>
                          if x == b then Holds(h, b, u) && u < c else if x == c then Holds(h, b, u) && u >= c
                              else Holds(h, x, u);
    hide Holds;
  }

  // ----- memory from sbrk -----

  /** A new region, as one allocated block. */
  function Region(h: Arena, a: nat, n: nat): (g: Arena) {
    h.(size := h.size[a := n], used := h.used + {a},
       owner := map u | u in h.owner.Keys + Span(a, n) :: if a <= u < a + n then a else h.owner[u])
  }

  /** Memory above everything there is. */
  ghost predicate Above(h: Arena, a: nat) {
    && |h.ring| > 0 && h.ring[0] < a
    && (forall b :: b in h.size ==> b + h.size[b] <= a)
  }

  lemma RegionKeeps(h: Arena, a: nat, n: nat)
    requires Inv(h) && Above(h, a) && n > 0
    ensures var g := Region(h, a, n);
            && Inv(g) && a in g.used && g.size[a] == n && g.ring == h.ring
            && g.owner.Keys == h.owner.Keys + Span(a, n) && h.owner.Keys !! Span(a, n)
            && (forall u: nat :: IsFree(g, u) <==> IsFree(h, u))
  {
    hide Ordered, Blocks, Owns;
    RegionBlocks(h, a, n);
    RegionOrdered(h, a, n);
    RegionOwns(h, a, n);
  }

  lemma RegionBlocks(h: Arena, a: nat, n: nat)
    requires Blocks(h) && Above(h, a) && n > 0
    ensures Blocks(Region(h, a, n)) && a !in h.size
  {
  }

  lemma RegionOrdered(h: Arena, a: nat, n: nat)
    requires Ordered(h) && Above(h, a)
    ensures Ordered(Region(h, a, n))
  {
  }

  lemma RegionOwns(h: Arena, a: nat, n: nat)
    requires Owns(h) && Above(h, a) && n > 0 && a !in h.size
    ensures Owns(Region(h, a, n)) && h.owner.Keys !! Span(a, n)
  {
    var g := Region(h, a, n);
    assert forall u :: u in h.owner ==> u < a;
    assert forall x, u: nat :: Holds(g, x, u) <==> if x == a then a <= u < a + n else Holds(h, x, u);
    hide Above;
  }

  // ----- what malloc and free do, without the ring -----

  /** Block b is given back: its units are free, every other allocated block is untouched. */
  ghost predicate Released(h: Arena, g: Arena, b: nat)
    ensures Released(h, g, b) ==> Inv(h) && Inv(g) && g.used == h.used - {b} && g.ring[0] == h.ring[0]
    ensures Released(h, g, b) ==> g.owner.Keys == h.owner.Keys
  {
    && Inv(h) && Inv(g) && b in h.used && g.used == h.used - {b} && g.ring[0] == h.ring[0]
    && g.owner.Keys == h.owner.Keys
    && (forall u: nat :: IsFree(g, u) <==> IsFree(h, u) || Holds(h, b, u))
    && (forall c :: c in g.used ==> g.size[c] == h.size[c])
  }

  /** Block b, of n units that were free, is handed out. */
  ghost predicate Allocated(h: Arena, g: Arena, b: nat, n: nat)
    ensures Allocated(h, g, b, n) ==> Inv(h) && Inv(g) && g.used == h.used + {b} && g.ring[0] == h.ring[0]
    ensures Allocated(h, g, b, n) ==> g.owner.Keys == h.owner.Keys
  {
    && Inv(h) && Inv(g) && b !in h.used && g.used == h.used + {b} && g.ring[0] == h.ring[0] && g.size[b] == n
    && g.owner.Keys == h.owner.Keys
    && (forall u: nat :: b <= u < b + n ==> IsFree(h, u))
    && (forall u: nat :: IsFree(g, u) <==> IsFree(h, u) && !(b <= u < b + n))
    && (forall c :: c in h.used ==> g.size[c] == h.size[c])
  }

  /** The free units determine the free list: a block of one is a block of the other. */
  lemma SameBlock(h: Arena, g: Arena, b: nat)
    requires Inv(h) && Inv(g) && g.ring[0] == h.ring[0] && forall u: nat :: IsFree(g, u) <==> IsFree(h, u)
    requires b in h.ring && b != h.ring[0]
    ensures b in g.ring && g.size[b] <= h.size[b]
  {
    assert Holds(h, b, b) && IsFree(h, b);
    var c := g.owner[b];
    assert Holds(g, c, b);
    if c < b {
      assert Holds(g, c, b - 1) && IsFree(g, b - 1);
      NoTouch(h, b, b - 1);
      assert false;
    }
    var e := b + h.size[b];
    if g.size[b] > h.size[b] {
      assert Holds(g, b, e) && IsFree(g, e);
      NoTouch(h, b, e);
      assert false;
    }
  }

  /** The units right before and after a free block are not free. */
  lemma NoTouch(h: Arena, b: nat, u: nat)
    requires Inv(h) && b in h.ring && b != h.ring[0] && (u + 1 == b || u == b + h.size[b])
    ensures !IsFree(h, u)
  {
    var i :| 0 <= i < |h.ring| && h.ring[i] == b;
    forall j | 0 <= j < |h.ring| ensures !Holds(h, h.ring[j], u) { }
    assert u in h.owner ==> Holds(h, h.owner[u], u);
    hide Ordered, Blocks, Holds;
  }

  ghost predicate Ascending(s: seq<nat>) { forall i, j :: 0 <= i < j < |s| ==> s[i] < s[j] }

  lemma LastSame(s: seq<nat>, t: seq<nat>)
    requires Ascending(s) && Ascending(t) && |s| > 0 && |t| > 0 && forall b :: b in s <==> b in t
    ensures s[|s| - 1] == t[|t| - 1]
  {
    assert s[|s| - 1] in t && t[|t| - 1] in s;
  }

  lemma LessLast(s: seq<nat>, b: nat)
    requires Ascending(s) && |s| > 0
    ensures Ascending(s[..|s| - 1]) && (b in s[..|s| - 1] <==> b in s && b != s[|s| - 1])
  {
    assert s == s[..|s| - 1] + [s[|s| - 1]];
  }

  lemma {:induction false} SortedSame(s: seq<nat>, t: seq<nat>)
    requires Ascending(s) && Ascending(t) && forall b :: b in s <==> b in t
    ensures s == t
    decreases |s|
  {
    hide Ascending;
    assert (|s| > 0 ==> s[0] in t) && (|t| > 0 ==> t[0] in s);
    if |s| > 0 && |t| > 0 {
      var s', t' := s[..|s| - 1], t[..|t| - 1];
      LastSame(s, t);
      LessLast(s, 0);
      LessLast(t, 0);
      forall b ensures b in s' <==> b in t' { LessLast(s, b); LessLast(t, b); }
      SortedSame(s', t');
      assert s == s' + [s[|s| - 1]] && t == t' + [t[|t| - 1]];
    }
  }

  lemma FreeListCanonical(h: Arena, g: Arena)
    requires Inv(h) && Inv(g) && g.ring[0] == h.ring[0] && forall u: nat :: IsFree(g, u) <==> IsFree(h, u)
    ensures g.ring == h.ring && forall b :: b in h.ring ==> b in h.size && b in g.size && g.size[b] == h.size[b]
  {
    forall b ensures b in h.ring <==> b in g.ring {
      if b in h.ring && b != h.ring[0] { SameBlock(h, g, b); }
      if b in g.ring && b != g.ring[0] { SameBlock(g, h, b); }
    }
    RingDistinct(h);
    RingDistinct(g);
    SortedSame(h.ring, g.ring);
    forall b | b in h.ring ensures b in h.size && b in g.size && g.size[b] == h.size[b] {
      if b != h.ring[0] { SameBlock(h, g, b); SameBlock(g, h, b); }
    }
  }

  /** Freeing what malloc returned gives back the very heap there was before. */
  lemma FreeUndoesMalloc(h: Arena, g: Arena, k: Arena, b: nat, n: nat)
    requires Allocated(h, g, b, n) && Released(g, k, b)
    ensures k == h
  {
    hide Ordered;
    assert k.used == h.used;
    assert forall u: nat :: IsFree(k, u) <==> IsFree(h, u);
    FreeListCanonical(h, k);
    assert k.size == h.size;
    SameSizesSameOwners(h, k);
  }

  lemma SameSizesSameOwners(h: Arena, g: Arena)
    requires Owns(h) && Owns(g) && g.size == h.size
    ensures g.owner == h.owner
  {
    forall u | u in h.owner ensures u in g.owner && g.owner[u] == h.owner[u] { assert Holds(g, h.owner[u], u); }
    forall u | u in g.owner ensures u in h.owner { assert Holds(h, g.owner[u], u); }
  }

  /** The heap depends only on what was obtained and what is allocated, not on the order of
      the calls that led there. */
  lemma HistoryDoesNotMatter(h: Arena, g: Arena)
    requires Inv(h) && Inv(g) && g.ring[0] == h.ring[0] && g.owner.Keys == h.owner.Keys && g.used == h.used
    requires forall b :: b in h.used ==> g.size[b] == h.size[b]
    ensures g == h
  {
    hide Ordered;
    forall u: nat ensures IsFree(g, u) <==> IsFree(h, u) {
      if u in h.owner {
        NotFreeIsUsed(h, u);
        NotFreeIsUsed(g, u);
        assert h.owner[u] in h.used ==> Holds(g, h.owner[u], u);
        assert g.owner[u] in g.used ==> Holds(h, g.owner[u], u);
      }
    }
    FreeListCanonical(h, g);
    assert g.size == h.size;
    SameSizesSameOwners(h, g);
  }

  lemma NotFreeIsUsed(h: Arena, u: nat)
    requires Inv(h) && u in h.owner
    ensures Holds(h, h.owner[u], u) && (IsFree(h, u) <==> h.owner[u] !in h.used)
  {
    hide Ordered;
  }

  /** A run of free units lies in one free block. */
  lemma {:induction false} RunInOneBlock(h: Arena, a: nat, n: nat) returns (i: nat)
    requires Inv(h) && n > 0 && forall u: nat :: a <= u < a + n ==> IsFree(h, u)
    ensures i < |h.ring| && h.ring[i] in h.size && h.ring[i] <= a && a + n <= h.ring[i] + h.size[h.ring[i]]
  {
    if n == 1 {
      assert IsFree(h, a);
      i :| 0 <= i < |h.ring| && h.ring[i] == h.owner[a];
      assert Holds(h, h.ring[i], a);
    } else {
      i := RunInOneBlock(h, a, n - 1);
      if a + n > h.ring[i] + h.size[h.ring[i]] {
        assert IsFree(h, a + n - 1);
        NoTouch(h, h.ring[i], a + n - 1);
        assert false;
      }
    }
  }
}
