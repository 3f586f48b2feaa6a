/** How many pages mapping takes (kernel/vm.c: walk, mappages, uvmalloc, uvmcopy): the tables
    missing on the way to the virtual pages, and the pages themselves. */
module PageCount {
  import opened PageTable
  import opened PageOps
  import opened PageWalk
  import opened Counting

  // ----- counting free pages -----

  lemma {:induction false} ImageCount(f: map<Spot, nat>, keys: set<Spot>)
    requires keys <= f.Keys && forall s, t :: s in keys && t in keys && f[s] == f[t] ==> s == t
    ensures |set s | s in keys :: f[s]| == |keys|
  {
    if keys != {} {
      var s :| s in keys;
      ImageCount(f, keys - {s});
      assert (set t | t in keys :: f[t]) == (set t | t in keys - {s} :: f[t]) + {f[s]};
    }
  }

  /** The pages that are not tables or in other use are free. */
  lemma FreeCount(m: Vm, all: set<nat>)
    requires Tree(m) && Conserved(m, all)
    ensures |m.free| + |m.node| + |m.pages| == |all|
  {
    hide Placed, Linked, FreeSet;
    TablesCount(m);
    FreeSize(m);
    ThreeCount(FreeSet(m), m.tables.Keys, m.pages.Keys);
    assert |m.pages| == |m.pages.Keys|;
  }

  lemma FreeSize(m: Vm)
    requires forall i, j :: 0 <= i < j < |m.free| ==> m.free[i] != m.free[j]
    ensures |FreeSet(m)| == |m.free|
  {
    DistinctCount(m.free);
    assert FreeSet(m) == Elements(m.free);
  }

  lemma TablesCount(m: Vm)
    requires Placed(m)
    ensures |m.tables.Keys| == |m.node|
  {
    ImageCount(m.node, m.node.Keys);
    var image := set s | s in m.node.Keys :: m.node[s];
    forall p | p in m.tables ensures p in image { assert m.node[m.spot[p]] == p; }
    assert image == m.tables.Keys && |m.node| == |m.node.Keys|;
  }

  // ----- the tables on the way -----

  /** The two tables below the root on the way to virtual page v. */
  ghost function Spots(root: nat, v: nat): (ss: set<Spot>) { {Path(root, v, 1), Path(root, v, 0)} }

  /** Those for the virtual pages lo to hi. */
  ghost function RangeSpots(root: nat, lo: nat, hi: nat): (ss: set<Spot>)
    decreases hi
  {
    if hi <= lo then {} else RangeSpots(root, lo, hi - 1) + Spots(root, hi - 1)
  }

  /** Those of them that are not there. */
  ghost function NewTables(m: Vm, root: nat, lo: nat, hi: nat): (ss: set<Spot>) {
    RangeSpots(root, lo, hi) - m.node.Keys
  }

  ghost function Lacking(m: Vm, root: nat, v: nat): (ss: set<Spot>) { Spots(root, v) - m.node.Keys }

  ghost function AddedSpots(m: Vm, t: Vm): (ss: set<Spot>) { t.node.Keys - m.node.Keys }

  /** What mapping one page, and what giving pages to lo..hi, takes from the free list. */
  ghost function TablesFor(m: Vm, root: nat, v: nat): (n: nat) { |Lacking(m, root, v)| }

  ghost function PagesFor(m: Vm, root: nat, lo: nat, hi: nat): (n: int) { hi - lo + |NewTables(m, root, lo, hi)| }

  /** From m to t the tables on the way to v may have been added, and nothing else. */
  ghost predicate Toward(m: Vm, t: Vm, root: nat, v: nat) {
    m.node.Keys <= t.node.Keys <= m.node.Keys + Spots(root, v)
  }

  lemma TowardStart(m: Vm, root: nat, v: nat)
    ensures Toward(m, m, root, v)
  {
  }

  lemma SameTablesFor(m: Vm, t: Vm, root: nat, v: nat)
    requires t.node == m.node
    ensures TablesFor(t, root, v) == TablesFor(m, root, v)
  {
  }

  lemma TowardStep(m: Vm, t: Vm, u: Vm, root: nat, v: nat, level: nat, p: nat)
    requires Toward(m, t, root, v) && level < 2 && u.node == t.node[Path(root, v, level) := p]
    ensures Toward(m, u, root, v)
  {
  }

  lemma NodeCount(m: Vm, t: Vm)
    requires m.node.Keys <= t.node.Keys
    ensures |t.node| == |m.node| + |AddedSpots(m, t)|
  {
    assert t.node.Keys == m.node.Keys + AddedSpots(m, t);
    UnionCount(m.node.Keys, AddedSpots(m, t));
    assert |t.node| == |t.node.Keys| && |m.node| == |m.node.Keys|;
  }

  /** A walk that reached the leaf table added what was missing. */
  lemma WalkFound(m: Vm, t: Vm, root: nat, v: nat, all: set<nat>)
    requires Tree(m) && Conserved(m, all) && Tree(t) && Conserved(t, all) && t.pages == m.pages && v < MAXVPN
    requires Toward(m, t, root, v) && Path(root, v, 0) in t.node
    ensures t.node.Keys == m.node.Keys + Spots(root, v)
    ensures TablesFor(m, root, v) <= |m.free|
  {
    hide Tree, Placed, Linked, Conserved, Path, Px, AddedSpots, Lacking, Spots;
    Above(t, root, v);
    Counts(m, t, all);
    FoundSets(m, t, root, v);
  }

  lemma FoundSets(m: Vm, t: Vm, root: nat, v: nat)
    requires Toward(m, t, root, v) && Path(root, v, 0) in t.node && Path(root, v, 1) in t.node
    ensures t.node.Keys == m.node.Keys + Spots(root, v) && AddedSpots(m, t) == Lacking(m, root, v)
  {
    hide Path;
  }

  lemma Above(m: Vm, root: nat, v: nat)
    requires Tree(m) && v < MAXVPN && Path(root, v, 0) in m.node
    ensures Path(root, v, 1) in m.node
  {
    PathDown(root, v);
    ParentOf(m, Path(root, v, 1), Px(1, v));
  }

  lemma Counts(m: Vm, t: Vm, all: set<nat>)
    requires Tree(m) && Conserved(m, all) && Tree(t) && Conserved(t, all) && m.node.Keys <= t.node.Keys
    ensures |t.free| + |AddedSpots(m, t)| + |t.pages| == |m.free| + |m.pages|
  {
    hide Tree, Placed, Linked, Conserved, AddedSpots;
    FreeCount(m, all);
    FreeCount(t, all);
    NodeCount(m, t);
  }

  /** A walk that ran out of memory could not add them all. */
  lemma WalkStuck(m: Vm, t: Vm, root: nat, v: nat, level: nat, all: set<nat>)
    requires Tree(m) && Conserved(m, all) && Tree(t) && Conserved(t, all) && t.pages == m.pages
    requires Toward(m, t, root, v) && level < 2 && Path(root, v, level) !in t.node && t.free == []
    ensures TablesFor(m, root, v) > |m.free|
  {
    hide Tree, Placed, Linked, Conserved, Path, AddedSpots, Lacking;
    Counts(m, t, all);
    StuckSets(m, t, root, v, level);
    LessCount(AddedSpots(m, t), Lacking(m, root, v), Path(root, v, level));
  }

  lemma StuckSets(m: Vm, t: Vm, root: nat, v: nat, level: nat)
    requires Toward(m, t, root, v) && level < 2 && Path(root, v, level) !in t.node
    ensures AddedSpots(m, t) <= Lacking(m, root, v)
    ensures Path(root, v, level) in Lacking(m, root, v) && Path(root, v, level) !in AddedSpots(m, t)
  {
    hide Path;
    assert Path(root, v, level) in Spots(root, v);
  }

  // ----- ranges -----

  lemma {:induction false} RangeGrows(root: nat, lo: nat, a: nat, hi: nat)
    requires a <= hi
    ensures RangeSpots(root, lo, a) <= RangeSpots(root, lo, hi)
    decreases hi
  {
    if a < hi { RangeGrows(root, lo, a, hi - 1); }
  }

  /** t has the tables and the number of pages that giving pages to lo..a takes. */
  ghost predicate Fed(m: Vm, t: Vm, root: nat, lo: nat, a: nat) {
    t.node.Keys == m.node.Keys + RangeSpots(root, lo, a) && |t.pages| == |m.pages| + a - lo
  }

  lemma FedNone(m: Vm, root: nat, lo: nat)
    ensures Fed(m, m, root, lo, lo)
  {
  }

  lemma FedMore(m: Vm, t: Vm, u: Vm, root: nat, lo: nat, a: nat, p: nat)
    requires Fed(m, t, root, lo, a) && lo <= a && p !in t.pages
    requires u.node.Keys == t.node.Keys + Spots(root, a) && u.pages.Keys == t.pages.Keys + {p}
    ensures Fed(m, u, root, lo, a + 1)
  {
    hide Spots;
    OneMore(t.pages, u.pages, p);
  }

  lemma OneMore(x: map<nat, Page>, y: map<nat, Page>, p: nat)
    requires p !in x && y.Keys == x.Keys + {p}
    ensures |y| == |x| + 1
  {
    assert |y| == |y.Keys| && |x| == |x.Keys|;
  }

  /** There was enough. */
  lemma FedAll(m: Vm, t: Vm, root: nat, lo: nat, hi: nat, all: set<nat>)
    requires Tree(m) && Conserved(m, all) && Tree(t) && Conserved(t, all) && Fed(m, t, root, lo, hi)
    ensures PagesFor(m, root, lo, hi) <= |m.free|
  {
    hide Tree, Placed, Linked, Conserved, RangeSpots, AddedSpots, NewTables;
    Counts(m, t, all);
    FedSets(m, t, root, lo, hi);
  }

  lemma FedSets(m: Vm, t: Vm, root: nat, lo: nat, hi: nat)
    requires Fed(m, t, root, lo, hi)
    ensures AddedSpots(m, t) == NewTables(m, root, lo, hi)
  {
    hide RangeSpots;
  }

  /** There was not: the page after a needs more than is left. */
  lemma Starved(m: Vm, t: Vm, root: nat, lo: nat, a: nat, hi: nat, all: set<nat>)
    requires Tree(m) && Conserved(m, all) && Tree(t) && Conserved(t, all) && Fed(m, t, root, lo, a) && lo <= a < hi
    requires 1 + TablesFor(t, root, a) > |t.free|
    ensures PagesFor(m, root, lo, hi) > |m.free|
  {
    hide Tree, Placed, Linked, Conserved, AddedSpots, Lacking, NewTables, Fed;
    FedParts(m, t, root, lo, a);
    Counts(m, t, all);
    StarvedSets(m, t, root, lo, a);
    UnionCount(AddedSpots(m, t), Lacking(t, root, a));
    TablesGrow(m, root, lo, a + 1, hi);
    SubsetCount(NewTables(m, root, lo, a + 1), NewTables(m, root, lo, hi));
  }

  lemma FedParts(m: Vm, t: Vm, root: nat, lo: nat, a: nat)
    requires Fed(m, t, root, lo, a)
    ensures m.node.Keys <= t.node.Keys && |t.pages| == |m.pages| + a - lo
  {
  }

  lemma TablesGrow(m: Vm, root: nat, lo: nat, a: nat, hi: nat)
    requires a <= hi
    ensures NewTables(m, root, lo, a) <= NewTables(m, root, lo, hi)
  {
    RangeGrows(root, lo, a, hi);
  }

  lemma StarvedSets(m: Vm, t: Vm, root: nat, lo: nat, a: nat)
    requires Fed(m, t, root, lo, a) && lo <= a
    ensures NewTables(m, root, lo, a + 1) == AddedSpots(m, t) + Lacking(t, root, a)
    ensures AddedSpots(m, t) !! Lacking(t, root, a)
  {
    hide Spots;
    SplitNew(m.node.Keys, RangeSpots(root, lo, a), Spots(root, a));
  }

  lemma SplitNew(n: set<Spot>, r: set<Spot>, s: set<Spot>)
    ensures r + s - n == (n + r - n) + (s - (n + r)) && (n + r - n) !! (s - (n + r))
  {
  }

  // ----- a new address space -----

  /** A root with nothing below it lacks both tables for the trampoline, and has them then
      for the trapframe. */
  lemma SpecialTables(m: Vm, root: nat)
    requires forall s :: s in m.node && s.root == root ==> s == Top(root)
    ensures TablesFor(m, root, TRAMPOLINE) == 2 && Spots(root, TRAPFRAME) == Spots(root, TRAMPOLINE)
  {
    hide Path;
    SpecialPaths(root);
    var x, y := Path(root, TRAMPOLINE, 1), Path(root, TRAMPOLINE, 0);
    assert Lacking(m, root, TRAMPOLINE) == {x, y} && |{x, y}| == 2;
  }

  lemma SpecialPaths(root: nat)
    ensures Path(root, TRAPFRAME, 1) == Path(root, TRAMPOLINE, 1) != Top(root)
    ensures Path(root, TRAPFRAME, 0) == Path(root, TRAMPOLINE, 0) != Top(root)
  {
  }

  lemma NoneLacking(m: Vm, root: nat, v: nat)
    requires Spots(root, v) <= m.node.Keys
    ensures TablesFor(m, root, v) == 0
  {
    assert Lacking(m, root, v) == {};
  }
}
