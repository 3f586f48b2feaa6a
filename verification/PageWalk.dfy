/** Walking the tree: the path to a leaf, and how allocation on the way and a store at its end
    change the finite map (kernel/vm.c). */
module PageWalk {
  import opened PageTable
  import opened PageOps

  /** What walk returns: the entry's address, 0, or its panic. */
  datatype Walked = Panic | Missing | At(table: nat, index: nat)

  datatype Mapping = Done | NoMemory | Fault

  /** `perm | PTE_V`. */
  function WithV(perm: nat): (f: nat)
    requires perm < 1024
    ensures f < 1024 && Valid(f)
  {
    if perm % 2 == 1 then perm else perm + 1
  }

  /** The finite map of t is that of m with one entry replaced. */
  ghost predicate Stored(m: Vm, t: Vm, root: nat, v: nat, e: nat) {
    forall root', v' :: 0 <= v' < MAXVPN ==>
      Leaf(t, root', v') == if root' == root && v' == v then e else Leaf(m, root', v')
  }

  lemma SameIsSame(m: Vm)
    ensures SameLeaves(m, m)
  {
  }

  lemma StoredDeeper(m: Vm, t: Vm, root: nat, v: nat, e: nat, all: set<nat>)
    requires Deeper(m, t, all) && v < MAXVPN && Path(root, v, 0) in t.node
    requires t.node[Path(root, v, 0)] in t.tables && |t.tables[t.node[Path(root, v, 0)]]| == ENTRIES
    requires forall root', v' :: Leaf(SetLeaf(t, root, v, e), root', v') ==
                                 if root' == root && v' == v then e else Leaf(t, root', v')
    ensures Stored(m, SetLeaf(t, root, v, e), root, v, e)
    ensures FreeSet(SetLeaf(t, root, v, e)) <= FreeSet(m)
  {
    hide Leaf, Tree, Conserved;
  }

  /** t has the same finite map, pages in use and users as m, and maybe more tables. */
  ghost predicate Deeper(m: Vm, t: Vm, all: set<nat>)
    ensures Deeper(m, t, all) ==>
            Tree(t) && Conserved(t, all) && SameLeaves(m, t) && t.pages == m.pages && t.home == m.home
  {
    && Tree(t) && Conserved(t, all) && SameLeaves(m, t) && t.pages == m.pages && t.home == m.home
    && (forall s :: s in m.node ==> s in t.node && t.node[s] == m.node[s])
    && FreeSet(t) <= FreeSet(m)
  }

  /** Tables are added to the tree of `root` only. */
  ghost predicate OnlyIn(m: Vm, t: Vm, root: nat) {
    forall s :: s in t.node && s !in m.node ==> s.root == root
  }

  lemma DeeperRefl(m: Vm, all: set<nat>)
    requires Tree(m) && Conserved(m, all)
    ensures Deeper(m, m, all)
  {
  }

  lemma DeeperTrans(m: Vm, t: Vm, u: Vm, all: set<nat>)
    requires Deeper(m, t, all) && Deeper(t, u, all)
    ensures Deeper(m, u, all)
  {
    hide Leaf, Tree, Conserved;
  }

  lemma DeeperAdd(m: Vm, s: Spot, i: nat, all: set<nat>)
    requires CanAdd(m, s, i, all)
    ensures m.node[s] in m.tables && i < |m.tables[m.node[s]]|
    ensures Deeper(m, AddTable(m, s, i), all)
    ensures Below(s, i) in AddTable(m, s, i).node && AddTable(m, s, i).node[Below(s, i)] == m.free[0]
  {
    hide Tree, Conserved, SameLeaves, AddTable, FreeSet, CanAdd;
    AddFacts(m, s, i, all);
    AddTableKeeps(m, s, i, all);
    AddTableFields(m, s, i);
  }

  lemma AddTableFields(m: Vm, s: Spot, i: nat)
    requires m.free != [] && s.level > 0 && s in m.node && m.node[s] in m.tables && i < |m.tables[m.node[s]]|
    ensures AddTable(m, s, i).node == m.node[Below(s, i) := m.free[0]]
    ensures AddTable(m, s, i).pages == m.pages && AddTable(m, s, i).home == m.home
  {
  }

  lemma TopNode(m: Vm, root: nat)
    requires Tree(m) && Top(root) in m.node
    ensures m.node[Top(root)] == root && root in m.tables
  {
  }

  /** Following one entry of the path. */
  lemma DownFacts(m: Vm, root: nat, v: nat, level: nat)
    requires Tree(m) && v < MAXVPN && 0 < level <= 2 && Path(root, v, level) in m.node
    ensures var s, i := Path(root, v, level), Px(level, v);
            && s.level == level && m.node[s] in m.tables && |m.tables[m.node[s]]| == ENTRIES
            && Below(s, i) == Path(root, v, level - 1)
            && (Valid(m.tables[m.node[s]][i]) <==> Below(s, i) in m.node)
            && (Below(s, i) in m.node ==> Ppn(m.tables[m.node[s]][i]) == m.node[Below(s, i)])
  {
    PathDown(root, v);
    DownOne(m, Path(root, v, level), Px(level, v));
    hide Tree, Px;
  }

  lemma DownOne(m: Vm, s: Spot, i: nat)
    requires Tree(m) && s in m.node && 0 < s.level <= 2 && i < ENTRIES
    ensures m.node[s] in m.tables && |m.tables[m.node[s]]| == ENTRIES
    ensures Valid(m.tables[m.node[s]][i]) <==> Below(s, i) in m.node
    ensures Below(s, i) in m.node ==> Ppn(m.tables[m.node[s]][i]) == m.node[Below(s, i)]
  {
    assert Entry(m, s, i) == m.tables[m.node[s]][i];
    PteParts(if Below(s, i) in m.node then m.node[Below(s, i)] else 0, PTE_V);
  }

  /** An entry gives back the page number and flags it was made of. */
  lemma PteParts(ppn: nat, flags: nat)
    requires flags < 1024
    ensures Ppn(Pte(ppn, flags)) == ppn && Flags(Pte(ppn, flags)) == flags
    ensures Valid(Pte(ppn, flags)) <==> Valid(flags)
    ensures IsLeaf(Pte(ppn, flags)) <==> IsLeaf(flags)
    ensures HasU(Pte(ppn, flags)) <==> HasU(flags)
  {
    LeafBits(ppn, flags);
    UserBit(ppn, flags);
    hide IsLeaf, HasU;
  }

  lemma Div16(a: nat, x: nat)
    ensures (16 * a + x) / 16 == a + x / 16
  {
  }

  lemma Div2(a: nat, x: nat)
    ensures (2 * a + x) / 2 == a + x / 2
  {
  }

  lemma Mod8(a: nat, x: nat)
    ensures (8 * a + x) % 8 == x % 8
  {
  }

  lemma Mod2(a: nat, x: nat)
    ensures (2 * a + x) % 2 == x % 2
  {
  }

  lemma LeafBits(ppn: nat, flags: nat)
    ensures IsLeaf(Pte(ppn, flags)) <==> IsLeaf(flags)
  {
    Div2(512 * ppn, flags);
    Mod8(64 * ppn, flags / 2);
  }

  lemma UserBit(ppn: nat, flags: nat)
    ensures HasU(Pte(ppn, flags)) <==> HasU(flags)
  {
    Div16(64 * ppn, flags);
    Mod2(32 * ppn, flags / 16);
  }

  lemma AddReady(m: Vm, root: nat, v: nat, level: nat, all: set<nat>)
    requires Tree(m) && Conserved(m, all) && v < MAXVPN && 0 < level <= 2 && Path(root, v, level) in m.node
    requires m.free != [] && Below(Path(root, v, level), Px(level, v)) !in m.node
    ensures CanAdd(m, Path(root, v, level), Px(level, v), all)
  {
    PathDown(root, v);
  }

  /** A missing upper table means there was no leaf table to begin with. */
  lemma MissingBelow(m: Vm, t: Vm, root: nat, v: nat, level: nat, all: set<nat>)
    requires Tree(m) && Deeper(m, t, all) && v < MAXVPN && 0 < level <= 2
    requires Path(root, v, level - 1) !in t.node
    ensures Path(root, v, 0) !in m.node
  {
    PathDown(root, v);
    if Path(root, v, 0) in m.node && level == 2 {
      ParentOf(m, Path(root, v, 1), Px(1, v));
    }
  }

  lemma LeafFacts(m: Vm, t: Vm, root: nat, v: nat, all: set<nat>)
    requires Deeper(m, t, all) && v < MAXVPN && Path(root, v, 0) in t.node
    ensures var p := t.node[Path(root, v, 0)];
            p in t.tables && |t.tables[p]| == ENTRIES && t.tables[p][Px(0, v)] == Leaf(m, root, v)
  {
    assert Leaf(t, root, v) == Leaf(m, root, v);
  }

  lemma NoTableNoLeaf(m: Vm, root: nat, v: nat)
    requires Path(root, v, 0) !in m.node
    ensures Leaf(m, root, v) == 0 && !Valid(0)
  {
  }

  lemma StoredSame(m: Vm, t: Vm, root: nat, v: nat, e: nat)
    requires SameLeaves(m, t) && v < MAXVPN && Path(root, v, 0) in t.node
    requires t.node[Path(root, v, 0)] in t.tables && |t.tables[t.node[Path(root, v, 0)]]| == ENTRIES
    requires forall root', v' :: Leaf(SetLeaf(t, root, v, e), root', v') ==
                                 if root' == root && v' == v then e else Leaf(t, root', v')
    ensures Stored(m, SetLeaf(t, root, v, e), root, v, e)
  {
    hide Leaf;
  }

  /** Walks for distinct pages, in one tree or in two, end at distinct entries in memory. */
  lemma EntriesDistinct(m: Vm, root: nat, v: nat, root': nat, v': nat)
    requires Tree(m) && (root != root' || v != v')
    requires Path(root, v, 0) in m.node && Path(root', v', 0) in m.node
    ensures m.node[Path(root, v, 0)] != m.node[Path(root', v', 0)] || Px(0, v) != Px(0, v')
  {
    hide Linked, Entry;
    LeafSlotsDistinct(root, v, root', v');
    TableSpots(m, Path(root, v, 0), Path(root', v', 0));
  }

  /** No table page is in two places. */
  lemma TableSpots(m: Vm, s: Spot, s': Spot)
    requires Placed(m) && s in m.node && s' in m.node
    ensures m.node[s] == m.node[s'] ==> s == s'
  {
  }

  lemma AddFacts(m: Vm, s: Spot, i: nat, all: set<nat>)
    requires CanAdd(m, s, i, all)
    ensures m.free != [] && s.level > 0 && s in m.node && m.node[s] in m.tables
    ensures i < |m.tables[m.node[s]]| == ENTRIES && Below(s, i) !in m.node
  {
  }

  // ----- ranges -----

  /** The finite map of t is that of m with virtual pages lo to hi mapped to consecutive
      physical pages from ppn on. */
  ghost predicate Mapped(m: Vm, t: Vm, root: nat, lo: nat, hi: nat, ppn: nat, flags: nat) {
    forall root', v :: 0 <= v < MAXVPN ==>
      Leaf(t, root', v) == if root' == root && lo <= v < hi then Pte(ppn + (v - lo), flags) else Leaf(m, root', v)
  }

  lemma MappedNone(m: Vm, root: nat, lo: nat, ppn: nat, flags: nat)
    ensures Mapped(m, m, root, lo, lo, ppn, flags)
  {
  }

  lemma MappedSame(m: Vm, t: Vm, u: Vm, root: nat, lo: nat, hi: nat, ppn: nat, flags: nat)
    requires Mapped(m, t, root, lo, hi, ppn, flags) && SameLeaves(t, u)
    ensures Mapped(m, u, root, lo, hi, ppn, flags)
  {
    hide Leaf;
  }

  lemma MappedMore(m: Vm, t: Vm, u: Vm, root: nat, lo: nat, hi: nat, ppn: nat, flags: nat)
    requires Mapped(m, t, root, lo, hi, ppn, flags) && lo <= hi < MAXVPN
    requires Stored(t, u, root, hi, Pte(ppn + (hi - lo), flags))
    ensures Mapped(m, u, root, lo, hi + 1, ppn, flags)
  {
    hide Leaf, Pte;
  }

  lemma MappedStill(m: Vm, t: Vm, root: nat, lo: nat, hi: nat, ppn: nat, flags: nat)
    requires Mapped(m, t, root, lo, hi, ppn, flags) && lo <= hi
    ensures hi < MAXVPN ==> Leaf(t, root, hi) == Leaf(m, root, hi)
  {
    hide Leaf, Pte;
  }

  /** uvmunmap's tests: v has an entry, valid and not one for a lower table. */
  ghost predicate LeafMapped(m: Vm, root: nat, v: nat) {
    v < MAXVPN && Valid(Leaf(m, root, v)) && Flags(Leaf(m, root, v)) != PTE_V
  }

  /** The finite map of t is that of m without virtual pages lo to hi. */
  ghost predicate Unmapped(m: Vm, t: Vm, root: nat, lo: nat, hi: nat) {
    forall root', v :: 0 <= v < MAXVPN ==>
      Leaf(t, root', v) == if root' == root && lo <= v < hi then 0 else Leaf(m, root', v)
  }

  lemma UnmappedNone(m: Vm, root: nat, lo: nat)
    ensures Unmapped(m, m, root, lo, lo)
  {
  }

  lemma UnmappedMore(m: Vm, t: Vm, u: Vm, root: nat, lo: nat, hi: nat)
    requires Unmapped(m, t, root, lo, hi) && lo <= hi < MAXVPN && Stored(t, u, root, hi, 0)
    ensures Unmapped(m, u, root, lo, hi + 1)
  {
    hide Leaf;
  }

  lemma UnmappedStill(m: Vm, t: Vm, root: nat, lo: nat, hi: nat)
    requires Unmapped(m, t, root, lo, hi) && lo <= hi
    ensures LeafMapped(t, root, hi) <==> LeafMapped(m, root, hi)
  {
    hide Leaf;
  }
}
