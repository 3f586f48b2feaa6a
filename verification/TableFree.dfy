/** Freeing page-table pages from the bottom up (kernel/vm.c: freewalk). */
module TableFree {
  import opened PageTable
  import opened PageOps
  import opened PageWalk
  import opened AddressSpace

  function Up1(s: Spot): (u: Spot) { Spot(s.root, s.level + 1, s.prefix / ENTRIES) }
  function Index(s: Spot): (i: nat)
    ensures i < ENTRIES
  {
    s.prefix % ENTRIES
  }

  lemma UpDown(s: Spot)
    ensures Below(Up1(s), Index(s)) == s
  {
  }

  /** t is s, or below it in the tree. */
  predicate Under(s: Spot, t: Spot)
    decreases s.level - t.level
  {
    t == s || (t.level < s.level && Under(s, Up1(t)))
  }

  lemma {:induction false} UnderSame(s: Spot, t: Spot)
    requires Under(s, t)
    ensures t.root == s.root && t.level <= s.level
    decreases s.level - t.level
  {
    if t != s { UnderSame(s, Up1(t)); }
  }

  /** What is properly below s is below exactly one of its entries. */
  lemma {:induction false} UnderChild(s: Spot, t: Spot)
    requires s.level > 0 && t.level < s.level
    ensures Under(s, t) <==> exists i :: 0 <= i < ENTRIES && Under(Below(s, i), t)
    decreases s.level - t.level
  {
    if Up1(t) == s {
      UpDown(t);
      assert Under(Below(s, Index(t)), t);
    } else if t.level + 1 < s.level {
      UnderChild(s, Up1(t));
      forall i | 0 <= i < ENTRIES ensures Under(Below(s, i), t) <==> Under(Below(s, i), Up1(t)) {
        UnderStep(s, i, t);
      }
    } else {
      forall i | 0 <= i < ENTRIES ensures !Under(Below(s, i), t) {
        PrefixUp(s, i);
      }
    }
  }

  lemma UnderStep(s: Spot, i: nat, t: Spot)
    requires s.level > 0 && t.level + 1 < s.level && i < ENTRIES && Up1(t) != s
    ensures Under(Below(s, i), t) <==> Under(Below(s, i), Up1(t))
  {
  }

  lemma {:induction false} UnderOne(s: Spot, i: nat, j: nat, t: Spot)
    requires s.level > 0 && i < ENTRIES && j < ENTRIES && Under(Below(s, i), t) && Under(Below(s, j), t)
    ensures i == j
    decreases s.level - t.level
  {
    if t != Below(s, i) && t != Below(s, j) {
      UnderOne(s, i, j, Up1(t));
    }
  }

  // ----- dropping one table -----

  /** The table at s goes, and its parent's entry is cleared. */
  function DropTable(m: Vm, s: Spot): (t: Vm)
    requires s in m.node
  {
    var p, u := m.node[s], Up1(s);
    var rest := m.tables - {p};
    m.(free := [p] + m.free,
       tables := if s.level < 2 && u in m.node && m.node[u] in rest && Index(s) < |rest[m.node[u]]|
                 then rest[m.node[u] := ClearAt(rest[m.node[u]], Index(s))] else rest,
       node := m.node - {s}, spot := m.spot - {p})
  }

  function ClearAt(row: seq<nat>, i: nat): (r: seq<nat>)
    requires i < |row|
    ensures |r| == |row|
  {
    row[i := 0]
  }

  /** Nothing hangs below the table at s. */
  ghost predicate Bare(m: Vm, s: Spot) {
    && s in m.node && s.level <= 2
    && forall i :: 0 <= i < ENTRIES ==> !Valid(Entry(m, s, i))
  }

  lemma DropEntry(m: Vm, s: Spot, s': Spot, i: nat)
    requires Tree(m) && Bare(m, s) && i < ENTRIES
    ensures Entry(DropTable(m, s), s', i) ==
            if s' == s then 0
            else if s.level < 2 && s' == Up1(s) && i == Index(s) then 0
            else Entry(m, s', i)
  {
    hide Linked;
    if s.level < 2 { ParentThere(m, s); }
  }

  lemma ParentThere(m: Vm, s: Spot)
    requires Tree(m) && s in m.node && s.level < 2
    ensures Up1(s) in m.node && m.node[Up1(s)] in m.tables && m.node[Up1(s)] != m.node[s]
    ensures |m.tables[m.node[Up1(s)]]| == ENTRIES
  {
    assert Up1(s) != s;
  }

  lemma DropPlaced(m: Vm, s: Spot, all: set<nat>)
    requires Tree(m) && Conserved(m, all) && Bare(m, s)
    ensures Placed(DropTable(m, s)) && Conserved(DropTable(m, s), all)
  {
    hide Linked, Entry;
    var t, p := DropTable(m, s), m.node[s];
    if s.level < 2 { ParentThere(m, s); }
    assert t.tables.Keys == m.tables.Keys - {p} && t.spot.Keys == m.spot.Keys - {p};
    assert Placed(t);
    DropConserved(m, t, p, all);
    hide Conserved;
  }

  lemma DropConserved(m: Vm, t: Vm, p: nat, all: set<nat>)
    requires Conserved(m, all) && p in m.tables && t.free == [p] + m.free && t.pages == m.pages
    requires t.tables.Keys == m.tables.Keys - {p}
    ensures Conserved(t, all)
  {
    assert FreeSet(t) == FreeSet(m) + {p};
  }

  lemma DropLinked(m: Vm, s: Spot, t: Vm)
    requires Linked(m) && s in m.node && s.level <= 2 && t.node == m.node - {s}
    requires forall i :: 0 <= i < ENTRIES && s.level > 0 ==> Below(s, i) !in m.node
    requires forall s', i :: 0 <= i < ENTRIES ==>
               Entry(t, s', i) == if s' == s then 0
                                  else if s.level < 2 && s' == Up1(s) && i == Index(s) then 0 else Entry(m, s', i)
    ensures Linked(t)
  {
    hide Entry;
    forall s', i | s' in t.node && 0 < s'.level <= 2 && 0 <= i < ENTRIES
      ensures if Below(s', i) in t.node then Entry(t, s', i) == Pte(t.node[Below(s', i)], PTE_V)
              else !Valid(Entry(t, s', i))
    {
      PrefixUp(s', i);
      UpDown(s);
    }
    forall s' | s' in t.node && s'.level < 2 ensures Up1(s') in t.node {
      UpDown(s');
    }
  }

  lemma NoChildren(m: Vm, s: Spot)
    requires Tree(m) && Bare(m, s)
    ensures forall i :: 0 <= i < ENTRIES && s.level > 0 ==> Below(s, i) !in m.node
  {
    forall i | 0 <= i < ENTRIES && s.level > 0 ensures Below(s, i) !in m.node {
      if Below(s, i) in m.node {
        PteParts(m.node[Below(s, i)], PTE_V);
        assert false;
      }
    }
  }

  /** Dropping a bare table keeps the tree, the accounting and every mapping. */
  lemma DropKeeps(m: Vm, s: Spot, all: set<nat>)
    requires Tree(m) && Conserved(m, all) && Bare(m, s)
    ensures Tree(DropTable(m, s)) && Conserved(DropTable(m, s), all) && SameMap(m, DropTable(m, s))
  {
    hide Placed, Conserved, Linked, DropTable;
    var t := DropTable(m, s);
    DropPlaced(m, s, all);
    NoChildren(m, s);
    forall s', i | 0 <= i < ENTRIES
      ensures Entry(t, s', i) == if s' == s then 0
                                 else if s.level < 2 && s' == Up1(s) && i == Index(s) then 0 else Entry(m, s', i)
    {
      DropEntry(m, s, s', i);
    }
    DropNode(m, s);
    DropLinked(m, s, t);
    DropMap(m, s, t);
  }

  lemma DropNode(m: Vm, s: Spot)
    requires s in m.node
    ensures DropTable(m, s).node == m.node - {s}
    ensures DropTable(m, s).pages == m.pages && DropTable(m, s).home == m.home
  {
  }

  lemma DropMap(m: Vm, s: Spot, t: Vm)
    requires forall i :: 0 <= i < ENTRIES ==> !Valid(Entry(m, s, i))
    requires forall s', i :: 0 <= i < ENTRIES ==>
               Entry(t, s', i) == if s' == s then 0
                                  else if s.level < 2 && s' == Up1(s) && i == Index(s) then 0 else Entry(m, s', i)
    ensures SameMap(m, t)
  {
    hide Entry;
  }

  // ----- dropping a subtree -----

  ghost function Subtree(m: Vm, s: Spot): (r: set<Spot>) { set t | t in m.node && Under(s, t) }

  /** The spots below the first i entries of the table at s. */
  ghost function Cleared(m: Vm, s: Spot, i: nat): (r: set<Spot>) {
    if s.level == 0 then {} else set t | t in m.node && exists j :: 0 <= j < i && Under(Below(s, j), t)
  }

  ghost predicate NoLeaf(m: Vm, root: nat) {
    forall v :: 0 <= v < MAXVPN ==> !Valid(Leaf(m, root, v))
  }

  /** t is m without the tables at the spots `gone`, whose pages are free in t; nothing else
      differs. */
  ghost predicate Cut(m: Vm, t: Vm, gone: set<Spot>, all: set<nat>)
    ensures Cut(m, t, gone, all) ==> Tree(t) && Conserved(t, all)
  {
    && Tree(t) && Conserved(t, all) && t.node == m.node - gone
    && t.pages == m.pages && t.home == m.home && SameMap(m, t)
  }

  lemma CutNone(m: Vm, s: Spot, all: set<nat>)
    requires Tree(m) && Conserved(m, all)
    ensures Cut(m, m, {}, all) && Cut(m, m, Cleared(m, s, 0), all)
  {
    hide Tree, Conserved, Leaf;
    assert Cleared(m, s, 0) == {};
  }

  lemma CutTwice(m: Vm, t: Vm, u: Vm, a: set<Spot>, b: set<Spot>, all: set<nat>)
    requires Cut(m, t, a, all) && Cut(t, u, b, all)
    ensures Cut(m, u, a + b, all)
  {
    hide Tree, Conserved, Leaf;
  }

  lemma {:induction false} NoneUnder(m: Vm, s: Spot, t: Spot)
    requires Linked(m) && s !in m.node && s.level <= 2 && Under(s, t)
    ensures t !in m.node
    decreases s.level - t.level
  {
    if t != s {
      UnderSame(s, t);
      NoneUnder(m, s, Up1(t));
    }
  }

  /** Dropping the subtree of entry i clears one entry more. */
  lemma ClearedMore(m: Vm, t: Vm, s: Spot, i: nat)
    requires 0 < s.level && i < ENTRIES && t.node == m.node - Cleared(m, s, i)
    ensures Cleared(m, s, i) + Subtree(t, Below(s, i)) == Cleared(m, s, i + 1)
  {
    hide Under, Below;
    forall r | r in Cleared(m, s, i + 1)
      ensures r in Cleared(m, s, i) + Subtree(t, Below(s, i))
    {
      var j :| 0 <= j < i + 1 && Under(Below(s, j), r);
      if j < i { assert r in Cleared(m, s, i); }
    }
  }

  lemma ChildCut(m: Vm, t: Vm, u: Vm, s: Spot, i: nat, all: set<nat>)
    requires 0 < s.level && i < ENTRIES
    requires Cut(m, t, Cleared(m, s, i), all) && Cut(t, u, Subtree(t, Below(s, i)), all)
    ensures Cut(m, u, Cleared(m, s, i + 1), all)
  {
    hide Tree, Conserved, Leaf, SameMap, Cleared, Subtree, Under, Below;
    ClearedMore(m, t, s, i);
    CutTwice(m, t, u, Cleared(m, s, i), Subtree(t, Below(s, i)), all);
  }

  /** An entry that is not valid has nothing below it. */
  lemma NoChildCut(m: Vm, t: Vm, s: Spot, i: nat, all: set<nat>)
    requires 0 < s.level <= 2 && i < ENTRIES && Cut(m, t, Cleared(m, s, i), all) && Below(s, i) !in t.node
    ensures Cut(m, t, Cleared(m, s, i + 1), all)
  {
    hide Conserved, Leaf, SameMap, Cleared, Under, Linked, Placed, Cut;
    forall r | Under(Below(s, i), r) ensures r !in t.node { NoneUnder(t, Below(s, i), r); }
    assert Subtree(t, Below(s, i)) == {};
    CutNone(t, s, all);
    ChildCut(m, t, t, s, i, all);
  }

  /** A level-0 table has no subtrees. */
  lemma LastLevel(m: Vm, t: Vm, s: Spot, i: nat, all: set<nat>)
    requires s.level == 0 && Cut(m, t, Cleared(m, s, i), all)
    ensures Cut(m, t, Cleared(m, s, i + 1), all)
  {
  }

  /** With no leaf mapping left, the table is bare once all its entries are done. */
  lemma AllCleared(m: Vm, t: Vm, s: Spot, all: set<nat>)
    requires Tree(m) && s in m.node && NoLeaf(t, s.root) && Cut(m, t, Cleared(m, s, ENTRIES), all)
    ensures Bare(t, s) && Subtree(m, s) == Cleared(m, s, ENTRIES) + {s}
  {
    hide Conserved, Cut, Placed, Entry, Leaf;
    LevelBound(m, s);
    CutNode(m, t, Cleared(m, s, ENTRIES), all);
    forall r | r in m.node && r != s ensures Under(s, r) <==> r in Cleared(m, s, ENTRIES) {
      if r.level < s.level { UnderChild(s, r); }
      else { NotBelow(s, r); }
    }
    NotCleared(m, s, ENTRIES);
    forall i | 0 <= i < ENTRIES ensures !Valid(Entry(t, s, i)) {
      if s.level == 0 {
        LeafAt(t, s, i);
      } else if Below(s, i) in m.node {
        SelfUnder(s, i);
        assert Below(s, i) !in t.node;
      }
    }
  }

  lemma CutNode(m: Vm, t: Vm, gone: set<Spot>, all: set<nat>)
    requires Cut(m, t, gone, all)
    ensures t.node == m.node - gone && t.pages == m.pages && t.home == m.home && SameMap(m, t)
  {
  }

  lemma SelfUnder(s: Spot, i: nat)
    requires 0 < s.level
    ensures Under(Below(s, i), Below(s, i))
  {
  }

  lemma NotBelow(s: Spot, r: Spot)
    requires r != s && r.level >= s.level
    ensures !Under(s, r)
    ensures 0 < s.level ==> forall j: nat :: !Under(Below(s, j), r)
  {
  }

  lemma NotCleared(m: Vm, s: Spot, i: nat)
    ensures s !in Cleared(m, s, i)
  {
    if s.level > 0 {
      forall j | 0 <= j < i ensures !Under(Below(s, j), s) {
        if Under(Below(s, j), s) {
          UnderSame(Below(s, j), s);
          assert false;
        }
      }
    }
  }

  lemma LevelBound(m: Vm, s: Spot)
    requires Tree(m) && s in m.node
    ensures s.level <= 2 && (s.level == 0 ==> s.prefix < MAXVPN / ENTRIES)
  {
  }

  lemma UpThere(m: Vm, s: Spot)
    requires Linked(m) && s in m.node
    ensures s.level <= 2 && (s.level == 2 ==> s == Top(s.root)) && (s.level < 2 ==> Up1(s) in m.node)
    ensures s.level == 1 ==> Up1(s) == Top(s.root)
  {
  }

  /** Every entry of a level-0 table is a leaf entry. */
  lemma LeafAt(m: Vm, s: Spot, i: nat)
    requires s.level == 0 && i < ENTRIES && Tree(m) && s in m.node
    ensures s.prefix * ENTRIES + i < MAXVPN && Entry(m, s, i) == Leaf(m, s.root, s.prefix * ENTRIES + i)
  {
    hide Entry, Tree;
    LevelBound(m, s);
    LeafIndex(s.prefix, i);
    assert Path(s.root, s.prefix * ENTRIES + i, 0) == s;
  }

  lemma LeafIndex(prefix: nat, i: nat)
    requires i < ENTRIES
    ensures (prefix * ENTRIES + i) / ENTRIES == prefix && (prefix * ENTRIES + i) % ENTRIES == i
  {
  }

  lemma NoLeafSame(m: Vm, t: Vm, root: nat)
    requires NoLeaf(m, root) && SameMap(m, t)
    ensures NoLeaf(t, root)
  {
    hide Leaf;
  }

  /** The table itself, last. */
  lemma LastCut(m: Vm, t: Vm, s: Spot, all: set<nat>)
    requires Tree(m) && s in m.node && NoLeaf(m, s.root) && Cut(m, t, Cleared(m, s, ENTRIES), all)
    ensures Bare(t, s) && s in t.node && t.node[s] == m.node[s] && Cut(m, DropTable(t, s), Subtree(m, s), all)
  {
    hide Conserved, Cleared, Subtree, Placed, Linked, Entry, Leaf, SameMap, Bare, DropTable, Tree, NoLeaf, Cut;
    CutNode(m, t, Cleared(m, s, ENTRIES), all);
    NoLeafSame(m, t, s.root);
    AllCleared(m, t, s, all);
    BareThere(t, s);
    DropKeeps(t, s, all);
    DropNode(t, s);
    OneCut(t, DropTable(t, s), s, all);
    CutTwice(m, t, DropTable(t, s), Cleared(m, s, ENTRIES), {s}, all);
  }

  lemma BareThere(m: Vm, s: Spot)
    requires Bare(m, s)
    ensures s in m.node && s.level <= 2
  {
  }

  lemma OneCut(m: Vm, t: Vm, s: Spot, all: set<nat>)
    requires Tree(t) && Conserved(t, all) && SameMap(m, t)
    requires t.node == m.node - {s} && t.pages == m.pages && t.home == m.home
    ensures Cut(m, t, {s}, all)
  {
  }

  // ----- the whole tree -----

  ghost function Tables(m: Vm, root: nat): (r: set<nat>) {
    set p | p in m.tables && p in m.spot && m.spot[p].root == root
  }

  /** Each table of the address space is free after, and each page once. */
  lemma WholeTree(m: Vm, t: Vm, root: nat, all: set<nat>)
    requires Tree(m) && Conserved(m, all) && Cut(m, t, Subtree(m, Top(root)), all)
    ensures forall s :: s in t.node <==> s in m.node && s.root != root
    ensures FreeSet(t) == FreeSet(m) + Tables(m, root)
  {
    hide Linked, Entry, Leaf, SameMap, Under, Top;
    forall s | s in m.node ensures Under(Top(root), s) <==> s.root == root {
      TopCovers(m, root, s);
    }
    forall p | p in t.tables ensures p in m.tables && m.spot[p] == t.spot[p] { }
    forall p | p in m.tables && m.spot[p].root != root ensures p in t.tables {
      assert m.spot[p] in t.node;
    }
  }

  lemma TopCovers(m: Vm, root: nat, s: Spot)
    requires Tree(m) && s in m.node
    ensures Under(Top(root), s) <==> s.root == root
  {
    hide Placed, Entry, Linked;
    UpThere(m, s);
    var u := Up1(s);
    if s.level == 1 {
      assert Under(Top(root), s) <==> u == Top(root);
    } else if s.level == 0 {
      UpThere(m, u);
      assert Under(Top(root), u) <==> Up1(u) == Top(root);
      assert Under(Top(root), s) <==> Under(Top(root), u);
    }
  }

  /** What freewalk sees at entry i of the table it is freeing. */
  lemma EntrySeen(m: Vm, t: Vm, s: Spot, i: nat, all: set<nat>)
    requires NoLeaf(m, s.root) && Cut(m, t, Cleared(m, s, i), all) && s in m.node && i < ENTRIES
    ensures s in t.node && t.node[s] == m.node[s] && t.node[s] in t.tables && |t.tables[t.node[s]]| == ENTRIES
    ensures var pte := t.tables[t.node[s]][i];
            && (Valid(pte) ==>
                0 < s.level <= 2 && Below(s, i) in t.node && Ppn(pte) == t.node[Below(s, i)] && !IsLeaf(pte))
            && (!Valid(pte) && 0 < s.level ==> s.level <= 2 && Below(s, i) !in t.node)
    ensures NoLeaf(t, s.root)
  {
    hide Conserved, Cut, Cleared, Leaf, NoLeaf, SameMap;
    CutNode(m, t, Cleared(m, s, i), all);
    NotCleared(m, s, i);
    assert s in t.node;
    NoLeafSame(m, t, s.root);
    EntryOf(t, s, i);
  }

  lemma EntryOf(t: Vm, s: Spot, i: nat)
    requires Tree(t) && s in t.node && NoLeaf(t, s.root) && i < ENTRIES
    ensures t.node[s] in t.tables && |t.tables[t.node[s]]| == ENTRIES && s.level <= 2
    ensures var pte := t.tables[t.node[s]][i];
            if 0 < s.level && Below(s, i) in t.node then Valid(pte) && Ppn(pte) == t.node[Below(s, i)] && !IsLeaf(pte)
            else !Valid(pte)
  {
    if s.level == 0 {
      LeafAt(t, s, i);
    } else if Below(s, i) in t.node {
      PteParts(t.node[Below(s, i)], PTE_V);
    }
    hide IsLeaf, Valid, Ppn, Pte, Leaf;
  }

  // ----- a new root -----

  /** uvmcreate: an empty tree. */
  function AddRoot(m: Vm): (t: Vm)
    requires m.free != []
  {
    var p := m.free[0];
    m.(free := m.free[1..], tables := m.tables[p := EMPTY], node := m.node[Top(p) := p], spot := m.spot[p := Top(p)])
  }

  lemma AddRootKeeps(m: Vm, all: set<nat>)
    requires Tree(m) && Conserved(m, all) && m.free != []
    ensures var p, t := m.free[0], AddRoot(m);
            && Tree(t) && Conserved(t, all) && SameLeaves(m, t) && Top(p) !in m.node
            && FreeSet(m) == FreeSet(t) + {p} && p !in FreeSet(t)
            && (forall s :: s in m.node ==> s.root != p) && (forall v :: 0 <= v < MAXVPN ==> Leaf(t, p, v) == 0)
  {
    hide SameLeaves, Leaf;
    var p, t := m.free[0], AddRoot(m);
    assert p in FreeSet(m);
    NewRootSpots(m, p);
    AddRootPlaced(m, t, all);
    FreeHead(m.free);
    forall s, i | 0 <= i < ENTRIES ensures Entry(t, s, i) == Entry(m, s, i) { AddRootEntry(m, s, i); }
    AddRootLinked(m, t, p);
    AddRootLeaves(m, t, p);
  }

  /** No table belongs to a tree whose root is free. */
  lemma NewRootSpots(m: Vm, p: nat)
    requires Tree(m) && p !in m.tables
    ensures forall s :: s in m.node ==> s.root != p
  {
    hide Entry;
    forall s | s in m.node ensures s.root != p {
      UpThere(m, s);
      if s.level < 2 {
        UpThere(m, Up1(s));
        if s.level == 0 { UpThere(m, Up1(Up1(s))); }
      }
    }
  }

  lemma AddRootPlaced(m: Vm, t: Vm, all: set<nat>)
    requires Placed(m) && Conserved(m, all) && m.free != [] && t == AddRoot(m) && Top(m.free[0]) !in m.node
    ensures Placed(t) && Conserved(t, all)
  {
    assert m.free[0] in FreeSet(m);
    assert t.tables.Keys == m.tables.Keys + {m.free[0]};
    AddConserved(m, t, all);
    hide Conserved;
    assert t.spot.Keys == m.spot.Keys + {m.free[0]};
  }

  lemma AddRootEntry(m: Vm, s: Spot, i: nat)
    requires Placed(m) && m.free != [] && m.free[0] !in m.tables && Top(m.free[0]) !in m.node && i < ENTRIES
    ensures Entry(AddRoot(m), s, i) == Entry(m, s, i)
  {
  }

  lemma AddRootLinked(m: Vm, t: Vm, p: nat)
    requires Linked(m) && Top(p) !in m.node && t.node == m.node[Top(p) := p]
    requires forall s :: s in m.node ==> s.root != p
    requires forall s, i :: 0 <= i < ENTRIES ==> Entry(t, s, i) == Entry(m, s, i)
    ensures Linked(t)
  {
    hide Entry;
    forall s, i | s in t.node && 0 < s.level <= 2 && 0 <= i < ENTRIES
      ensures if Below(s, i) in t.node then Entry(t, s, i) == Pte(t.node[Below(s, i)], PTE_V)
              else !Valid(Entry(t, s, i))
    {
      if s == Top(p) { NoEntry(m, s, i); }
    }
  }

  lemma NoEntry(m: Vm, s: Spot, i: nat)
    requires s !in m.node && i < ENTRIES
    ensures Entry(m, s, i) == 0 && !Valid(Entry(m, s, i))
  {
  }

  lemma AddRootLeaves(m: Vm, t: Vm, p: nat)
    requires forall s :: s in m.node ==> s.root != p
    requires forall s, i :: 0 <= i < ENTRIES ==> Entry(t, s, i) == Entry(m, s, i)
    ensures SameLeaves(m, t) && forall v :: 0 <= v < MAXVPN ==> Leaf(t, p, v) == 0
  {
    hide Entry;
    forall v | 0 <= v < MAXVPN ensures Leaf(t, p, v) == 0 { NoEntry(m, Path(p, v, 0), Px(0, v)); }
  }

  // ----- freewalk's steps -----

  /** Back from entry i, the parent is where it was. */
  lemma BackUp(t: Vm, u: Vm, s: Spot, i: nat, all: set<nat>)
    requires 0 < s.level && i < ENTRIES && s in t.node && Cut(t, u, Subtree(t, Below(s, i)), all)
    ensures Up1(Below(s, i)) == s && Index(Below(s, i)) == i && Below(s, i).level == s.level - 1
    ensures s in u.node && u.node[s] == t.node[s]
  {
    PrefixUp(s, i);
    if Under(Below(s, i), s) {
      UnderSame(Below(s, i), s);
      assert false;
    }
    hide Tree, Conserved, SameMap, Under;
  }

  lemma ClearedRow(row: seq<nat>, i: nat)
    requires i < |row|
    ensures ClearAt(row, i) == row[i := 0]
  {
  }

  lemma NextEntry(m: Vm, t: Vm, s: Spot, i: nat, all: set<nat>)
    requires i < ENTRIES && Cut(m, t, Cleared(m, s, i), all)
    requires 0 < s.level ==> s.level <= 2 && Below(s, i) !in t.node
    ensures Cut(m, t, Cleared(m, s, i + 1), all)
  {
    hide Cut, Cleared;
    if s.level == 0 { LastLevel(m, t, s, i, all); } else { NoChildCut(m, t, s, i, all); }
  }

  lemma DropParts(m: Vm, s: Spot)
    requires Tree(m) && Bare(m, s)
    ensures s in m.node && m.node[s] in m.tables
    ensures var t, p, u := DropTable(m, s), m.node[s], Up1(s);
            && t.free == [p] + m.free && t.pages == m.pages
            && if s.level >= 2 then t.tables == m.tables - {p}
               else
                 && u in t.node && t.node[u] in m.tables - {p} && |(m.tables - {p})[t.node[u]]| == ENTRIES
                 && t.tables == (m.tables - {p})[t.node[u] := ClearAt((m.tables - {p})[t.node[u]], Index(s))]
  {
    hide Linked, ClearAt;
    if s.level < 2 { ParentThere(m, s); }
  }

  // ----- an address space freed -----

  /** The space of `root`, of n user pages, is gone: its tables and user pages are free and
      every other space is as it was. */
  ghost predicate Freed(m: Vm, t: Vm, root: nat, n: nat) {
    && (forall s :: s in t.node <==> s in m.node && s.root != root)
    && (forall s :: s in t.node ==> t.node[s] == m.node[s])
    && FreeSet(t) == FreeSet(m) + Frames(m, root, 0, n) + Tables(m, root)
    && t.pages == m.pages - Frames(m, root, 0, n) && t.home == m.home - Frames(m, root, 0, n)
    && (forall root', v :: root' != root && 0 <= v < MAXVPN ==>
          if Valid(Leaf(m, root', v)) then Leaf(t, root', v) == Leaf(m, root', v) else !Valid(Leaf(t, root', v)))
  }

  lemma UsersSame(m: Vm, t: Vm)
    requires Users(m) && SameMap(m, t) && t.pages == m.pages && t.home == m.home
    ensures Users(t)
  {
    hide Leaf;
  }

  lemma NothingMapped(m: Vm, root: nat)
    requires Space(m, root, 0) && !Valid(Leaf(m, root, TRAPFRAME)) && !Valid(Leaf(m, root, TRAMPOLINE))
    ensures NoLeaf(m, root)
  {
    hide Leaf;
  }

  lemma SpotTables(m: Vm, t: Vm, root: nat)
    requires Placed(m) && Placed(t) && t.spot == m.spot
    ensures Tables(t, root) == Tables(m, root)
  {
  }

  lemma FreedNow(m: Vm, t: Vm, u: Vm, root: nat, n: nat, all: set<nat>)
    requires Tree(m) && Tree(t) && Conserved(t, all) && t.node == m.node && t.spot == m.spot
    requires Removed(m, t, root, 0, n) && FreeSet(t) == FreeSet(m) + Frames(m, root, 0, n)
    requires Cut(t, u, Subtree(t, Top(root)), all)
    ensures Freed(m, u, root, n)
  {
    hide Tree, Conserved, Leaf, Under, Subtree, Frames, FreeSet, Tables, Cut, SameMap, Top;
    CutNode(t, u, Subtree(t, Top(root)), all);
    WholeTree(t, u, root, all);
    SpotTables(m, t, root);
    FreedLeaves(m, t, u, root, n);
    RemovedParts(m, t, root, n);
    hide Removed;
  }

  lemma RemovedParts(m: Vm, t: Vm, root: nat, n: nat)
    requires Removed(m, t, root, 0, n)
    ensures t.pages == m.pages - Frames(m, root, 0, n) && t.home == m.home - Frames(m, root, 0, n)
  {
  }

  lemma FreedLeaves(m: Vm, t: Vm, u: Vm, root: nat, n: nat)
    requires Removed(m, t, root, 0, n) && SameMap(t, u)
    ensures forall root', v :: root' != root && 0 <= v < MAXVPN ==>
              if Valid(Leaf(m, root', v)) then Leaf(u, root', v) == Leaf(m, root', v) else !Valid(Leaf(u, root', v))
  {
    hide Leaf, Frames;
  }

  // ----- the trampoline and the trapframe -----

  /** t is m but for the two special entries of `root`. */
  ghost predicate SpecialsOnly(m: Vm, t: Vm, root: nat) {
    && (forall root', v :: 0 <= v < MAXVPN && !(root' == root && v >= TRAPFRAME) ==>
        Leaf(t, root', v) == Leaf(m, root', v))
    && t.pages == m.pages && t.home == m.home
  }

  lemma SpecialStored(m: Vm, t: Vm, u: Vm, root: nat, v: nat, e: nat)
    requires SpecialsOnly(m, t, root) && Stored(t, u, root, v, e) && TRAPFRAME <= v < MAXVPN
    requires u.pages == t.pages && u.home == t.home
    ensures SpecialsOnly(m, u, root) && Leaf(u, root, v) == e
    ensures forall v' :: 0 <= v' < MAXVPN && v' != v ==> Leaf(u, root, v') == Leaf(t, root, v')
  {
    hide Leaf;
  }

  lemma SpecialSpaces(m: Vm, t: Vm, root: nat, n: nat)
    requires SpecialsOnly(m, t, root) && Users(m)
    ensures Users(t)
    ensures Space(m, root, n) ==> Space(t, root, n) && Frames(t, root, 0, n) == Frames(m, root, 0, n)
  {
    hide Leaf;
    assert forall v :: 0 <= v < TRAPFRAME ==> Leaf(t, root, v) == Leaf(m, root, v);
    hide Valid, IsLeaf, Ppn;
    if Space(m, root, n) {
      forall v | 0 <= v < n ensures UserPage(t, root, v) { assert UserPage(m, root, v); }
      assert forall v :: 0 <= v < n ==> Ppn(Leaf(t, root, v)) == Ppn(Leaf(m, root, v));
    }
  }

  lemma SpecialsFreed(m: Vm, t: Vm, u: Vm, root: nat, n: nat)
    requires Placed(m) && Placed(t) && SpecialsOnly(m, t, root) && Users(m) && Space(m, root, n)
    requires t.node == m.node && t.spot == m.spot && t.free == m.free && Freed(t, u, root, n)
    ensures Freed(m, u, root, n)
  {
    hide Leaf, Placed, Tables, Frames, Space, Users;
    SpecialSpaces(m, t, root, n);
    SpotTables(m, t, root);
  }

  /** Freeing a space made since m leaves everything as in m. */
  lemma MadeAndFreed(m: Vm, t: Vm, u: Vm, root: nat, all: set<nat>)
    requires Tree(m) && Conserved(m, all) && Tree(u) && Conserved(u, all)
    requires forall s :: s in m.node ==> s.root != root && s in t.node && t.node[s] == m.node[s]
    requires forall s :: s in t.node && s !in m.node ==> s.root == root
    requires t.pages == m.pages && t.home == m.home
    requires Freed(t, u, root, 0)
    ensures u.node == m.node && u.pages == m.pages && u.home == m.home && FreeSet(u) == FreeSet(m)
  {
    hide Leaf, Linked, Tables;
    assert Frames(t, root, 0, 0) == {};
    assert u.node == m.node;
    assert u.tables.Keys == m.tables.Keys by {
      forall p | p in u.tables ensures p in m.tables { assert m.node[u.spot[p]] == p; }
      forall p | p in m.tables ensures p in u.tables { assert u.node[m.spot[p]] == p; }
    }
  }

  lemma UpZero(sz: nat)
    ensures sz == 0 <==> Up(sz) == 0
  {
  }

  lemma SpecialsLeft(m: Vm, t: Vm, root: nat, n: nat)
    requires Removed(m, t, root, 0, n) && n <= TRAPFRAME
    ensures Leaf(t, root, TRAPFRAME) == Leaf(m, root, TRAPFRAME)
            && Leaf(t, root, TRAMPOLINE) == Leaf(m, root, TRAMPOLINE)
  {
    hide Leaf, Frames;
  }

  lemma SpecialNone(m: Vm, root: nat)
    ensures SpecialsOnly(m, m, root)
  {
  }

  lemma AddRootParts(m: Vm)
    requires m.free != []
    ensures var t, p := AddRoot(m), m.free[0];
            t.pages == m.pages && t.home == m.home && t.node == m.node[Top(p) := p] && t.free == m.free[1..]
  {
  }

  /** An empty tree is an empty space. */
  lemma NewSpace(m: Vm, t: Vm, r: nat)
    requires Users(m) && SameLeaves(m, t) && t.pages == m.pages && t.home == m.home
    requires forall v :: 0 <= v < MAXVPN ==> Leaf(t, r, v) == 0
    ensures SpecialsOnly(m, t, r) && Users(t)
    ensures Space(m, r, 0) && Space(t, r, 0)
  {
    hide Leaf;
    SpecialSame(m, t, r);
    SpecialSpaces(m, t, r, 0);
  }

  lemma SpecialSame(m: Vm, t: Vm, r: nat)
    requires SameLeaves(m, t) && t.pages == m.pages && t.home == m.home
    ensures SpecialsOnly(m, t, r)
  {
    hide Leaf;
  }

  lemma StillSpecial(m: Vm, t: Vm, u: Vm, r: nat)
    requires SpecialsOnly(m, t, r) && SameLeaves(t, u) && u.pages == t.pages && u.home == t.home
    requires Users(m) && Space(m, r, 0)
    ensures SpecialsOnly(m, u, r) && Users(u) && Space(u, r, 0)
    ensures Leaf(u, r, TRAMPOLINE) == Leaf(t, r, TRAMPOLINE) && Leaf(u, r, TRAPFRAME) == Leaf(t, r, TRAPFRAME)
  {
    hide Leaf, Users, Space;
    assert SpecialsOnly(m, u, r);
    SpecialSpaces(m, u, r, 0);
  }

  lemma SpecialFlags()
    ensures WithV(PTE_R + PTE_X) == PTE_R + PTE_X + PTE_V && WithV(PTE_R + PTE_W) == PTE_R + PTE_W + PTE_V
    ensures !Valid(0)
  {
  }
}
