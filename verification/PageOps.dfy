/** The steps that change page tables and the free list, and what each does to the finite map
    and to the page accounting (kernel/vm.c, kernel/kalloc.c). */
module PageOps {
  import opened Machine
  import opened PageTable

  const EMPTY: seq<nat> := Zeros(ENTRIES)

  /** A page filled with one byte: kalloc and kfree fill with junk, callers with zeros. */
  function Filled(b: byte): (p: Page) { Frame(seq(PGSIZE, i requires 0 <= i < PGSIZE => b)) }

  // ----- kalloc and kfree of a page that is not a table -----

  function Take(m: Vm, contents: Page): (t: Vm)
    requires m.free != []
  {
    m.(free := m.free[1..], pages := m.pages[m.free[0] := contents])
  }

  function Give(m: Vm, p: nat): (t: Vm) {
    m.(free := [p] + m.free, pages := m.pages - {p}, home := m.home - {p})
  }

  /** The tree and its finite map are in the tables alone. */
  lemma SameTables(m: Vm, t: Vm)
    requires Tree(m) && t.tables == m.tables && t.node == m.node && t.spot == m.spot
    ensures Tree(t) && SameLeaves(m, t)
  {
    assert forall s, i :: 0 <= i < ENTRIES ==> Entry(t, s, i) == Entry(m, s, i);
    assert Placed(t);
    hide Entry, Placed;
  }

  lemma TakeKeeps(m: Vm, contents: Page, all: set<nat>)
    requires Tree(m) && Conserved(m, all) && m.free != []
    ensures Tree(Take(m, contents)) && Conserved(Take(m, contents), all) && SameLeaves(m, Take(m, contents))
    ensures m.free[0] in all && m.free[0] !in m.pages && m.free[0] !in m.tables
    ensures FreeSet(m) == FreeSet(Take(m, contents)) + {m.free[0]} && m.free[0] !in FreeSet(Take(m, contents))
  {
    hide Tree, SameLeaves;
    var t := Take(m, contents);
    SameTables(m, t);
    FreeHead(m.free);
    assert m.free[0] in FreeSet(m);
    assert t.pages.Keys == m.pages.Keys + {m.free[0]};
  }

  lemma FreeHead(free: seq<nat>)
    requires free != [] && forall i, j :: 0 <= i < j < |free| ==> free[i] != free[j]
    ensures (set p | p in free) == (set p | p in free[1..]) + {free[0]} && free[0] !in free[1..]
  {
    assert free == [free[0]] + free[1..];
  }

  lemma GiveKeeps(m: Vm, p: nat, all: set<nat>)
    requires Tree(m) && Conserved(m, all) && p in m.pages
    ensures Tree(Give(m, p)) && Conserved(Give(m, p), all) && SameLeaves(m, Give(m, p))
    ensures FreeSet(Give(m, p)) == FreeSet(m) + {p}
  {
    hide Tree, SameLeaves;
    var t := Give(m, p);
    SameTables(m, t);
    assert FreeSet(t) == FreeSet(m) + {p};
    assert t.pages.Keys == m.pages.Keys - {p};
  }

  // ----- writing a leaf entry -----

  function SetLeaf(m: Vm, root: nat, v: nat, e: nat): (t: Vm)
    requires Path(root, v, 0) in m.node && m.node[Path(root, v, 0)] in m.tables
    requires |m.tables[m.node[Path(root, v, 0)]]| == ENTRIES
  {
    var p := m.node[Path(root, v, 0)];
    var row: seq<nat> := m.tables[p][Px(0, v) := e];
    m.(tables := m.tables[p := row])
  }

  lemma SetLeafEntry(m: Vm, root: nat, v: nat, e: nat, s: Spot, i: nat)
    requires Placed(m) && Path(root, v, 0) in m.node && i < ENTRIES
    ensures m.node[Path(root, v, 0)] in m.tables && |m.tables[m.node[Path(root, v, 0)]]| == ENTRIES
    ensures Entry(SetLeaf(m, root, v, e), s, i) ==
            if s == Path(root, v, 0) && i == Px(0, v) then e else Entry(m, s, i)
  {
  }

  /** Writing a leaf entry is an update of the finite map, and of nothing else. */
  lemma SetLeafKeeps(m: Vm, root: nat, v: nat, e: nat, all: set<nat>)
    requires Tree(m) && Conserved(m, all) && Path(root, v, 0) in m.node
    ensures m.node[Path(root, v, 0)] in m.tables && |m.tables[m.node[Path(root, v, 0)]]| == ENTRIES
    ensures Tree(SetLeaf(m, root, v, e)) && Conserved(SetLeaf(m, root, v, e), all)
    ensures forall root', v' :: Leaf(SetLeaf(m, root, v, e), root', v') ==
                                if root' == root && v' == v then e else Leaf(m, root', v')
  {
    SetLeafEntry(m, root, v, e, Path(root, v, 0), 0);
    var t := SetLeaf(m, root, v, e);
    assert Placed(t);
    assert t.tables.Keys == m.tables.Keys;
    forall s, i | 0 <= i < ENTRIES
      ensures Entry(t, s, i) == if s == Path(root, v, 0) && i == Px(0, v) then e else Entry(m, s, i)
    {
      SetLeafEntry(m, root, v, e, s, i);
    }
    assert Linked(t);
    forall root', v'
      ensures Leaf(t, root', v') == if root' == root && v' == v then e else Leaf(m, root', v')
    {
      if (root', v') != (root, v) { LeafSlotsDistinct(root, v, root', v'); }
    }
  }

  // ----- a new table -----

  /** walk's allocation of the table below entry i of the table at s. */
  function AddTable(m: Vm, s: Spot, i: nat): (t: Vm)
    requires m.free != [] && s.level > 0 && s in m.node && m.node[s] in m.tables
    requires i < |m.tables[m.node[s]]|
  {
    var p, b := m.free[0], Below(s, i);
    var up := m.node[s];
    var row: seq<nat> := m.tables[up][i := Pte(p, PTE_V)];
    m.(free := m.free[1..],
       tables := m.tables[p := EMPTY][up := row],
       node := m.node[b := p], spot := m.spot[p := b])
  }

  ghost predicate CanAdd(m: Vm, s: Spot, i: nat, all: set<nat>) {
    && Tree(m) && Conserved(m, all) && m.free != [] && 0 < s.level <= 2 && s in m.node && i < ENTRIES
    && Below(s, i) !in m.node && (s.level == 1 ==> Below(s, i).prefix < MAXVPN / ENTRIES)
  }

  lemma AddTableEntry(m: Vm, s: Spot, i: nat, all: set<nat>, s': Spot, i': nat)
    requires CanAdd(m, s, i, all) && i' < ENTRIES
    ensures m.node[s] in m.tables && i < |m.tables[m.node[s]]|
    ensures Entry(AddTable(m, s, i), s', i') ==
            if s' == Below(s, i) then 0
            else if s' == s && i' == i then Pte(m.free[0], PTE_V) else Entry(m, s', i')
  {
    hide Linked;
    assert m.free[0] in FreeSet(m);
  }

  lemma AddTablePlaced(m: Vm, s: Spot, i: nat, all: set<nat>)
    requires CanAdd(m, s, i, all)
    ensures m.node[s] in m.tables && i < |m.tables[m.node[s]]|
    ensures Placed(AddTable(m, s, i)) && Conserved(AddTable(m, s, i), all)
    ensures FreeSet(m) == FreeSet(AddTable(m, s, i)) + {m.free[0]}
    ensures AddTable(m, s, i).tables.Keys == m.tables.Keys + {m.free[0]}
  {
    hide Linked;
    FreeHead(m.free);
    var t := AddTable(m, s, i);
    assert m.free[0] in FreeSet(m);
    assert t.tables.Keys == m.tables.Keys + {m.free[0]} && t.spot.Keys == m.spot.Keys + {m.free[0]};
    AddConserved(m, t, all);
    hide Conserved;
  }

  lemma AddConserved(m: Vm, t: Vm, all: set<nat>)
    requires Conserved(m, all) && m.free != [] && t.free == m.free[1..] && t.pages == m.pages
    requires t.tables.Keys == m.tables.Keys + {m.free[0]}
    ensures Conserved(t, all) && FreeSet(m) == FreeSet(t) + {m.free[0]}
  {
    FreeHead(m.free);
  }

  /** Allocating an intermediate table never changes the finite map. */
  lemma AddTableKeeps(m: Vm, s: Spot, i: nat, all: set<nat>)
    requires CanAdd(m, s, i, all)
    ensures m.node[s] in m.tables && i < |m.tables[m.node[s]]|
    ensures Tree(AddTable(m, s, i)) && Conserved(AddTable(m, s, i), all) && SameLeaves(m, AddTable(m, s, i))
    ensures FreeSet(m) == FreeSet(AddTable(m, s, i)) + {m.free[0]}
  {
    hide Placed, Conserved;
    AddTablePlaced(m, s, i, all);
    var t := AddTable(m, s, i);
    forall s', i' | 0 <= i' < ENTRIES
      ensures Entry(t, s', i') ==
              if s' == Below(s, i) then 0
              else if s' == s && i' == i then Pte(m.free[0], PTE_V) else Entry(m, s', i')
    {
      AddTableEntry(m, s, i, all, s', i');
    }
    hide Entry;
    AddTableLinked(m, s, i, t);
  }

  lemma AddTableLinked(m: Vm, s: Spot, i: nat, t: Vm)
    requires Linked(m) && 0 < s.level <= 2 && s in m.node && i < ENTRIES && m.free != []
    requires s.level == 1 ==> Below(s, i).prefix < MAXVPN / ENTRIES
    requires Below(s, i) !in m.node && t.node == m.node[Below(s, i) := m.free[0]]
    requires forall s', i' :: 0 <= i' < ENTRIES ==>
               Entry(t, s', i') == if s' == Below(s, i) then 0
                                   else if s' == s && i' == i then Pte(m.free[0], PTE_V) else Entry(m, s', i')
    ensures Linked(t)
  {
    hide Entry, Pte;
    forall s', i' | s' in t.node && 0 < s'.level <= 2 && 0 <= i' < ENTRIES
      ensures if Below(s', i') in t.node then Entry(t, s', i') == Pte(t.node[Below(s', i')], PTE_V)
              else !Valid(Entry(t, s', i'))
    {
      AddTableDown(m, s, i, t, s', i');
    }
    PrefixUp(s, i);
  }

  lemma AddTableDown(m: Vm, s: Spot, i: nat, t: Vm, s': Spot, i': nat)
    requires Linked(m) && 0 < s.level <= 2 && s in m.node && i < ENTRIES && m.free != []
    requires Below(s, i) !in m.node && t.node == m.node[Below(s, i) := m.free[0]]
    requires s' in t.node && 0 < s'.level <= 2 && i' < ENTRIES
    requires Entry(t, s', i') == if s' == Below(s, i) then 0
                                 else if s' == s && i' == i then Pte(m.free[0], PTE_V) else Entry(m, s', i')
    ensures if Below(s', i') in t.node then Entry(t, s', i') == Pte(t.node[Below(s', i')], PTE_V)
            else !Valid(Entry(t, s', i'))
  {
    hide Entry, Pte;
    BelowInjective(s, i, s', i');
    if s' == Below(s, i) && Below(s', i') in t.node {
      ParentOf(m, s', i');
    }
  }

  lemma BelowInjective(s: Spot, i: nat, s': Spot, i': nat)
    requires s.level > 0 && s'.level > 0 && i < ENTRIES && i' < ENTRIES
    ensures Below(s, i) == Below(s', i') <==> s == s' && i == i'
  {
  }

  lemma PrefixUp(s: Spot, i: nat)
    requires s.level > 0 && i < ENTRIES
    ensures Below(s, i).prefix / ENTRIES == s.prefix
  {
  }

  lemma ParentOf(m: Vm, s: Spot, i: nat)
    requires Linked(m) && 0 < s.level <= 2 && i < ENTRIES && Below(s, i) in m.node
    ensures s in m.node
  {
    PrefixUp(s, i);
    var b := Below(s, i);
    assert s == Spot(b.root, b.level + 1, b.prefix / ENTRIES);
  }
}
