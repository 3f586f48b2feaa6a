/** Three-level page tables over the physical page free list (kernel/vm.c, kernel/kalloc.c,
    kernel/riscv.h), as pure state: the tree and the finite map it stands for.  Physical
    pages are named by page number and virtual pages by virtual page number; the format
    is Sv39, section 4.4 of the RISC-V Privileged Architecture specification. */
module PageTable {
  import opened Machine

  const PGSIZE := 4096
  const ENTRIES := 512
  const MAXVPN := 0x400_0000        // MAXVA / PGSIZE
  const TRAMPOLINE := MAXVPN - 1    // the two special pages at the top
  const TRAPFRAME := MAXVPN - 2

  const PTE_V := 1
  const PTE_R := 2
  const PTE_W := 4
  const PTE_X := 8
  const PTE_U := 16
  const USER := PTE_W + PTE_X + PTE_R + PTE_U

  datatype Frame = Frame(bytes: seq<byte>)
  type Page = f: Frame | |f.bytes| == PGSIZE witness Frame(seq(PGSIZE, _ => 0))

  // ----- entries: PA2PTE(pa) | flags, PTE2PA, PTE_FLAGS -----

  function Pte(ppn: nat, flags: nat): (e: nat) { ppn * 1024 + flags }
  function Ppn(e: nat): (p: nat) { e / 1024 }
  function Flags(e: nat): (f: nat) { e % 1024 }
  predicate Valid(e: nat) { e % 2 == 1 }
  predicate HasU(e: nat) { e / 16 % 2 == 1 }

  /** One of R, W, X is set. */
  predicate IsLeaf(e: nat) { e / 2 % 8 != 0 }

  // ----- where a table is in its tree -----

  /** The table of a level for the virtual pages starting with `prefix`. */
  datatype Spot = Spot(root: nat, level: nat, prefix: nat)

  function Top(root: nat): (s: Spot) { Spot(root, 2, 0) }
  function Below(s: Spot, i: nat): (t: Spot)
    requires s.level > 0
  {
    Spot(s.root, s.level - 1, s.prefix * ENTRIES + i)
  }

  /** The spots on the way to virtual page v, and the index taken at each: PX(level, va). */
  function Path(root: nat, v: nat, level: nat): (s: Spot)
    requires level <= 2
    ensures s.root == root && s.level == level
  {
    if level == 2 then Spot(root, 2, v / 0x800_0000) else
    if level == 1 then Spot(root, 1, v / 0x4_0000) else Spot(root, 0, v / ENTRIES)
  }

  function Px(level: nat, v: nat): (i: nat)
    requires level <= 2
    ensures i < ENTRIES
  {
    (if level == 2 then v / 0x4_0000 else if level == 1 then v / ENTRIES else v) % ENTRIES
  }

  lemma PathDown(root: nat, v: nat)
    requires v < MAXVPN
    ensures Path(root, v, 2) == Top(root)
    ensures Below(Path(root, v, 2), Px(2, v)) == Path(root, v, 1)
    ensures Below(Path(root, v, 1), Px(1, v)) == Path(root, v, 0)
  {
    assert v / 0x4_0000 < ENTRIES;
    assert v / ENTRIES / ENTRIES == v / 0x4_0000;
  }

  /** PXSHIFT as a power of two. */
  function Shift(level: nat): (d: nat)
    requires level <= 2
    ensures d > 0
  {
    if level == 2 then 0x4000_0000 else if level == 1 then 0x20_0000 else 0x1000
  }

  /** The index taken at a level is PX(level, va): nine bits of the address. */
  lemma PxIsBits(level: nat, va: nat)
    requires level <= 2
    ensures Px(level, va / PGSIZE) == va / Shift(level) % ENTRIES
  {
    if level == 2 {
      assert va / PGSIZE / 0x4_0000 == va / 0x4000_0000;
    } else if level == 1 {
      assert va / PGSIZE / ENTRIES == va / 0x20_0000;
    }
  }

  /** The three indices are the whole page number. */
  lemma IndicesRebuild(v: nat)
    requires v < MAXVPN
    ensures v == Px(2, v) * 0x4_0000 + Px(1, v) * ENTRIES + Px(0, v)
  {
    assert v / 0x4_0000 < ENTRIES;
    assert v / ENTRIES / ENTRIES == v / 0x4_0000;
  }

  // ----- the state -----

  /** A user page of an address space. */
  datatype Home = Home(root: nat, v: nat)

  /** `free` is the free list; `tables` and `pages` are the pages in use as page tables and
      as anything else; `node` and its inverse `spot` say where each table is; `home`
      gives the address space page a user page belongs to. */
  datatype Vm = Vm(free: seq<nat>, tables: map<nat, seq<nat>>, pages: map<nat, Page>,
                   node: map<Spot, nat>, spot: map<nat, Spot>, home: map<nat, Home>)

  /** Every table has one place in one tree. */
  ghost predicate Placed(m: Vm) {
    && m.spot.Keys == m.tables.Keys
    && (forall p :: p in m.tables ==> |m.tables[p]| == ENTRIES)
    && (forall p :: p in m.spot ==> m.spot[p] in m.node && m.node[m.spot[p]] == p)
    && (forall s :: s in m.node ==> m.node[s] in m.spot && m.spot[m.node[s]] == s)
  }

  /** The entry of the table at spot s. */
  function Entry(m: Vm, s: Spot, i: nat): (e: nat)
    requires i < ENTRIES
  {
    if s in m.node && m.node[s] in m.tables && i < |m.tables[m.node[s]]| then m.tables[m.node[s]][i] else 0
  }

  /** Upper entries are valid exactly when the table below is there, and then point to it;
      every table but the top has its parent, and none is for addresses beyond MAXVA. */
  ghost predicate Linked(m: Vm) {
    && (forall s, i :: s in m.node && 0 < s.level <= 2 && 0 <= i < ENTRIES ==>
          if Below(s, i) in m.node then Entry(m, s, i) == Pte(m.node[Below(s, i)], PTE_V)
          else !Valid(Entry(m, s, i)))
    && (forall s :: s in m.node ==> s.level <= 2 && (s.level == 2 ==> s == Top(m.node[s])))
    && (forall s :: s in m.node && s.level == 0 ==> s.prefix < MAXVPN / ENTRIES)
    && (forall s :: s in m.node && s.level < 2 ==>
          Spot(s.root, s.level + 1, s.prefix / ENTRIES) in m.node)
  }

  ghost predicate Tree(m: Vm)
    ensures Tree(m) ==> Placed(m) && Linked(m)
  {
    Placed(m) && Linked(m)
  }

  /** The finite map: the leaf entry of virtual page v in the tree of `root`, 0 if none. */
  function Leaf(m: Vm, root: nat, v: nat): (e: nat) {
    Entry(m, Path(root, v, 0), Px(0, v))
  }

  ghost predicate SameLeaves(m: Vm, t: Vm) {
    forall root, v :: 0 <= v < MAXVPN ==> Leaf(t, root, v) == Leaf(m, root, v)
  }

  /** Distinct virtual pages have distinct leaf entries. */
  lemma LeafSlotsDistinct(root: nat, v: nat, root': nat, v': nat)
    requires (root, v) != (root', v')
    ensures Path(root, v, 0) != Path(root', v', 0) || Px(0, v) != Px(0, v')
  {
    assert v == v / ENTRIES * ENTRIES + v % ENTRIES && v' == v' / ENTRIES * ENTRIES + v' % ENTRIES;
  }

  // ----- pages are conserved -----

  ghost function FreeSet(m: Vm): (s: set<nat>) { set p | p in m.free }

  /** Every page is free, or a table, or in other use, and only one of these; the free list
      names no page twice. */
  ghost predicate Conserved(m: Vm, all: set<nat>) {
    && (forall i, j :: 0 <= i < j < |m.free| ==> m.free[i] != m.free[j])
    && FreeSet(m) !! m.tables.Keys && FreeSet(m) !! m.pages.Keys && m.tables.Keys !! m.pages.Keys
    && FreeSet(m) + m.tables.Keys + m.pages.Keys == all
  }
}
