/** The code of the virtual memory system (kernel/vm.c) over the page allocator
    (kernel/kalloc.c), and of growproc, proc_pagetable and proc_freepagetable
    (kernel/proc.c). */
module VirtualMemory {
  import opened Machine
  import opened PageTable
  import opened PageOps
  import opened PageWalk
  import opened PageCount
  import opened AddressSpace
  import opened TableFree
  import opened UserCopy

  class Memory {
    ghost const all: set<nat>
    var free: seq<nat>              // kmem.freelist
    var tables: map<nat, seq<nat>>
    var pages: map<nat, Page>
    ghost var st: Vm                // the whole state

    ghost predicate Ok()
      reads this
      ensures Ok() ==> Tree(st) && Conserved(st, all)
    {
      st.free == free && st.tables == tables && st.pages == pages && Tree(st) && Conserved(st, all)
    }

    /** kinit and freerange over the bytes from paStart to paEnd: every whole page is free. */
    constructor (paStart: nat, paEnd: nat)
      ensures Ok() && st.node == map[] && st.pages == map[] && FreeSet(st) == all
      ensures forall p :: p in all <==> paStart <= p * PGSIZE && p * PGSIZE + PGSIZE <= paEnd
    {
      all := set p: nat | p <= paEnd && paStart <= p * PGSIZE && p * PGSIZE + PGSIZE <= paEnd;
      free, tables, pages := [], map[], map[];
      st := Vm([], map[], map[], map[], map[], map[]);
      new;
      var p := Up(paStart);
      forall q: nat | q < p ensures paStart > q * PGSIZE { UpIsFirst(paStart, q); }
      while p * PGSIZE + PGSIZE <= paEnd
        invariant Up(paStart) <= p && free == st.free && tables == st.tables == map[] && pages == st.pages == map[]
        invariant st.node == map[] && st.spot == map[] && (free == [] || p * PGSIZE <= paEnd)
        invariant forall i :: 0 <= i < |free| ==> free[i] < p
        invariant forall q: nat :: q in free <==> q < p && paStart <= q * PGSIZE
        invariant forall i, j :: 0 <= i < j < |free| ==> free[i] != free[j]
        decreases paEnd - p * PGSIZE
      {
        UpIsFirst(paStart, p);
        free := [p] + free;
        st := st.(free := free);
        p := p + 1;
      }
      assert forall q: nat :: q in free <==> q in all;
    }

    /** walk: the leaf slot of virtual page v, with missing tables allocated on request.  The
        finite map never changes; it fails only when a table is missing, and when allocating
        exactly when more tables are missing than pages are free. */
    method Walk(root: nat, v: nat, alloc: bool) returns (r: Walked)
      requires Ok() && Top(root) in st.node
      modifies this
      ensures r.Panic? <==> v >= MAXVPN
      ensures Ok() && Deeper(old(st), st, all) && OnlyIn(old(st), st, root)
      ensures r.At? ==> Path(root, v, 0) in st.node && r.table == st.node[Path(root, v, 0)] && r.index == Px(0, v)
      ensures r.At? ==> r.table in tables && |tables[r.table]| == ENTRIES
      ensures r.At? ==> tables[r.table][r.index] == Leaf(old(st), root, v)
      ensures !alloc || r.Panic? ==> st == old(st)
      ensures r.Missing? ==> Path(root, v, 0) !in old(st).node && (alloc ==> st.free == [])
      ensures alloc && r.At? ==> st.node.Keys == old(st).node.Keys + Spots(root, v)
      ensures alloc && v < MAXVPN ==> (r.At? <==> TablesFor(old(st), root, v) <= |old(st).free|)
      ensures r.Missing? ==> Leaf(old(st), root, v) == 0 && !Valid(0)
    {
      hide Path, Px, Valid, IsLeaf, Flags, Ppn, Pte, Placed, Linked, Entry, Tree, Leaf, SameLeaves,
           FreeSet, Conserved, Top, Filled, CanAdd, Deeper, Stored, WithV, UserPage, Users, Space, Frames,
           Added, Removed, Grown, SameMap, Up;
      hide Spots, TablesFor, PagesFor, Toward, Fed;
      ghost var m := st;
      DeeperRefl(m, all);
      TowardStart(m, root, v);
      if v >= MAXVPN { return Panic; }
      PathDown(root, v);
      var pagetable := root;
      TopNode(m, root);
      var level := 2;
      while level > 0
        invariant 0 <= level <= 2 && Ok() && Deeper(m, st, all) && OnlyIn(m, st, root) && (!alloc ==> st == m)
        invariant Toward(m, st, root, v)
        invariant Path(root, v, level) in st.node && pagetable == st.node[Path(root, v, level)]
        decreases level
      {
        ghost var s := Path(root, v, level);
        var i := Px(level, v);
        DownFacts(st, root, v, level);
        var pte := tables[pagetable][i];
        if Valid(pte) {
          pagetable := Ppn(pte);
        } else {
          if !alloc || free == [] {
            MissingBelow(m, st, root, v, level, all);
            NoTableNoLeaf(m, root, v);
            if alloc { WalkStuck(m, st, root, v, level - 1, all); }
            return Missing;
          }
          ghost var t := st;
          AddReady(t, root, v, level, all);
          pagetable := NewTable(pagetable, i, s);
          DeeperTrans(m, t, st, all);
          TowardStep(m, t, st, root, v, level - 1, pagetable);
        }
        level := level - 1;
      }
      LeafFacts(m, st, root, v, all);
      WalkFound(m, st, root, v, all);
      return At(pagetable, Px(0, v));
    }

    /** walk's kalloc of a page-table page, entered at index i of table `up`. */
    method NewTable(up: nat, i: nat, ghost s: Spot) returns (p: nat)
      requires Ok() && CanAdd(st, s, i, all) && up == st.node[s]
      modifies this
      ensures Ok() && Deeper(old(st), st, all) && Below(s, i) in st.node && p == st.node[Below(s, i)]
      ensures st.node == old(st).node[Below(s, i) := p]
    {
      hide Path, Px, Valid, IsLeaf, Flags, Ppn, Placed, Linked, Entry, Tree, Leaf, SameLeaves, FreeSet,
           Conserved, Top, Filled, CanAdd, Deeper, Stored, WithV, UserPage, Users, Space, Frames, Added,
           Removed, Grown, SameMap, Up;
      AddFacts(st, s, i, all);
      DeeperAdd(st, s, i, all);
      p := free[0];
      free := free[1..];
      var row: seq<nat> := tables[up][i := Pte(p, PTE_V)];
      tables := tables[p := EMPTY][up := row];
      st := AddTable(st, s, i);
    }

    /** kalloc: the head of the free list, or -1. */
    method Kalloc() returns (p: int)
      requires Ok()
      modifies this
      ensures p == -1 <==> old(st).free == []
      ensures Ok() && (p == -1 ==> st == old(st))
      ensures p != -1 ==> old(st).free != [] && p == old(st).free[0] && st == Take(old(st), Filled(5))
      ensures p != -1 ==> st.free == old(st).free[1..] && p in st.pages && st.pages[p] == Filled(5)
    {
      hide Tree, Conserved, SameLeaves;
      if free == [] { return -1; }
      TakeKeeps(st, Filled(5), all);
      p := free[0];
      free := free[1..];
      pages := pages[p := Filled(5)];
      st := Take(st, Filled(5));
    }

    /** kfree of a page in use that is no table. */
    method Kfree(p: nat)
      requires Ok() && p in st.pages
      modifies this
      ensures st == Give(old(st), p) && Ok() && st.free == [p] + old(st).free && p !in st.pages
    {
      hide Tree, Conserved, SameLeaves;
      GiveKeeps(st, p, all);
      free := [p] + free;
      pages := pages - {p};
      st := Give(st, p);
    }

    /** One iteration of mappages: the entry of virtual page v, when walk finds room for it. */
    method MapPage(root: nat, v: nat, ppn: nat, perm: nat) returns (r: Mapping)
      requires Ok() && Top(root) in st.node && perm < 1024
      modifies this
      ensures Ok() && Top(root) in st.node && st.pages == old(st).pages && st.home == old(st).home
              && FreeSet(st) <= FreeSet(old(st))
      ensures r.Done? ==> v < MAXVPN && !Valid(Leaf(old(st), root, v))
      ensures r.Done? ==> Stored(old(st), st, root, v, Pte(ppn, WithV(perm)))
      ensures !r.Done? ==> SameLeaves(old(st), st)
      ensures r.NoMemory? ==> st.free == []
      ensures v < MAXVPN ==> (r.NoMemory? <==> TablesFor(old(st), root, v) > |old(st).free|)
      ensures r.Done? ==> st.node.Keys == old(st).node.Keys + Spots(root, v)
      ensures r.Fault? <==> v >= MAXVPN || (Valid(Leaf(old(st), root, v)) && !r.NoMemory?)
      ensures forall s :: s in old(st).node ==> s in st.node && st.node[s] == old(st).node[s]
      ensures OnlyIn(old(st), st, root)
    {
      hide Valid, IsLeaf, Flags, Ppn, Pte, Placed, Linked, Entry, Tree, Leaf, SameLeaves, FreeSet,
           Conserved, Top, Filled, CanAdd, Stored, WithV, UserPage, Users, Space, Frames, Added, Removed,
           Grown, SameMap, Up;
      hide Spots, TablesFor, PagesFor, Toward, Fed;
      ghost var m := st;
      var w := Walk(root, v, true);
      if w.Panic? { SameIsSame(m); return Fault; }
      if w.Missing? { return NoMemory; }
      if Valid(tables[w.table][w.index]) { return Fault; }
      ghost var t := st;
      SetLeafKeeps(t, root, v, Pte(ppn, WithV(perm)), all);
      StoredDeeper(m, t, root, v, Pte(ppn, WithV(perm)), all);
      var row: seq<nat> := tables[w.table][w.index := Pte(ppn, WithV(perm))];
      tables := tables[w.table := row];
      st := SetLeaf(st, root, v, Pte(ppn, WithV(perm)));
      return Done;
    }

    /** mappages of `size` bytes at byte address va onto the physical pages from ppn on: the
        virtual pages they lie in are mapped to consecutive physical pages.  Running out of
        memory leaves the first k of them mapped; a panic means the next is mapped already
        or beyond MAXVA. */
    method Mappages(root: nat, va: nat, size: nat, ppn: nat, perm: nat) returns (r: Mapping, ghost k: nat)
      requires Ok() && Top(root) in st.node && perm < 1024
      modifies this
      ensures Ok() && Top(root) in st.node && st.pages == old(st).pages && st.home == old(st).home
      ensures va / PGSIZE <= k && Mapped(old(st), st, root, va / PGSIZE, k, ppn, WithV(perm))
      ensures r.Done? ==> k == (va + size - 1) / PGSIZE + 1 <= MAXVPN
      ensures r.NoMemory? ==> st.free == []
      ensures r.Fault? ==> k >= MAXVPN || Valid(Leaf(old(st), root, k))
      ensures r.Done? ==> forall v :: va / PGSIZE <= v < k ==> !Valid(Leaf(old(st), root, v))
    {
      hide Path, Px, Valid, IsLeaf, Flags, Ppn, Pte, Placed, Linked, Entry, Tree, Leaf, SameLeaves,
           FreeSet, Conserved, Top, Filled, CanAdd, Deeper, Stored, WithV, UserPage, Users, Space, Frames,
           Added, Removed, Grown, SameMap, Up, Mapped, Ok;
      ghost var m := st;
      var lo := va / PGSIZE;
      var a, pa, last := lo, ppn, (va + size - 1) / PGSIZE;
      MappedNone(m, root, lo, ppn, WithV(perm));
      while true
        invariant Ok() && Top(root) in st.node && st.pages == m.pages && st.home == m.home
        invariant lo <= a <= MAXVPN + lo && pa == ppn + (a - lo) && Mapped(m, st, root, lo, a, ppn, WithV(perm))
        invariant a > lo ==> a <= MAXVPN
        invariant forall v :: lo <= v < a ==> !Valid(Leaf(m, root, v))
        decreases MAXVPN + lo - a
      {
        ghost var t := st;
        MappedStill(m, t, root, lo, a, ppn, WithV(perm));
        r := MapPage(root, a, pa, perm);
        k := a;
        if !r.Done? {
          MappedSame(m, t, st, root, lo, a, ppn, WithV(perm));
          return;
        }
        MappedMore(m, t, st, root, lo, a, ppn, WithV(perm));
        if a == last {
          k := a + 1;
          return;
        }
        a, pa := a + 1, pa + 1;
      }
    }

    /** One iteration of uvmunmap: it panics exactly when there is no leaf entry. */
    method UnmapPage(root: nat, v: nat, doFree: bool) returns (ok: bool)
      requires Ok() && Top(root) in st.node
      requires doFree && v < MAXVPN && Valid(Leaf(st, root, v)) ==> Ppn(Leaf(st, root, v)) in st.pages
      modifies this
      ensures ok <==> LeafMapped(old(st), root, v)
      ensures Ok() && (!ok ==> st == old(st))
      ensures ok ==> st.node == old(st).node && st.spot == old(st).spot && Stored(old(st), st, root, v, 0)
      ensures ok && !doFree ==> st.pages == old(st).pages && st.home == old(st).home && st.free == old(st).free
      ensures ok && doFree ==>
                var p := Ppn(Leaf(old(st), root, v));
                st.pages == old(st).pages - {p} && st.home == old(st).home - {p} && st.free == [p] + old(st).free
    {
      hide Px, Valid, IsLeaf, Flags, Ppn, Pte, Placed, Linked, Entry, Tree, Leaf, SameLeaves, FreeSet,
           Conserved, Top, Filled, CanAdd, Deeper, Stored, WithV, UserPage, Users, Space, Frames, Added,
           Removed, Grown, SameMap, Up;
      ghost var m := st;
      var w := Walk(root, v, false);
      if w.Panic? { return false; }
      if w.Missing? { return false; }
      var pte := tables[w.table][w.index];
      if !Valid(pte) { return false; }
      if Flags(pte) == PTE_V { return false; }
      SameIsSame(m);
      if doFree {
        GiveKeeps(m, Ppn(pte), all);
        Kfree(Ppn(pte));
      }
      ghost var t := st;
      SetLeafKeeps(t, root, v, 0, all);
      StoredSame(m, t, root, v, 0);
      var row: seq<nat> := tables[w.table][w.index := 0];
      tables := tables[w.table := row];
      st := SetLeaf(st, root, v, 0);
      return true;
    }

    /** uvmunmap without do_free: it panics exactly when one of the n pages has no leaf entry. */
    method UvmunmapKeep(root: nat, lo: nat, n: nat) returns (ok: bool)
      requires Ok() && Top(root) in st.node
      modifies this
      ensures Ok() && st.node == old(st).node && st.pages == old(st).pages && st.free == old(st).free
      ensures ok <==> forall v :: lo <= v < lo + n ==> LeafMapped(old(st), root, v)
      ensures ok ==> Unmapped(old(st), st, root, lo, lo + n)
    {
      hide Path, Px, Valid, IsLeaf, Flags, Ppn, Pte, Placed, Linked, Entry, Tree, Leaf, SameLeaves,
           FreeSet, Conserved, Top, Filled, CanAdd, Deeper, Stored, WithV, UserPage, Users, Space, Frames,
           Added, Removed, Grown, SameMap, Up, Unmapped, Ok;
      ghost var m := st;
      UnmappedNone(m, root, lo);
      var a := lo;
      while a < lo + n
        invariant lo <= a <= lo + n && Ok() && st.node == m.node && st.pages == m.pages && st.free == m.free
        invariant Unmapped(m, st, root, lo, a)
        invariant forall v :: lo <= v < a ==> LeafMapped(m, root, v)
      {
        ghost var t := st;
        UnmappedStill(m, t, root, lo, a);
        ok := UnmapPage(root, a, false);
        if !ok { return; }
        UnmappedMore(m, t, st, root, lo, a);
        a := a + 1;
      }
      return true;
    }

    /** One iteration of uvmunmap with do_free, on page a, the user pages from lo gone. */
    method UnmapNext(root: nat, a: nat, ghost m: Vm, ghost lo: nat) returns (ok: bool)
      requires Ok() && Top(root) in st.node && Users(m) && lo <= a < TRAPFRAME
      requires forall v :: lo <= v < a ==> UserPage(m, root, v)
      requires Valid(Leaf(m, root, a)) ==> UserPage(m, root, a)
      requires Removed(m, st, root, lo, a) && FreeSet(st) == FreeSet(m) + Frames(m, root, lo, a)
      modifies this
      ensures Ok() && st.node == old(st).node && st.spot == old(st).spot
      ensures ok <==> UserPage(m, root, a)
      ensures !ok ==> st == old(st)
      ensures ok ==> Removed(m, st, root, lo, a + 1) && FreeSet(st) == FreeSet(m) + Frames(m, root, lo, a + 1)
    {
      hide Path, Px, Valid, IsLeaf, Flags, Ppn, Pte, Placed, Linked, Entry, Tree, Leaf, SameLeaves,
           FreeSet, Conserved, Top, Filled, CanAdd, Deeper, Stored, WithV, UserPage, Users, Space, Frames,
           Added, Removed, Grown, SameMap, Up, Ok, LeafMapped;
      ghost var t := st;
      StillUser(m, t, root, lo, a);
      ok := UnmapPage(root, a, true);
      if !ok { return; }
      RemovedMore(m, t, st, root, lo, a);
      FramesMore(m, t, st, root, lo, a);
    }

    /** uvmunmap with do_free, where what is mapped are user pages: it panics exactly when one
        of the pages lo to lo + n is not mapped, the ones before it gone.  Otherwise they all
        go, and their physical pages are freed, each once. */
    method UvmunmapFree(root: nat, lo: nat, n: nat) returns (ok: bool, ghost k: nat)
      requires Ok() && Top(root) in st.node && Users(st) && lo + n <= TRAPFRAME
      requires forall v :: lo <= v < lo + n && Valid(Leaf(st, root, v)) ==> UserPage(st, root, v)
      modifies this
      ensures Ok() && st.node == old(st).node && st.spot == old(st).spot && Users(st)
      ensures ok <==> forall v :: lo <= v < lo + n ==> UserPage(old(st), root, v)
      ensures lo <= k <= lo + n && (forall v :: lo <= v < k ==> UserPage(old(st), root, v))
      ensures if ok then k == lo + n else k < lo + n && !UserPage(old(st), root, k)
      ensures Removed(old(st), st, root, lo, k)
      ensures FreeSet(st) == FreeSet(old(st)) + Frames(old(st), root, lo, k)
    {
      hide Path, Px, Valid, IsLeaf, Flags, Ppn, Pte, Placed, Linked, Entry, Tree, Leaf, SameLeaves,
           FreeSet, Conserved, Top, Filled, CanAdd, Deeper, Stored, WithV, UserPage, Users, Space, Frames,
           Added, Removed, Grown, SameMap, Up, Ok, LeafMapped;
      ghost var m := st;
      RemovedNone(m, root, lo);
      NoFrames(m, root, lo);
      var a := lo;
      while a < lo + n
        invariant lo <= a <= lo + n && Ok() && st.node == m.node && st.spot == m.spot
        invariant Removed(m, st, root, lo, a) && forall v :: lo <= v < a ==> UserPage(m, root, v)
        invariant FreeSet(st) == FreeSet(m) + Frames(m, root, lo, a)
      {
        k := a;
        ok := UnmapNext(root, a, m, lo);
        if !ok {
          RemovedKeeps(m, st, root, lo, a);
          return;
        }
        a := a + 1;
      }
      RemovedKeeps(m, st, root, lo, lo + n);
      ok, k := true, lo + n;
    }

    /** kalloc, fill, mappages, and kfree if that fails: the loop body of uvmalloc and of
        uvmcopy.  Success adds one user page; failure changes no mapping and no page in use, and comes
        exactly when the page and its tables are more than there are free pages.  mappages'
        panics are not reached. */
    method AddPage(root: nat, v: nat, contents: Page, perm: nat) returns (ok: bool, p: int)
      requires Ok() && Top(root) in st.node && Users(st) && v < TRAPFRAME && !Valid(Leaf(st, root, v))
      requires perm < 1024 && IsLeaf(perm)
      modifies this
      ensures Ok() && Top(root) in st.node && Users(st)
      ensures forall s :: s in old(st).node ==> s in st.node
      ensures ok ==> p >= 0 && Added(old(st), st, root, v, p, WithV(perm)) && st.pages[p] == contents
      ensures ok <==> 1 + TablesFor(old(st), root, v) <= |old(st).free|
      ensures ok ==> st.node.Keys == old(st).node.Keys + Spots(root, v)
      ensures !ok ==> SameLeaves(old(st), st) && st.pages == old(st).pages && st.home == old(st).home
    {
      hide Path, Px, Valid, IsLeaf, Flags, Ppn, Pte, Placed, Linked, Entry, Tree, Leaf, SameLeaves,
           FreeSet, Conserved, Top, Filled, CanAdd, Deeper, Stored, WithV, UserPage, Users, Space, Frames,
           Added, Removed, Grown, SameMap, Up;
      hide Spots, TablesFor, PagesFor, Toward, Fed;
      ghost var m := st;
      SameIsSame(m);
      p := Kalloc();
      if p == -1 { return false, -1; }
      Taken(m, contents, root, v, all);
      pages := pages[p := contents];
      st := Take(m, contents);
      ghost var t := st;
      SameTablesFor(m, t, root, v);
      LeafWithV(perm);
      var r := MapPage(root, v, p, perm);
      if r.Done? {
        ghost var u := st;
        st := st.(home := st.home[p := Home(root, v)]);
        Rehomed(u, st, all);
        StoredRehomed(t, u, st, root, v, Pte(p, WithV(perm)));
        AddedNow(m, t, st, root, v, p, WithV(perm));
        return true, p;
      }
      assert r.NoMemory?;
      ghost var u := st;
      GiveKeeps(u, p, all);
      Kfree(p);
      NotAddedAfterAll(m, t, u, st, p);
      return false, -1;
    }

    /** One iteration of uvmalloc: virtual page a, the space having grown from lo. */
    method GrowNext(root: nat, a: nat, ghost m: Vm, ghost lo: nat) returns (ok: bool)
      requires Ok() && Top(root) in st.node && Users(st) && |all| < TRAPFRAME && lo <= a
      requires Grown(m, st, root, lo, a) && Space(st, root, a) && Fed(m, st, root, lo, a) && Usable(st, root, lo, a)
      requires forall p :: p in st.pages && p !in m.pages ==> st.pages[p] == Filled(0)
      modifies this
      ensures Ok() && Top(root) in st.node && Users(st)
      ensures ok ==> Grown(m, st, root, lo, a + 1) && Space(st, root, a + 1)
      ensures ok ==> forall p :: p in st.pages && p !in m.pages ==> st.pages[p] == Filled(0)
      ensures ok ==> Fed(m, st, root, lo, a + 1) && Usable(st, root, lo, a + 1)
      ensures ok <==> 1 + TablesFor(old(st), root, a) <= |old(st).free|
      ensures !ok ==> Grown(m, st, root, lo, a)
      ensures a < TRAPFRAME
    {
      hide Path, Px, Valid, IsLeaf, Flags, Ppn, Pte, Placed, Linked, Entry, Tree, Leaf, SameLeaves,
           FreeSet, Conserved, Top, Filled, CanAdd, Deeper, Stored, WithV, UserPage, Users, Space, Frames,
           Added, Removed, Grown, SameMap, Up, Ok;
      hide Spots, TablesFor, PagesFor, Toward, Fed, Usable;
      ghost var t := st;
      RoomLeft(t, root, a, all);
      UserFlags();
      var p;
      ok, p := AddPage(root, a, Filled(0), USER);
      if ok {
        GrownMore(m, t, st, root, lo, a, p, WithV(USER));
        AddedSpace(t, st, root, a, p, WithV(USER), root, a);
        AddedContents(t, st, root, a, p, WithV(USER));
        AddedPage(t, st, root, a, p, WithV(USER));
        FedMore(m, t, st, root, lo, a, p);
        UsableMore(t, st, root, lo, a, p);
      } else {
        GrownSame(m, t, st, root, lo, a);
      }
    }

    /** uvmalloc's uvmdealloc on failure. */
    method Rollback(root: nat, a: nat, ghost m: Vm, lo: nat)
      requires Ok() && Top(root) in st.node && Users(st) && Users(m) && lo <= a <= TRAPFRAME
      requires Grown(m, st, root, lo, a) && Space(m, root, lo)
      modifies this
      ensures Ok() && Top(root) in st.node && Users(st) && st.node == old(st).node
      ensures SameMap(m, st) && st.pages == m.pages && st.home == m.home && Space(st, root, lo)
    {
      hide Path, Px, Valid, IsLeaf, Flags, Ppn, Pte, Placed, Linked, Entry, Tree, Leaf, SameLeaves,
           FreeSet, Conserved, Top, Filled, CanAdd, Deeper, Stored, WithV, UserPage, Users, Space, Frames,
           Added, Removed, Grown, SameMap, Up, Ok;
      ghost var u := st;
      StillGrown(m, u, root, lo, a);
      GrownStartSpace(m, root, lo);
      var ok, k := UvmunmapFree(root, lo, a - lo);
      assert ok;
      GrownUndone(m, u, st, root, lo, a);
      SameMapSpace(m, st, root, lo);
    }

    /** uvmalloc, sizes in bytes: on success the space has exactly the pages of the new size,
        the added ones zeroed; on failure every mapping and every page in use is back.  It fails
        exactly when the pages asked for and the tables missing for them are more than there
        are free pages.  Whatever size is asked, memory runs out before walk's and mappages'
        panics. */
    method Uvmalloc(root: nat, oldsz: nat, newsz: nat) returns (r: nat)
      requires Ok() && Top(root) in st.node && Users(st) && |all| < TRAPFRAME
      requires Space(st, root, Up(oldsz))
      modifies this
      ensures Ok() && Top(root) in st.node && Users(st)
      ensures newsz < oldsz ==> r == oldsz && st == old(st)
      ensures newsz >= oldsz ==> r == newsz || r == 0
      ensures newsz >= oldsz ==> (r == newsz <==> PagesFor(old(st), root, Up(oldsz), Up(newsz)) <= |old(st).free|)
      ensures newsz >= oldsz && r == newsz && newsz > 0 ==>
                Grown(old(st), st, root, Up(oldsz), Up(newsz)) && Space(st, root, Up(newsz))
      ensures newsz >= oldsz && r == newsz && newsz > 0 ==> Usable(st, root, Up(oldsz), Up(newsz))
      ensures newsz >= oldsz && r == newsz && newsz > 0 ==>
                forall p :: p in st.pages && p !in old(st).pages ==> st.pages[p] == Filled(0)
      ensures newsz >= oldsz && r == 0 ==>
                SameMap(old(st), st) && st.pages == old(st).pages && st.home == old(st).home
                    && Space(st, root, Up(oldsz))
    {
      hide Path, Px, Valid, IsLeaf, Flags, Ppn, Pte, Placed, Linked, Entry, Tree, Leaf, SameLeaves,
           FreeSet, Conserved, Top, Filled, CanAdd, Deeper, Stored, WithV, UserPage, Users, Space, Frames,
           Added, Removed, Grown, SameMap, Up, Ok;
      hide Spots, TablesFor, PagesFor, Toward, Fed, Usable;
      if newsz < oldsz { return oldsz; }
      ghost var m := st;
      var lo := Up(oldsz);
      UpBounds(oldsz);
      UpBounds(newsz);
      UpMonotone(oldsz, newsz);
      GrownNone(m, root, lo);
      FedNone(m, root, lo);
      UsableNone(m, root, lo);
      var a := lo;
      while a * PGSIZE < newsz
        invariant lo <= a <= Up(newsz) && Ok() && Top(root) in st.node && Users(st)
        invariant Grown(m, st, root, lo, a) && Space(st, root, a) && (a == lo ==> st == m)
        invariant Fed(m, st, root, lo, a) && Usable(st, root, lo, a) && Tree(m) && Conserved(m, all)
        invariant forall p :: p in st.pages && p !in m.pages ==> st.pages[p] == Filled(0)
      {
        UpBelow(a, newsz);
        ghost var t := st;
        var ok := GrowNext(root, a, m, lo);
        if !ok {
          Starved(m, t, root, lo, a, Up(newsz), all);
          Rollback(root, a, m, lo);
          return 0;
        }
        a := a + 1;
      }
      SameMapRefl(m);
      FedAll(m, st, root, lo, a, all);
      return newsz;
    }

    /** uvmdealloc: the space is cut down to the smaller size, its pages freed. */
    method Uvmdealloc(root: nat, oldsz: nat, newsz: nat) returns (r: nat)
      requires Ok() && Top(root) in st.node && Users(st) && Space(st, root, Up(oldsz))
      modifies this
      ensures Ok() && Top(root) in st.node && Users(st)
      ensures r == if newsz >= oldsz then oldsz else newsz
      ensures Removed(old(st), st, root, Up(r), Up(oldsz)) && Space(st, root, Up(r))
    {
      hide Path, Px, Valid, IsLeaf, Flags, Ppn, Pte, Placed, Linked, Entry, Tree, Leaf, SameLeaves,
           FreeSet, Conserved, Top, Filled, CanAdd, Deeper, Stored, WithV, UserPage, Users, Space, Frames,
           Added, Removed, Grown, SameMap, Up, Ok;
      ghost var m := st;
      RemovedNone(m, root, Up(oldsz));
      if newsz >= oldsz { return oldsz; }
      UpMonotone(newsz, oldsz);
      if Up(newsz) < Up(oldsz) {
        SpacePages(m, root, Up(oldsz));
        var ok, k := UvmunmapFree(root, Up(newsz), Up(oldsz) - Up(newsz));
        assert ok;
        RemovedSpace(m, st, root, Up(newsz), Up(oldsz), root, Up(oldsz));
      }
      return newsz;
    }

    /** growproc on a process of size sz: with no more physical pages than PHYSTOP allows,
        the 32-bit size computations are exact.  Shrinking below zero changes nothing. */
    method Growproc(root: nat, sz: nat, n: int) returns (ret: int, sz': nat)
      requires Ok() && Top(root) in st.node && Users(st) && |all| <= 32768 && -0x8000_0000 <= n < 0x8000_0000
      requires Space(st, root, Up(sz))
      modifies this
      ensures Ok() && Top(root) in st.node && Users(st) && Space(st, root, Up(sz'))
      ensures ret == 0 && 0 <= sz + n ==> sz' == sz + n
      ensures ret == 0 && sz + n < 0 ==> sz' == sz && Removed(old(st), st, root, Up(sz), Up(sz))
      ensures ret == 0 && n > 0 ==> Grown(old(st), st, root, Up(sz), Up(sz')) && Usable(st, root, Up(sz), Up(sz'))
      ensures ret == 0 && n <= 0 ==> Removed(old(st), st, root, Up(sz'), Up(sz))
      ensures ret == 0 || (ret == -1 && n > 0)
      ensures n > 0 ==> (ret == 0 <==> PagesFor(old(st), root, Up(sz), Up(sz + n)) <= |old(st).free|)
      ensures ret == -1 ==> sz' == sz && SameMap(old(st), st) && st.pages == old(st).pages && st.home == old(st).home
    {
      hide Path, Px, Valid, IsLeaf, Flags, Ppn, Pte, Placed, Linked, Entry, Tree, Leaf, SameLeaves,
           FreeSet, Conserved, Top, Filled, CanAdd, Deeper, Stored, WithV, UserPage, Users, Space, Frames,
           Added, Removed, Grown, SameMap, Up, Ok;
      hide Spots, TablesFor, PagesFor, Toward, Fed, Usable;
      SpaceSmall(st, root, sz, all);
      RemovedNone(st, root, Up(sz));
      if n > 0 {
        var r := Uvmalloc(root, sz, (sz + n) % UINT32);
        if r == 0 { return -1, sz; }
        return 0, r;
      }
      if n < 0 {
        sz' := Uvmdealloc(root, sz, (sz + n) % UINT32);
        return 0, sz';
      }
      return 0, sz;
    }

    /** One iteration of uvmcopy: virtual page v of the parent, the child having v pages. */
    method CopyNext(parent: nat, child: nat, v: nat, ghost m: Vm, ghost n: nat) returns (ok: bool)
      requires Ok() && Users(st) && Users(m) && |all| < TRAPFRAME && parent != child
      requires Top(parent) in st.node && Top(child) in st.node && v < n && Space(m, parent, n)
      requires Grown(m, st, child, 0, v) && Space(st, child, v) && Copied(m, st, parent, child, v)
               && Fed(m, st, child, 0, v)
      modifies this
      ensures Ok() && Users(st) && Top(parent) in st.node && Top(child) in st.node && v < TRAPFRAME
      ensures ok ==> Grown(m, st, child, 0, v + 1) && Space(st, child, v + 1) && Copied(m, st, parent, child, v + 1)
      ensures ok ==> Fed(m, st, child, 0, v + 1)
      ensures ok <==> 1 + TablesFor(old(st), child, v) <= |old(st).free|
      ensures !ok ==> Grown(m, st, child, 0, v)
    {
      hide Path, Px, Valid, IsLeaf, Flags, Ppn, Pte, Placed, Linked, Entry, Tree, Leaf, SameLeaves,
           FreeSet, Conserved, Top, Filled, CanAdd, Deeper, Stored, WithV, UserPage, Users, Space, Frames,
           Added, Removed, Grown, SameMap, Up, Copied;
      hide Spots, TablesFor, PagesFor, Toward, Fed;
      ghost var t := st;
      ParentPage(m, t, parent, child, v, n);
      RoomLeft(t, child, v, all);
      var w := Walk(parent, v, false);
      var pte := tables[w.table][w.index];
      var contents := pages[Ppn(pte)];
      var p;
      ok, p := AddPage(child, v, contents, Flags(pte));
      if ok {
        GrownMore(m, t, st, child, 0, v, p, Flags(pte));
        AddedSpace(t, st, child, v, p, Flags(pte), child, v);
        AddedPage(t, st, child, v, p, Flags(pte));
        FedMore(m, t, st, child, 0, v, p);
        CopiedMore(m, t, st, parent, child, v, p, n);
      } else {
        GrownSame(m, t, st, child, 0, v);
      }
    }

    /** uvmcopy: the child's space becomes a copy of the parent's, byte for byte and flag for
        flag, in pages of its own.  It fails exactly when the copy and its tables are more than
        there are free pages, and then every mapping and page in use is back. */
    method Uvmcopy(parent: nat, child: nat, sz: nat) returns (ok: bool)
      requires Ok() && Users(st) && |all| < TRAPFRAME && parent != child
      requires Top(parent) in st.node && Top(child) in st.node
      requires Space(st, parent, Up(sz)) && Space(st, child, 0)
      modifies this
      ensures Ok() && Users(st) && Top(parent) in st.node && Top(child) in st.node
      ensures ok <==> PagesFor(old(st), child, 0, Up(sz)) <= |old(st).free|
      ensures ok ==> Grown(old(st), st, child, 0, Up(sz)) && Space(st, child, Up(sz)) && Space(st, parent, Up(sz))
      ensures ok ==> Copied(old(st), st, parent, child, Up(sz))
      ensures !ok ==>
              SameMap(old(st), st) && st.pages == old(st).pages && st.home == old(st).home && Space(st, child, 0)
    {
      hide Path, Px, Valid, IsLeaf, Flags, Ppn, Pte, Placed, Linked, Entry, Tree, Leaf, SameLeaves,
           FreeSet, Conserved, Top, Filled, CanAdd, Deeper, Stored, WithV, UserPage, Users, Space, Frames,
           Added, Removed, Grown, SameMap, Up, Ok, Copied;
      hide Spots, TablesFor, PagesFor, Toward, Fed;
      ghost var m := st;
      GrownNone(m, child, 0);
      FedNone(m, child, 0);
      CopiedNone(m, parent, child);
      UpBounds(sz);
      var i := 0;
      while i * PGSIZE < sz
        invariant 0 <= i <= Up(sz) && Ok() && Users(st) && Top(parent) in st.node && Top(child) in st.node
        invariant Grown(m, st, child, 0, i) && Space(st, child, i) && Copied(m, st, parent, child, i)
        invariant Fed(m, st, child, 0, i) && Tree(m) && Conserved(m, all)
      {
        UpBelow(i, sz);
        ghost var t := st;
        ok := CopyNext(parent, child, i, m, Up(sz));
        if !ok {
          Starved(m, t, child, 0, i, Up(sz), all);
          Rollback(child, i, m, 0);
          return;
        }
        i := i + 1;
      }
      FedAll(m, st, child, 0, i, all);
      SpacePages(st, child, Up(sz));
      GrownSpace(m, st, child, 0, Up(sz), parent, Up(sz));
      ok := true;
    }

    // ----- freeing -----

    /** The table of s is freed, and its parent's entry not yet cleared. */
    ghost predicate Pending(s: Spot)
      reads this
    {
      && free == st.free && pages == st.pages && Tree(st) && Conserved(st, all)
      && if s.level >= 2 then st.tables == tables
         else
           && Up1(s) in st.node && st.node[Up1(s)] in tables && |tables[st.node[Up1(s)]]| == ENTRIES
           && st.tables == tables[st.node[Up1(s)] := ClearAt(tables[st.node[Up1(s)]], Index(s))]
    }

    /** freewalk of the table at s: with no leaf mapping left, the table and every table
        below it are freed, each once, and the panic is not reached. */
    method Freewalk(p: nat, ghost s: Spot)
      requires Ok() && s in st.node && st.node[s] == p && NoLeaf(st, s.root)
      modifies this
      ensures Pending(s) && Cut(old(st), st, Subtree(old(st), s), all)
      decreases s.level
    {
      hide Path, Px, Valid, IsLeaf, Flags, Ppn, Pte, Placed, Linked, Entry, Tree, Leaf, SameLeaves,
           FreeSet, Conserved, Top, Filled, CanAdd, Deeper, Stored, WithV, UserPage, Users, Space, Frames,
           Added, Removed, Grown, SameMap, Up, Cut, Cleared, Subtree, NoLeaf, Under, Bare, DropTable,
           Up1, Index, ClearAt;
      ghost var m := st;
      CutNone(m, s, all);
      var i := 0;
      while i < ENTRIES
        invariant 0 <= i <= ENTRIES && Ok() && Cut(m, st, Cleared(m, s, i), all)
      {
        EntrySeen(m, st, s, i, all);
        var pte := tables[p][i];
        if Valid(pte) && !IsLeaf(pte) {
          ghost var t := st;
          Freewalk(Ppn(pte), Below(s, i));
          BackUp(t, st, s, i, all);
          ClearedRow(tables[p], i);
          var row: seq<nat> := tables[p][i := 0];
          tables := tables[p := row];
          ChildCut(m, t, st, s, i, all);
        } else if Valid(pte) {
          assert false;
        } else {
          NextEntry(m, st, s, i, all);
        }
        i := i + 1;
      }
      LastCut(m, st, s, all);
      DropParts(st, s);
      free := [p] + free;
      tables := tables - {p};
      st := DropTable(st, s);
    }

    /** uvmfree of a space with nothing mapped above its user pages. */
    method Uvmfree(root: nat, sz: nat)
      requires Ok() && Top(root) in st.node && Users(st) && Space(st, root, Up(sz))
      requires !Valid(Leaf(st, root, TRAPFRAME)) && !Valid(Leaf(st, root, TRAMPOLINE))
      modifies this
      ensures Ok() && Users(st) && Freed(old(st), st, root, Up(sz))
    {
      hide Path, Px, Valid, IsLeaf, Flags, Ppn, Pte, Placed, Linked, Entry, Tree, Leaf, SameLeaves,
           FreeSet, Conserved, Filled, CanAdd, Deeper, Stored, WithV, UserPage, Users, Space, Frames, Added,
           Removed, Grown, SameMap, Up, Cut, Cleared, Subtree, NoLeaf, Under, Freed;
      ghost var m := st;
      SpacePages(m, root, Up(sz));
      RemovedNone(m, root, 0);
      NoFrames(m, root, 0);
      UpZero(sz);
      if sz > 0 {
        var ok, k := UvmunmapFree(root, 0, Up(sz));
        assert ok;
        RemovedSpace(m, st, root, 0, Up(sz), root, Up(sz));
      }
      ghost var t := st;
      SpecialsLeft(m, t, root, Up(sz));
      NothingMapped(t, root);
      TopNode(t, root);
      Freewalk(root, Top(root));
      assert Ok();
      CutNode(t, st, Subtree(t, Top(root)), all);
      UsersSame(t, st);
      FreedNow(m, t, st, root, Up(sz), all);
    }

    /** uvmcreate. */
    method Uvmcreate() returns (r: int)
      requires Ok()
      modifies this
      ensures Ok() && (r == -1 <==> old(st).free == []) && (r == -1 ==> st == old(st))
      ensures r != -1 ==> r >= 0 && old(st).free != [] && r == old(st).free[0] && st == AddRoot(old(st))
    {
      hide Tree, Conserved, SameLeaves, Leaf, FreeSet;
      if free == [] { return -1; }
      AddRootKeeps(st, all);
      r := free[0];
      free := free[1..];
      tables := tables[r := EMPTY];
      st := AddRoot(st);
    }

    /** proc_pagetable: a space with no user page and the two special entries; it fails exactly
        when fewer than three pages are free, and then every page is back where it was. */
    method ProcPagetable(trampoline: nat, trapframe: nat) returns (r: int)
      requires Ok() && Users(st)
      modifies this
      ensures Ok() && Users(st)
      ensures r == -1 ==> st.node == old(st).node && st.pages == old(st).pages && st.home == old(st).home
      ensures r != -1 <==> |old(st).free| >= 3
      ensures r == -1 ==> FreeSet(st) == FreeSet(old(st))
      ensures r != -1 ==> r >= 0 && Top(r) in st.node && Top(r) !in old(st).node && Space(st, r, 0)
      ensures r != -1 ==> SpecialsOnly(old(st), st, r)
      ensures r != -1 ==> Sound(st, r) && forall v :: !Accessible(st, r, v)
      ensures r != -1 ==> Leaf(st, r, TRAMPOLINE) == Pte(trampoline, PTE_R + PTE_X + PTE_V)
      ensures r != -1 ==> Leaf(st, r, TRAPFRAME) == Pte(trapframe, PTE_R + PTE_W + PTE_V)
    {
      hide Path, Px, IsLeaf, Flags, Ppn, Pte, Placed, Linked, Entry, Tree, Leaf, SameLeaves, FreeSet,
           Conserved, Filled, CanAdd, Deeper, Stored, WithV, UserPage, Users, Space, Frames, Added, Removed,
           Grown, SameMap, Up, Freed, SpecialsOnly, AddRoot, Ok;
      hide Sound, Accessible, Spots, TablesFor, PagesFor, Toward, Fed;
      ghost var m := st;
      if m.free != [] { AddRootKeeps(m, all); AddRootParts(m); }
      r := Uvmcreate();
      if r == -1 { return; }
      ghost var t := st;
      NewSpace(m, t, r);
      SpecialTables(t, r);
      SpecialFlags();
      var w := MapPage(r, TRAMPOLINE, trampoline, PTE_R + PTE_X);
      if !w.Done? {
        ghost var u := st;
        assert !w.Fault?;
        StillSpecial(m, t, u, r);
        UpZero(0);
        Uvmfree(r, 0);
        MadeAndFreed(m, u, st, r, all);
        return -1;
      }
      ghost var u := st;
      NoneLacking(u, r, TRAPFRAME);
      SpecialStored(m, t, u, r, TRAMPOLINE, Pte(trampoline, WithV(PTE_R + PTE_X)));
      w := MapPage(r, TRAPFRAME, trapframe, PTE_R + PTE_W);
      if !w.Done? {
        assert false;  // the trapframe's entry is in the trampoline's table
      }
      SpecialStored(m, u, st, r, TRAPFRAME, Pte(trapframe, WithV(PTE_R + PTE_W)));
      SpecialSpaces(m, st, r, 0);
      SpecialsHidden(st, r, trampoline, trapframe);
      return;
    }

    /** proc_freepagetable: every page of the space is free, each once, and the other spaces
        are as they were. */
    method ProcFreepagetable(root: nat, sz: nat)
      requires Ok() && Top(root) in st.node && Users(st) && Space(st, root, Up(sz))
      requires Valid(Leaf(st, root, TRAMPOLINE)) && Flags(Leaf(st, root, TRAMPOLINE)) != PTE_V
      requires Valid(Leaf(st, root, TRAPFRAME)) && Flags(Leaf(st, root, TRAPFRAME)) != PTE_V
      modifies this
      ensures Ok() && Users(st) && Freed(old(st), st, root, Up(sz))
    {
      hide Path, Px, IsLeaf, Flags, Ppn, Pte, Placed, Linked, Entry, Tree, Leaf, SameLeaves, FreeSet,
           Conserved, Filled, CanAdd, Deeper, Stored, WithV, UserPage, Users, Space, Frames, Added, Removed,
           Grown, SameMap, Up, Freed, SpecialsOnly, AddRoot, Ok;
      ghost var m := st;
      SpecialNone(m, root);
      var ok := UnmapPage(root, TRAMPOLINE, false);
      assert ok;
      ghost var t := st;
      SpecialStored(m, m, t, root, TRAMPOLINE, 0);
      ok := UnmapPage(root, TRAPFRAME, false);
      assert ok;
      ghost var u := st;
      SpecialStored(m, t, u, root, TRAPFRAME, 0);
      SpecialSpaces(m, u, root, Up(sz));
      Uvmfree(root, sz);
      SpecialsFreed(m, u, st, root, Up(sz));
    }

    // ----- user memory -----

    /** walkaddr: the physical page of a user-accessible virtual page, or -1.  (The C code
        returns address 0 for "none"; page 0 is below `end` and never allocated.) */
    method Walkaddr(root: nat, v: nat) returns (p: int)
      requires Ok() && Top(root) in st.node
      modifies this
      ensures Ok() && st == old(st)
      ensures p == if Accessible(st, root, v) then Ppn(Leaf(st, root, v)) else -1
    {
      hide Path, Px, Valid, IsLeaf, Flags, Ppn, Pte, Placed, Linked, Entry, Tree, Leaf, SameLeaves,
           FreeSet, Conserved, Top, Filled, CanAdd, Deeper, Stored, WithV, UserPage, Users, Space, Frames,
           Added, Removed, Grown, SameMap, Up, HasU;
      if v >= MAXVPN { return -1; }
      var w := Walk(root, v, false);
      if w.Missing? { return -1; }
      var pte := tables[w.table][w.index];
      if !Valid(pte) || !HasU(pte) { return -1; }
      return Ppn(pte);
    }

    /** copyout: it succeeds exactly when every destination byte is accessible, and then it is
        a store into the flat memory; otherwise it stores up to the first page that is not. */
    method Copyout(root: nat, dstva: nat, src: seq<byte>) returns (ok: bool, ghost k: nat)
      requires Ok() && Top(root) in st.node && Users(st) && Sound(st, root)
      modifies this
      ensures Ok() && Users(st) && k <= |src|
      ensures ok <==> CanAll(old(st), root, dstva, |src|)
      ensures if ok then k == |src| else k < |src| && !Can(old(st), root, dstva + k)
      ensures CanAll(old(st), root, dstva, k) && Wrote(old(st), st, root, dstva, src[..k])
    {
      hide Path, Px, Valid, IsLeaf, Flags, Ppn, Pte, Placed, Linked, Entry, Tree, Leaf, SameLeaves,
           FreeSet, Conserved, Top, Filled, CanAdd, Deeper, Stored, WithV, UserPage, Users, Space, Frames,
           Added, Removed, Grown, SameMap, Up, HasU, Sound, Can, CanAll, Flat, Wrote, Accessible, Bytes, Patch;
      ghost var m := st;
      WroteNone(m, root, dstva);
      CanNone(m, root, dstva);
      var dst, done := dstva, 0;
      while done < |src|
        invariant 0 <= done <= |src| && (done < |src| ==> dst == dstva + done) && Ok() && Users(st)
        invariant CanAll(m, root, dstva, done) && Wrote(m, st, root, dstva, src[..done])
      {
        ghost var t := st;
        WroteParts(m, t, root, dstva, src[..done]);
        SameAccessAll(m, t, root, dst, 1);
        CanOne(m, root, dst);
        CanOne(t, root, dst);
        var va0 := dst / PGSIZE;
        var p := Walkaddr(root, va0);
        if p == -1 {
          CannotAll(m, root, dstva, done, |src|);
          return false, done;
        }
        var n := PGSIZE - dst % PGSIZE;
        if n > |src| - done { n := |src| - done; }
        AllInPage(t, root, dst, n);
        SameAccessAll(m, t, root, dst, n);
        CanMore(m, root, dstva, done, n);
        ChunkWrote(t, root, dst, src[done..done + n]);
        WroteMore(m, t, PutChunk(t, root, dst, src[done..done + n]), root, dstva, src[..done], src[done..done + n]);
        assert src[..done] + src[done..done + n] == src[..done + n];
        WroteKeeps(t, PutChunk(t, root, dst, src[done..done + n]), root, dst, src[done..done + n], all);
        pages := pages[p := Patch(pages[p], dst % PGSIZE, src[done..done + n])];
        st := PutChunk(t, root, dst, src[done..done + n]);
        if done + n < |src| { NextPage(dst, n); }
        done, dst := done + n, va0 * PGSIZE + PGSIZE;
      }
      assert src[..done] == src;
      return true, done;
    }

    /** copyin: it succeeds exactly when every source byte is accessible, and returns the
        bytes of the flat memory. */
    method Copyin(root: nat, srcva: nat, len: nat) returns (ok: bool, dst: seq<byte>)
      requires Ok() && Top(root) in st.node && Sound(st, root)
      modifies this
      ensures Ok() && st == old(st)
      ensures ok <==> CanAll(st, root, srcva, len)
      ensures CanAll(st, root, srcva, |dst|) && dst == Bytes(st, root, srcva, |dst|)
      ensures if ok then |dst| == len else |dst| < len && !Can(st, root, srcva + |dst|)
    {
      hide Path, Px, Valid, IsLeaf, Flags, Ppn, Pte, Placed, Linked, Entry, Tree, Leaf, SameLeaves,
           FreeSet, Conserved, Top, Filled, CanAdd, Deeper, Stored, WithV, UserPage, Users, Space, Frames,
           Added, Removed, Grown, SameMap, Up, HasU, Sound, Can, CanAll, Flat, Wrote, Accessible, Bytes,
           PutChunk, Patch;
      ghost var m := st;
      dst := [];
      CanNone(m, root, srcva);
      var src := srcva;
      while |dst| < len
        invariant |dst| <= len && (|dst| < len ==> src == srcva + |dst|) && Ok() && st == m
        invariant CanAll(m, root, srcva, |dst|) && dst == Bytes(m, root, srcva, |dst|)
      {
        CanOne(m, root, src);
        var p := Walkaddr(root, src / PGSIZE);
        if p == -1 {
          CannotAll(m, root, srcva, |dst|, len);
          return false, dst;
        }
        var n := PGSIZE - src % PGSIZE;
        if n > len - |dst| { n := len - |dst|; }
        AllInPage(m, root, src, n);
        CanMore(m, root, srcva, |dst|, n);
        PageBytes(m, root, src, n);
        BytesMore(m, root, srcva, |dst|, n);
        if |dst| + n < len { NextPage(src, n); }
        dst := dst + pages[p].bytes[src % PGSIZE..src % PGSIZE + n];
        src := src / PGSIZE * PGSIZE + PGSIZE;
      }
      return true, dst;
    }

    /** copyinstr: it succeeds exactly when a string of fewer than max bytes is there, every
        byte of it accessible up to its NUL, and returns that string with its NUL. */
    method Copyinstr(root: nat, srcva: nat, max: nat) returns (ok: bool, dst: seq<byte>)
      requires Ok() && Top(root) in st.node && Sound(st, root)
      modifies this
      ensures Ok() && st == old(st)
      ensures ok <==> exists n: nat :: n < max && StringAt(st, root, srcva, n)
      ensures ok ==> |dst| > 0 && StringAt(st, root, srcva, |dst| - 1) && dst == Bytes(st, root, srcva, |dst|)
    {
      hide Path, Px, Valid, IsLeaf, Flags, Ppn, Pte, Placed, Linked, Entry, Tree, Leaf, SameLeaves,
           FreeSet, Conserved, Top, Filled, CanAdd, Deeper, Stored, WithV, UserPage, Users, Space, Frames,
           Added, Removed, Grown, SameMap, Up, HasU, Sound, Can, CanAll, Flat, Accessible, Bytes, StringAt,
           NoNul;
      ghost var m := st;
      dst := [];
      CanNone(m, root, srcva);
      var src, left := srcva, max;
      while left > 0
        invariant left == max - |dst| >= 0 && (left > 0 ==> src == srcva + |dst|) && Ok() && st == m
        invariant CanAll(m, root, srcva, |dst|) && NoNul(m, root, srcva, |dst|) && dst == Bytes(m, root, srcva, |dst|)
        decreases left
      {
        StringLonger(m, root, srcva, |dst|);
        CanOne(m, root, src);
        var p := Walkaddr(root, src / PGSIZE);
        if p == -1 {
          StringShorter(m, root, srcva, |dst|);
          return false, dst;
        }
        var n := PGSIZE - src % PGSIZE;
        if n > left { n := left; }
        var i := 0;
        ghost var k := |dst|;
        PageByte(m, root, src, 0);
        while i < n
          invariant 0 <= i <= n && |dst| == k + i && Ok() && st == m
          invariant CanAll(m, root, srcva, |dst|) && NoNul(m, root, srcva, |dst|) && dst == Bytes(m, root, srcva, |dst|)
        {
          PageByte(m, root, src, i);
          CanOne(m, root, src + i);
          CanMore(m, root, srcva, |dst|, 1);
          BytesMore(m, root, srcva, |dst|, 1);
          if pages[p].bytes[src % PGSIZE + i] == 0 {
            IsString(m, root, srcva, |dst|);
            dst := dst + [0];
            return true, dst;
          }
          NoNulMore(m, root, srcva, |dst|);
          dst := dst + [pages[p].bytes[src % PGSIZE + i]];
          i := i + 1;
        }
        left := left - n;
        if left > 0 { NextPage(src, n); }
        src := src / PGSIZE * PGSIZE + PGSIZE;
      }
      StringLonger(m, root, srcva, |dst|);
      return false, dst;
    }

    /** A process that has grown can use what it got: whatever is copied out to the new pages
        arrives, and copied in again is the same. */
    method GrowAndUse(root: nat, sz: nat, n: int, va: nat, src: seq<byte>) returns (ret: int, ok: bool, back: seq<byte>)
      requires Ok() && Top(root) in st.node && Users(st) && |all| <= 32768 && 0 < n < 0x8000_0000
      requires Space(st, root, Up(sz)) && !HasU(Leaf(st, root, TRAPFRAME)) && !HasU(Leaf(st, root, TRAMPOLINE))
      requires Up(sz) * PGSIZE <= va && va + |src| <= Up(sz + n) * PGSIZE
      modifies this
      ensures ret == 0 <==> PagesFor(old(st), root, Up(sz), Up(sz + n)) <= |old(st).free|
      ensures ret == 0 ==> ok && back == src
    {
      hide Path, Px, Valid, IsLeaf, Flags, Ppn, Pte, Placed, Linked, Entry, Tree, Leaf, SameLeaves,
           FreeSet, Conserved, Top, Filled, CanAdd, Deeper, Stored, WithV, UserPage, Users, Space, Frames,
           Added, Removed, SameMap, Up, HasU, Sound, Can, CanAll, Flat, Wrote, Accessible, Bytes, Usable,
           Grown, Ok, PagesFor;
      ghost var m := st;
      var sz';
      ret, sz' := Growproc(root, sz, n);
      if ret != 0 { return ret, false, []; }
      SpecialsStay(m, st, root, Up(sz), Up(sz'));
      SpaceSound(st, root, Up(sz'));
      UsableBytes(st, root, Up(sz), Up(sz'), va, |src|);
      ghost var t := st;
      ghost var k;
      ok, k := Copyout(root, va, src);
      assert src[..k] == src;
      WroteParts(t, st, root, va, src);
      SameAccessAll(t, st, root, va, |src|);
      CopyRoundTrip(t, st, root, va, src);
      ok, back := Copyin(root, va, |src|);
    }
  }
}
