/** User address spaces: which physical pages belong to which virtual pages, and the bound
    this puts on their size (kernel/vm.c, kernel/proc.c). */
module AddressSpace {
  import opened PageTable
  import opened PageOps
  import opened PageWalk
  import opened Counting

  /** Virtual page v of `root` is mapped to a page of its own. */
  ghost predicate UserPage(m: Vm, root: nat, v: nat) {
    var e := Leaf(m, root, v);
    Valid(e) && IsLeaf(e) && Ppn(e) in m.home && m.home[Ppn(e)] == Home(root, v)
  }

  /** Each user page is in use and mapped exactly where its home says. */
  ghost predicate Users(m: Vm) {
    forall p :: p in m.home ==>
      && p in m.pages && m.home[p].v < TRAPFRAME
      && UserPage(m, m.home[p].root, m.home[p].v) && Ppn(Leaf(m, m.home[p].root, m.home[p].v)) == p
  }

  /** The address space of `root` has exactly its first n virtual pages below the trapframe. */
  ghost predicate Space(m: Vm, root: nat, n: nat) {
    && n <= TRAPFRAME
    && (forall v :: 0 <= v < n ==> UserPage(m, root, v))
    && (forall v :: n <= v < TRAPFRAME ==> !Valid(Leaf(m, root, v)))
  }

  /** The physical pages of virtual pages lo to hi. */
  ghost function Frames(m: Vm, root: nat, lo: nat, hi: nat): (s: set<nat>) {
    set v | lo <= v < hi :: Ppn(Leaf(m, root, v))
  }

  // ----- the size bound -----

  lemma {:induction false} FramesCount(m: Vm, root: nat, n: nat)
    requires forall v :: 0 <= v < n ==> UserPage(m, root, v)
    ensures |Frames(m, root, 0, n)| == n
  {
    hide Leaf, Ppn, Valid, IsLeaf;
    if n > 0 {
      FramesCount(m, root, n - 1);
      var s, p := Frames(m, root, 0, n - 1), Ppn(Leaf(m, root, n - 1));
      assert UserPage(m, root, n - 1);
      assert Frames(m, root, 0, n) == s + {p};
      forall v | 0 <= v < n - 1 ensures Ppn(Leaf(m, root, v)) != p {
        assert UserPage(m, root, v);
      }
    }
  }

  /** User pages are distinct physical pages, so an address space is no larger than memory. */
  lemma SizeBound(m: Vm, root: nat, n: nat, all: set<nat>)
    requires Conserved(m, all) && Users(m)
    requires forall v :: 0 <= v < n ==> UserPage(m, root, v)
    ensures n <= |m.pages| <= |all|
  {
    FramesCount(m, root, n);
    var s := Frames(m, root, 0, n);
    forall p | p in s ensures p in m.pages.Keys {
      var v :| 0 <= v < n && Ppn(Leaf(m, root, v)) == p;
      assert UserPage(m, root, v);
    }
    SubsetCount(s, m.pages.Keys);
    assert m.pages.Keys <= all;
    SubsetCount(m.pages.Keys, all);
  }

  // ----- one page more, some pages less -----

  /** t is m with virtual page v of `root` mapped to the fresh page p. */
  ghost predicate Added(m: Vm, t: Vm, root: nat, v: nat, p: nat, flags: nat)
  {
    && Stored(m, t, root, v, Pte(p, flags)) && p !in m.pages && p in t.pages
    && t.pages.Keys == m.pages.Keys + {p} && (forall q :: q in m.pages ==> t.pages[q] == m.pages[q])
    && t.home == m.home[p := Home(root, v)]
  }

  lemma AddedKeeps(m: Vm, t: Vm, root: nat, v: nat, p: nat, flags: nat)
    requires Users(m) && Added(m, t, root, v, p, flags) && v < TRAPFRAME
    requires flags < 1024 && Valid(flags) && IsLeaf(flags) && !Valid(Leaf(m, root, v))
    ensures Users(t) && UserPage(t, root, v)
    ensures forall root', v': nat :: v' < MAXVPN && UserPage(m, root', v') ==> UserPage(t, root', v')
  {
    hide Leaf, Pte, Ppn, IsLeaf, Valid, Users;
    PteParts(p, flags);
    NotAUser(m, p);
    forall root', v': nat | v' < MAXVPN && UserPage(m, root', v')
      ensures UserPage(t, root', v') && Ppn(Leaf(t, root', v')) == Ppn(Leaf(m, root', v'))
    {
    }
    UsersAfterAdd(m, t, root, v, p);
  }

  lemma NotAUser(m: Vm, p: nat)
    requires Users(m) && p !in m.pages
    ensures p !in m.home
  {
  }

  lemma UsersAfterAdd(m: Vm, t: Vm, root: nat, v: nat, p: nat)
    requires Users(m) && t.home == m.home[p := Home(root, v)] && p !in m.home && v < TRAPFRAME
    requires t.pages.Keys == m.pages.Keys + {p} && UserPage(t, root, v) && Ppn(Leaf(t, root, v)) == p
    requires forall root', v': nat :: v' < MAXVPN && UserPage(m, root', v') ==>
               UserPage(t, root', v') && Ppn(Leaf(t, root', v')) == Ppn(Leaf(m, root', v'))
    ensures Users(t)
  {
    hide Leaf, Ppn, UserPage;
  }

  lemma AddedSpace(m: Vm, t: Vm, root: nat, v: nat, p: nat, flags: nat, root': nat, n: nat)
    requires Users(m) && Added(m, t, root, v, p, flags) && v < TRAPFRAME
    requires flags < 1024 && Valid(flags) && IsLeaf(flags) && !Valid(Leaf(m, root, v))
    requires Space(m, root', n) && (root' == root ==> v == n)
    ensures Space(t, root', if root' == root then n + 1 else n)
  {
    AddedKeeps(m, t, root, v, p, flags);
    hide Leaf, Pte, Ppn, IsLeaf, Valid, UserPage, Users;
  }

  /** t is m with virtual pages lo to hi of `root` unmapped and their pages freed. */
  ghost predicate Removed(m: Vm, t: Vm, root: nat, lo: nat, hi: nat) {
    && (forall root', v :: 0 <= v < MAXVPN ==>
          Leaf(t, root', v) == if root' == root && lo <= v < hi then 0 else Leaf(m, root', v))
    && t.pages == m.pages - Frames(m, root, lo, hi)
    && t.home == m.home - Frames(m, root, lo, hi)
  }

  lemma RemovedNone(m: Vm, root: nat, lo: nat)
    ensures Removed(m, m, root, lo, lo)
  {
    assert Frames(m, root, lo, lo) == {};
  }

  lemma RemovedMore(m: Vm, t: Vm, u: Vm, root: nat, lo: nat, hi: nat)
    requires Removed(m, t, root, lo, hi) && lo <= hi < MAXVPN && Stored(t, u, root, hi, 0)
    requires u.pages == t.pages - {Ppn(Leaf(t, root, hi))} && u.home == t.home - {Ppn(Leaf(t, root, hi))}
    ensures Removed(m, u, root, lo, hi + 1)
  {
    hide Leaf, Ppn;
    var f, p := Frames(m, root, lo, hi), Ppn(Leaf(m, root, hi));
    assert Frames(m, root, lo, hi + 1) == f + {p};
    assert m.pages - f - {p} == m.pages - (f + {p});
    assert m.home - f - {p} == m.home - (f + {p});
  }

  /** What is left is as it was: users keep their pages, and the space is cut down to lo. */
  lemma RemovedKeeps(m: Vm, t: Vm, root: nat, lo: nat, hi: nat)
    requires Users(m) && Removed(m, t, root, lo, hi) && lo <= hi <= TRAPFRAME
    requires forall v :: lo <= v < hi ==> UserPage(m, root, v)
    ensures Users(t)
    ensures forall root', v: nat :: v < TRAPFRAME && UserPage(m, root', v) && !(root' == root && lo <= v < hi) ==>
            UserPage(t, root', v)
  {
    hide Leaf, IsLeaf, Valid, Ppn;
    forall p | p in t.home
      ensures p in t.pages && t.home[p].v < TRAPFRAME
      ensures UserPage(t, t.home[p].root, t.home[p].v) && Ppn(Leaf(t, t.home[p].root, t.home[p].v)) == p
    {
      var h := m.home[p];
      assert h.root == root && lo <= h.v < hi ==> p in Frames(m, root, lo, hi);
    }
    forall root', v: nat | v < TRAPFRAME && UserPage(m, root', v) && !(root' == root && lo <= v < hi)
      ensures UserPage(t, root', v)
    {
      var p := Ppn(Leaf(m, root', v));
      forall w | lo <= w < hi ensures Ppn(Leaf(m, root, w)) != p {
        assert UserPage(m, root, w);
      }
    }
  }

  lemma RemovedSpace(m: Vm, t: Vm, root: nat, lo: nat, hi: nat, root': nat, n: nat)
    requires Users(m) && Removed(m, t, root, lo, hi) && lo <= hi <= TRAPFRAME
    requires forall v :: lo <= v < hi ==> UserPage(m, root, v)
    requires Space(m, root', n) && (root' == root ==> n == hi)
    ensures Space(t, root', if root' == root then lo else n)
  {
    RemovedKeeps(m, t, root, lo, hi);
    hide Leaf, Ppn, IsLeaf, UserPage, Users, Frames;
  }

  /** A finite map that did not change keeps every user page. */
  lemma SameSpace(m: Vm, t: Vm)
    requires Users(m) && SameLeaves(m, t) && t.home == m.home && (forall p :: p in m.pages ==> p in t.pages)
    ensures Users(t)
    ensures forall root, v: nat :: v < MAXVPN && UserPage(m, root, v) ==> UserPage(t, root, v)
    ensures forall root, n :: Space(m, root, n) ==> Space(t, root, n)
  {
    hide Leaf, Ppn, IsLeaf, Valid;
  }

  /** Halfway through an unmapping, the pages still to go are as they were. */
  /** The next page, if it is mapped, is a user page still; uvmunmap finds it or panics. */
  lemma StillUser(m: Vm, t: Vm, root: nat, lo: nat, k: nat)
    requires Users(m) && Removed(m, t, root, lo, k) && lo <= k < TRAPFRAME
    requires forall v :: lo <= v < k ==> UserPage(m, root, v)
    requires Valid(Leaf(m, root, k)) ==> UserPage(m, root, k)
    ensures Leaf(t, root, k) == Leaf(m, root, k)
    ensures Valid(Leaf(t, root, k)) ==> Ppn(Leaf(t, root, k)) in t.pages
    ensures LeafMapped(t, root, k) <==> UserPage(m, root, k)
  {
    hide Leaf;
    RemovedKeeps(m, t, root, lo, k);
    if UserPage(m, root, k) { LeafHasFlags(Leaf(m, root, k)); }
  }

  lemma LeafHasFlags(e: nat)
    requires IsLeaf(e)
    ensures Flags(e) != PTE_V
  {
    LeafBits(Ppn(e), Flags(e));
    PteWhole(e);
    hide Pte, Ppn, Flags;
  }

  lemma PteWhole(e: nat)
    ensures e == Pte(Ppn(e), Flags(e))
  {
  }

  lemma NoFrames(m: Vm, root: nat, lo: nat)
    ensures Frames(m, root, lo, lo) == {}
  {
  }

  lemma FramesMore(m: Vm, t: Vm, u: Vm, root: nat, lo: nat, k: nat)
    requires lo <= k && Leaf(t, root, k) == Leaf(m, root, k) && u.free == [Ppn(Leaf(t, root, k))] + t.free
    requires FreeSet(t) == FreeSet(m) + Frames(m, root, lo, k)
    ensures FreeSet(u) == FreeSet(m) + Frames(m, root, lo, k + 1)
  {
    hide Leaf, Ppn;
    var p := Ppn(Leaf(m, root, k));
    assert FreeSet(u) == FreeSet(t) + {p};
    assert Frames(m, root, lo, k + 1) == Frames(m, root, lo, k) + {p};
  }

  // ----- growing by many pages, and undoing it -----

  /** t is m with fresh user pages at virtual pages lo to hi of `root`. */
  ghost predicate Grown(m: Vm, t: Vm, root: nat, lo: nat, hi: nat) {
    && (forall root', v :: 0 <= v < MAXVPN && !(root' == root && lo <= v < hi) ==>
        Leaf(t, root', v) == Leaf(m, root', v))
    && (forall v :: lo <= v < hi ==> UserPage(t, root, v) && Ppn(Leaf(t, root, v)) !in m.pages)
    && t.pages.Keys == m.pages.Keys + Frames(t, root, lo, hi) && (forall p :: p in m.pages ==> t.pages[p] == m.pages[p])
    && t.home.Keys == m.home.Keys + Frames(t, root, lo, hi) && (forall p :: p in m.home ==> t.home[p] == m.home[p])
  }

  lemma GrownNone(m: Vm, root: nat, lo: nat)
    ensures Grown(m, m, root, lo, lo)
  {
    NoFrames(m, root, lo);
  }

  lemma GrownMore(m: Vm, t: Vm, u: Vm, root: nat, lo: nat, k: nat, p: nat, flags: nat)
    requires Users(t) && Grown(m, t, root, lo, k) && lo <= k < TRAPFRAME && Added(t, u, root, k, p, flags)
    requires flags < 1024 && Valid(flags) && IsLeaf(flags) && !Valid(Leaf(t, root, k))
    ensures Grown(m, u, root, lo, k + 1)
  {
    hide Leaf, Pte, Ppn, IsLeaf, Valid, Users, UserPage;
    PteParts(p, flags);
    NotAUser(t, p);
    AddedKeeps(t, u, root, k, p, flags);
    assert Frames(u, root, lo, k + 1) == Frames(t, root, lo, k) + {p};
  }

  /** The deeper trees of a failed step do not matter. */
  lemma GrownSame(m: Vm, t: Vm, u: Vm, root: nat, lo: nat, k: nat)
    requires Grown(m, t, root, lo, k) && k <= MAXVPN && SameLeaves(t, u) && u.pages == t.pages && u.home == t.home
    ensures Grown(m, u, root, lo, k)
  {
    hide Leaf, Ppn, IsLeaf, Valid;
    assert Frames(u, root, lo, k) == Frames(t, root, lo, k);
  }

  /** The same mappings; entries that are not valid do not count. */
  ghost predicate SameMap(m: Vm, t: Vm) {
    forall root, v :: 0 <= v < MAXVPN ==>
      if Valid(Leaf(m, root, v)) then Leaf(t, root, v) == Leaf(m, root, v) else !Valid(Leaf(t, root, v))
  }

  /** Unmapping what was grown restores the mappings and every page in use. */
  lemma GrownUndone(m: Vm, t: Vm, u: Vm, root: nat, lo: nat, hi: nat)
    requires Users(m) && Grown(m, t, root, lo, hi) && lo <= hi <= TRAPFRAME && Removed(t, u, root, lo, hi)
    requires forall v :: lo <= v < hi ==> !Valid(Leaf(m, root, v))
    ensures SameMap(m, u) && u.pages == m.pages && u.home == m.home
  {
    hide Leaf, Ppn, IsLeaf;
    var f := Frames(t, root, lo, hi);
    forall p | p in f ensures p !in m.pages { }
    assert f !! m.pages.Keys && f !! m.home.Keys;
    assert !Valid(0);
    hide Valid;
  }

  lemma SpecialsStay(m: Vm, t: Vm, root: nat, lo: nat, hi: nat)
    requires Grown(m, t, root, lo, hi) && Space(t, root, hi)
    ensures hi <= TRAPFRAME
    ensures Leaf(t, root, TRAPFRAME) == Leaf(m, root, TRAPFRAME)
            && Leaf(t, root, TRAMPOLINE) == Leaf(m, root, TRAMPOLINE)
  {
    hide Leaf;
  }

  lemma GrownSpace(m: Vm, t: Vm, root: nat, lo: nat, hi: nat, root': nat, n: nat)
    requires Users(m) && Grown(m, t, root, lo, hi) && lo <= hi <= TRAPFRAME
    requires Space(m, root', n) && (root' == root ==> n == lo)
    ensures Space(t, root', if root' == root then hi else n)
  {
    hide Leaf, Ppn, IsLeaf, Valid, Users, Frames;
    forall v | 0 <= v < n ensures UserPage(t, root', v) {
      assert UserPage(m, root', v);
    }
  }

  // ----- adding a page, step by step -----

  lemma AddedPage(m: Vm, t: Vm, root: nat, v: nat, p: nat, flags: nat)
    requires Added(m, t, root, v, p, flags)
    ensures p !in m.pages && t.pages.Keys == m.pages.Keys + {p}
  {
  }

  lemma AddedNow(m: Vm, t: Vm, u: Vm, root: nat, v: nat, p: nat, flags: nat)
    requires Users(m) && SameLeaves(m, t) && p !in m.pages && t.pages.Keys == m.pages.Keys + {p}
    requires forall q :: q in m.pages ==> t.pages[q] == m.pages[q]
    requires u.pages == t.pages && u.home == m.home[p := Home(root, v)] && Stored(t, u, root, v, Pte(p, flags))
    requires v < TRAPFRAME && flags < 1024 && Valid(flags) && IsLeaf(flags) && !Valid(Leaf(m, root, v))
    ensures Added(m, u, root, v, p, flags) && Users(u)
  {
    hide Leaf, Pte, Valid, IsLeaf, Users;
    AddedKeeps(m, u, root, v, p, flags);
  }

  lemma NotAddedAfterAll(m: Vm, t: Vm, u: Vm, w: Vm, p: nat)
    requires Users(m) && SameLeaves(m, t) && SameLeaves(t, u) && SameLeaves(u, w)
    requires p !in m.pages && t.pages.Keys == m.pages.Keys + {p}
             && (forall q :: q in m.pages ==> t.pages[q] == m.pages[q])
    requires u.pages == t.pages && u.home == m.home && w.pages == u.pages - {p} && w.home == u.home - {p}
    ensures SameLeaves(m, w) && w.pages == m.pages && w.home == m.home && Users(w)
  {
    hide Leaf;
    NotAUser(m, p);
    assert w.home == m.home;
    assert w.pages == m.pages;
    SameSpace(m, w);
    hide Users;
  }

  lemma Taken(m: Vm, contents: Page, root: nat, v: nat, all: set<nat>)
    requires Tree(m) && Conserved(m, all) && m.free != [] && v < MAXVPN
    ensures var t := Take(m, contents);
            && t == Take(m, Filled(5)).(pages := Take(m, Filled(5)).pages[m.free[0] := contents])
            && Tree(t) && Conserved(t, all) && SameLeaves(m, t) && Leaf(t, root, v) == Leaf(m, root, v)
            && m.free[0] !in m.pages && t.pages.Keys == m.pages.Keys + {m.free[0]}
            && t.pages[m.free[0]] == contents
            && t.node == m.node && t.home == m.home
            && forall q :: q in m.pages ==> t.pages[q] == m.pages[q]
  {
    hide Tree, Conserved, Leaf, Filled;
    TakeKeeps(m, contents, all);
  }

  lemma LeafWithV(perm: nat)
    requires perm < 1024 && IsLeaf(perm)
    ensures WithV(perm) < 1024 && Valid(WithV(perm)) && IsLeaf(WithV(perm))
  {
  }

  lemma Rehomed(m: Vm, t: Vm, all: set<nat>)
    requires Tree(m) && Conserved(m, all) && t == m.(home := t.home)
    ensures Tree(t) && Conserved(t, all) && FreeSet(t) == FreeSet(m)
  {
    SameTables(m, t);
    hide Tree;
  }

  lemma StoredRehomed(m: Vm, t: Vm, u: Vm, root: nat, v: nat, e: nat)
    requires Stored(m, t, root, v, e) && u == t.(home := u.home)
    ensures Stored(m, u, root, v, e)
  {
    assert forall root', v' :: Leaf(u, root', v') == Leaf(t, root', v');
    hide Leaf;
  }

  // ----- sizes in bytes -----

  /** PGROUNDUP(sz) / PGSIZE. */
  function Up(sz: nat): (n: nat) { (sz + PGSIZE - 1) / PGSIZE }

  lemma UpBounds(sz: nat)
    ensures sz <= Up(sz) * PGSIZE < sz + PGSIZE
  {
  }

  /** The whole pages from byte address paStart on. */
  lemma UpIsFirst(paStart: nat, q: nat)
    ensures Up(paStart) <= q <==> paStart <= q * PGSIZE
  {
    UpBounds(paStart);
  }

  lemma UpMonotone(a: nat, b: nat)
    requires a <= b
    ensures Up(a) <= Up(b)
  {
  }

  lemma UpBelow(a: nat, sz: nat)
    requires a * PGSIZE < sz
    ensures a < Up(sz)
  {
  }

  lemma UserFlags()
    ensures USER < 1024 && IsLeaf(USER) && WithV(USER) == USER + 1 && Valid(USER + 1) && IsLeaf(USER + 1)
  {
  }

  // ----- permissions -----

  /** Bits 0 to 4 of an entry, V, R, W, X and U, are set, and no other flag. */
  predicate UserRwx(e: nat) {
    e % 2 == 1 && e / 2 % 2 == 1 && e / 4 % 2 == 1 && e / 8 % 2 == 1 && e / 16 % 2 == 1 && e / 32 % 32 == 0
  }

  /** Virtual pages lo to hi may be read, written and executed by the user. */
  ghost predicate Usable(m: Vm, root: nat, lo: nat, hi: nat) {
    forall v :: lo <= v < hi ==> UserRwx(Leaf(m, root, v))
  }

  lemma UsableNone(m: Vm, root: nat, lo: nat)
    ensures Usable(m, root, lo, lo)
  {
  }

  lemma RwxEntry(p: nat)
    ensures UserRwx(Pte(p, WithV(USER)))
  {
    assert WithV(USER) == 31;
    FlagsOf(p);
  }

  lemma FlagsOf(p: nat)
    ensures UserRwx(1024 * p + 31)
  {
    hide UserRwx;
    Div2(512 * p, 31);
    Div4(256 * p, 31);
    Div8(128 * p, 31);
    Div16(64 * p, 31);
    Div32(32 * p, 31);
    FlagBitsOf(p, 1024 * p + 31);
  }

  lemma FlagBitsOf(p: nat, e: nat)
    requires e == 1024 * p + 31 && e / 2 == 512 * p + 15 && e / 4 == 256 * p + 7 && e / 8 == 128 * p + 3
    requires e / 16 == 64 * p + 1 && e / 32 == 32 * p
    ensures UserRwx(e)
  {
    Mod2(512 * p, 31);
    Mod2(256 * p, 15);
    Mod2(128 * p, 7);
    Mod2(64 * p, 3);
    Mod2(32 * p, 1);
  }

  lemma Div4(a: nat, x: nat)
    ensures (4 * a + x) / 4 == a + x / 4
  {
  }

  lemma Div8(a: nat, x: nat)
    ensures (8 * a + x) / 8 == a + x / 8
  {
  }

  lemma Div32(a: nat, x: nat)
    ensures (32 * a + x) / 32 == a + x / 32
  {
  }

  lemma UsableMore(t: Vm, u: Vm, root: nat, lo: nat, k: nat, p: nat)
    requires Usable(t, root, lo, k) && lo <= k < MAXVPN && Added(t, u, root, k, p, WithV(USER))
    ensures Usable(u, root, lo, k + 1)
  {
    hide Leaf, Pte, UserRwx, WithV;
    RwxEntry(p);
  }

  lemma GrownStartSpace(m: Vm, root: nat, n: nat)
    requires Space(m, root, n)
    ensures n <= TRAPFRAME && forall v :: n <= v < TRAPFRAME ==> !Valid(Leaf(m, root, v))
  {
  }

  /** The pigeonhole at work: a space never fills up to the trapframe. */
  lemma RoomLeft(t: Vm, root: nat, a: nat, all: set<nat>)
    requires Conserved(t, all) && Users(t) && Space(t, root, a) && |all| < TRAPFRAME
    ensures a < TRAPFRAME && !Valid(Leaf(t, root, a))
  {
    SizeBound(t, root, a, all);
  }

  lemma StillGrown(m: Vm, u: Vm, root: nat, lo: nat, a: nat)
    requires Grown(m, u, root, lo, a)
    ensures forall v :: lo <= v < a ==> UserPage(u, root, v)
  {
  }

  lemma SameMapSpace(m: Vm, t: Vm, root: nat, n: nat)
    requires SameMap(m, t) && t.home == m.home && Space(m, root, n)
    ensures Space(t, root, n)
  {
    hide Leaf, Ppn, IsLeaf, Valid;
    forall v | 0 <= v < n ensures UserPage(t, root, v) {
      assert UserPage(m, root, v);
    }
  }

  lemma AddedContents(m: Vm, t: Vm, root: nat, v: nat, p: nat, flags: nat)
    requires Added(m, t, root, v, p, flags)
    ensures t.pages.Keys == m.pages.Keys + {p} && forall q :: q in m.pages ==> t.pages[q] == m.pages[q]
  {
  }

  lemma SameMapRefl(m: Vm)
    ensures SameMap(m, m)
  {
  }

  lemma SpacePages(m: Vm, root: nat, n: nat)
    requires Space(m, root, n)
    ensures n <= TRAPFRAME && forall v :: 0 <= v < n ==> UserPage(m, root, v)
  {
  }

  /** Every reachable size is at most physical memory. */
  lemma SpaceSmall(m: Vm, root: nat, sz: nat, all: set<nat>)
    requires Conserved(m, all) && Users(m) && Space(m, root, Up(sz)) && |all| <= 32768
    ensures sz <= 32768 * PGSIZE
  {
    SizeBound(m, root, Up(sz), all);
    UpBounds(sz);
  }

  // ----- copying a space -----

  /** The first n pages of `child` in t have the bytes and flags of `parent` in m. */
  ghost predicate Copied(m: Vm, t: Vm, parent: nat, child: nat, n: nat) {
    forall v :: 0 <= v < n ==>
      && Flags(Leaf(t, child, v)) == Flags(Leaf(m, parent, v))
      && Ppn(Leaf(m, parent, v)) in m.pages && Ppn(Leaf(t, child, v)) in t.pages
      && t.pages[Ppn(Leaf(t, child, v))] == m.pages[Ppn(Leaf(m, parent, v))]
  }

  lemma CopiedNone(m: Vm, parent: nat, child: nat)
    ensures Copied(m, m, parent, child, 0)
  {
  }

  /** The parent's page is still there while the child grows. */
  lemma ParentPage(m: Vm, t: Vm, parent: nat, child: nat, v: nat, n: nat)
    requires Users(m) && Space(m, parent, n) && v < n && Grown(m, t, child, 0, v) && parent != child
    ensures v < TRAPFRAME < MAXVPN
    ensures var e := Leaf(m, parent, v);
            && Leaf(t, parent, v) == e && Valid(e) && Flags(e) < 1024 && IsLeaf(Flags(e)) && WithV(Flags(e)) == Flags(e)
            && Valid(Flags(e)) && Ppn(e) in m.pages && Ppn(e) in t.pages && t.pages[Ppn(e)] == m.pages[Ppn(e)]
  {
    hide Leaf, Frames, Valid, IsLeaf, Ppn, Flags, WithV;
    assert UserPage(m, parent, v);
    EntryFlags(Leaf(m, parent, v));
  }

  lemma EntryFlags(e: nat)
    requires Valid(e) && IsLeaf(e)
    ensures Flags(e) < 1024 && IsLeaf(Flags(e)) && Valid(Flags(e)) && WithV(Flags(e)) == Flags(e)
  {
    assert e == Pte(Ppn(e), Flags(e));
    PteParts(Ppn(e), Flags(e));
    hide IsLeaf;
  }

  lemma CopiedMore(m: Vm, t: Vm, u: Vm, parent: nat, child: nat, v: nat, p: nat, n: nat)
    requires Users(m) && Space(m, parent, n) && v < n && v < TRAPFRAME && Copied(m, t, parent, child, v)
    requires var f := Flags(Leaf(m, parent, v)); f < 1024 && Added(t, u, child, v, p, f)
    requires Ppn(Leaf(m, parent, v)) in m.pages && u.pages[p] == m.pages[Ppn(Leaf(m, parent, v))]
    ensures Copied(m, u, parent, child, v + 1)
  {
    hide Leaf, Pte, Ppn, Flags, Space, Users;
    PteParts(p, Flags(Leaf(m, parent, v)));
    assert Leaf(u, child, v) == Pte(p, Flags(Leaf(m, parent, v)));
  }
}
