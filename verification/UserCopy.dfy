/** User memory as one flat array of bytes (kernel/vm.c: walkaddr, copyout, copyin,
    copyinstr). */
module UserCopy {
  import opened Machine
  import opened PageTable
  import opened PageOps
  import opened PageWalk
  import opened AddressSpace

  /** walkaddr finds virtual page v. */
  predicate Accessible(m: Vm, root: nat, v: nat) {
    v < MAXVPN && Valid(Leaf(m, root, v)) && HasU(Leaf(m, root, v))
  }

  /** Every entry the user may use is for a user page of this space. */
  ghost predicate Sound(m: Vm, root: nat) {
    forall v :: Accessible(m, root, v) ==>
      var p := Ppn(Leaf(m, root, v)); p in m.pages && p in m.home && m.home[p] == Home(root, v)
  }

  lemma SpaceSound(m: Vm, root: nat, n: nat)
    requires Users(m) && Space(m, root, n)
    requires !HasU(Leaf(m, root, TRAPFRAME)) && !HasU(Leaf(m, root, TRAMPOLINE))
    ensures Sound(m, root)
  {
    hide Leaf, Valid, HasU, Ppn, IsLeaf;
    forall v: nat | Accessible(m, root, v)
      ensures var p := Ppn(Leaf(m, root, v)); p in m.pages && p in m.home && m.home[p] == Home(root, v)
    {
      assert v < n;
      assert UserPage(m, root, v);
    }
  }

  /** A new space, with entries for the trampoline (R, X) and the trapframe (R, W) alone, has
      nothing the user may use. */
  lemma SpecialsHidden(m: Vm, root: nat, trampoline: nat, trapframe: nat)
    requires Users(m) && Space(m, root, 0)
    requires Leaf(m, root, TRAMPOLINE) == Pte(trampoline, 11) && Leaf(m, root, TRAPFRAME) == Pte(trapframe, 7)
    ensures Sound(m, root) && forall v :: !Accessible(m, root, v)
  {
    hide Leaf, Pte, Ppn, IsLeaf;
    UserBit(trampoline, 11);
    UserBit(trapframe, 7);
    SpaceSound(m, root, 0);
  }

  // ----- the flat view -----

  predicate Can(m: Vm, root: nat, a: nat) { Accessible(m, root, a / PGSIZE) }

  /** Byte a of the address space; 0 where there is none. */
  function Flat(m: Vm, root: nat, a: nat): (b: byte) {
    var p := Ppn(Leaf(m, root, a / PGSIZE));
    if p in m.pages then m.pages[p].bytes[a % PGSIZE] else 0
  }

  function Bytes(m: Vm, root: nat, a: nat, n: nat): (s: seq<byte>)
    ensures |s| == n && forall i :: 0 <= i < n ==> s[i] == Flat(m, root, a + i)
  {
    seq<byte>(n, i requires 0 <= i < n => Flat(m, root, a + i))
  }

  ghost predicate CanAll(m: Vm, root: nat, a: nat, n: nat) {
    forall b: nat :: a <= b < a + n ==> Can(m, root, b)
  }

  /** t is m with the bytes s stored from address va on: no other byte of this or any other
      space changed, and no page outside this space. */
  ghost predicate Wrote(m: Vm, t: Vm, root: nat, va: nat, s: seq<byte>)
    ensures Wrote(m, t, root, va, s) ==> t.node == m.node && t.free == m.free && t.home == m.home
  {
    && t == m.(pages := t.pages) && t.pages.Keys == m.pages.Keys
    && (forall root', a :: 0 <= a && Sound(m, root') && Can(m, root', a) ==>
          Flat(t, root', a) == if root' == root && va <= a < va + |s| then s[a - va] else Flat(m, root', a))
    && (forall p :: p in m.pages && !(p in m.home && m.home[p].root == root) ==> t.pages[p] == m.pages[p])
  }

  lemma WroteNone(m: Vm, root: nat, va: nat)
    ensures Wrote(m, m, root, va, [])
  {
    hide Leaf, Ppn;
  }

  /** Storing changes no mapping, so the same addresses stay accessible. */
  lemma SameAccess(m: Vm, t: Vm)
    requires t == m.(pages := t.pages) && t.pages.Keys == m.pages.Keys
    ensures forall root, v :: Leaf(t, root, v) == Leaf(m, root, v)
    ensures forall root, v :: Accessible(t, root, v) == Accessible(m, root, v)
    ensures forall root :: Sound(t, root) == Sound(m, root)
  {
    assert forall root, v :: Leaf(t, root, v) == Leaf(m, root, v);
    hide Leaf, HasU, Valid, Ppn;
    assert forall root, v :: Accessible(t, root, v) == Accessible(m, root, v);
    hide Accessible;
    forall root ensures Sound(t, root) == Sound(m, root) { SoundSame(m, t, root); SoundSame(t, m, root); }
  }

  lemma SoundSame(m: Vm, t: Vm, root: nat)
    requires t == m.(pages := t.pages) && t.pages.Keys == m.pages.Keys
    requires forall root, v :: Leaf(t, root, v) == Leaf(m, root, v)
    requires forall root, v :: Accessible(t, root, v) == Accessible(m, root, v)
    ensures Sound(m, root) ==> Sound(t, root)
  {
    hide Leaf, Accessible, Ppn;
  }

  lemma WroteKeeps(m: Vm, t: Vm, root: nat, va: nat, s: seq<byte>, all: set<nat>)
    requires Tree(m) && Conserved(m, all) && Users(m) && Wrote(m, t, root, va, s)
    ensures Tree(t) && Conserved(t, all) && Users(t) && SameLeaves(m, t)
  {
    hide Tree, Flat, Can;
    SameTables(m, t);
    SameAccess(m, t);
    hide Leaf, IsLeaf, Valid, Ppn, Sound, Accessible;
  }

  // ----- one memmove inside a page -----

  function Patch(page: Page, o: nat, chunk: seq<byte>): (r: Page)
    requires o + |chunk| <= PGSIZE
  {
    Frame(page.bytes[..o] + chunk + page.bytes[o + |chunk|..])
  }

  lemma PatchAt(page: Page, o: nat, chunk: seq<byte>, i: nat)
    requires o + |chunk| <= PGSIZE && i < PGSIZE
    ensures Patch(page, o, chunk).bytes[i] == if o <= i < o + |chunk| then chunk[i - o] else page.bytes[i]
  {
  }

  function PutChunk(m: Vm, root: nat, va: nat, chunk: seq<byte>): (t: Vm)
    requires Ppn(Leaf(m, root, va / PGSIZE)) in m.pages && va % PGSIZE + |chunk| <= PGSIZE
  {
    var p := Ppn(Leaf(m, root, va / PGSIZE));
    m.(pages := m.pages[p := Patch(m.pages[p], va % PGSIZE, chunk)])
  }

  lemma PageOfByte(m: Vm, root: nat, a: nat)
    requires Sound(m, root) && Can(m, root, a)
    ensures var p := Ppn(Leaf(m, root, a / PGSIZE));
            p in m.pages && p in m.home && m.home[p] == Home(root, a / PGSIZE)
  {
    hide Leaf, Ppn, Accessible;
  }

  lemma ChunkByte(m: Vm, root: nat, va: nat, chunk: seq<byte>, root': nat, a: nat)
    requires Sound(m, root) && Can(m, root, va) && va % PGSIZE + |chunk| <= PGSIZE
    requires Sound(m, root') && Can(m, root', a)
    ensures Ppn(Leaf(m, root, va / PGSIZE)) in m.pages
    ensures Flat(PutChunk(m, root, va, chunk), root', a) ==
            if root' == root && va <= a < va + |chunk| then chunk[a - va] else Flat(m, root', a)
  {
    PageOfByte(m, root, va);
    PageOfByte(m, root', a);
    var t := PutChunk(m, root, va, chunk);
    SameAccess(m, t);
    hide Leaf, Ppn, Sound, Can, Patch;
    PatchAt(m.pages[Ppn(Leaf(m, root, va / PGSIZE))], va % PGSIZE, chunk, a % PGSIZE);
    SamePage(va, |chunk|, a);
  }

  lemma SamePage(va: nat, n: nat, a: nat)
    requires va % PGSIZE + n <= PGSIZE
    ensures va <= a < va + n <==> a / PGSIZE == va / PGSIZE && va % PGSIZE <= a % PGSIZE < va % PGSIZE + n
    ensures a / PGSIZE == va / PGSIZE ==> a - va == a % PGSIZE - va % PGSIZE
  {
  }

  /** A memmove into the page of va is a store into the flat memory. */
  lemma ChunkWrote(m: Vm, root: nat, va: nat, chunk: seq<byte>)
    requires Sound(m, root) && Can(m, root, va) && va % PGSIZE + |chunk| <= PGSIZE
    ensures Ppn(Leaf(m, root, va / PGSIZE)) in m.pages
    ensures Wrote(m, PutChunk(m, root, va, chunk), root, va, chunk)
  {
    PageOfByte(m, root, va);
    var t := PutChunk(m, root, va, chunk);
    hide Leaf, Ppn, Sound, Can, Patch, Flat;
    forall root', a | 0 <= a && Sound(m, root') && Can(m, root', a)
      ensures Flat(t, root', a) == if root' == root && va <= a < va + |chunk| then chunk[a - va] else Flat(m, root', a)
    {
      ChunkByte(m, root, va, chunk, root', a);
    }
  }

  lemma WroteMore(m: Vm, t: Vm, u: Vm, root: nat, va: nat, s: seq<byte>, s': seq<byte>)
    requires Wrote(m, t, root, va, s) && Wrote(t, u, root, va + |s|, s')
    ensures Wrote(m, u, root, va, s + s')
  {
    SameAccess(m, t);
    hide Leaf, Flat, Sound, Accessible, Ppn;
  }

  lemma AllInPage(m: Vm, root: nat, a: nat, n: nat)
    requires Can(m, root, a) && a % PGSIZE + n <= PGSIZE
    ensures CanAll(m, root, a, n)
  {
    hide Accessible;
    forall b: nat | a <= b < a + n ensures Can(m, root, b) { SamePage(a, n, b); }
  }

  // ----- what the copies are for -----

  /** The bytes of usable pages are accessible. */
  lemma UsableBytes(m: Vm, root: nat, lo: nat, hi: nat, a: nat, n: nat)
    requires Usable(m, root, lo, hi) && hi <= MAXVPN && lo * PGSIZE <= a && a + n <= hi * PGSIZE
    ensures CanAll(m, root, a, n)
  {
    hide Leaf;
    forall b: nat | a <= b < a + n ensures Can(m, root, b) {
      InPages(lo, hi, b);
      assert UserRwx(Leaf(m, root, b / PGSIZE));
    }
  }

  lemma InPages(lo: nat, hi: nat, b: nat)
    requires lo * PGSIZE <= b < hi * PGSIZE
    ensures lo <= b / PGSIZE < hi
  {
  }

  /** Bytes copied out come back when copied in. */
  lemma CopyRoundTrip(m: Vm, t: Vm, root: nat, va: nat, s: seq<byte>)
    requires Sound(m, root) && CanAll(m, root, va, |s|) && Wrote(m, t, root, va, s)
    ensures CanAll(t, root, va, |s|) && Bytes(t, root, va, |s|) == s
  {
    SameAccess(m, t);
    hide Leaf, Flat, Sound, Accessible, Ppn, Bytes;
    forall b: nat | va <= b < va + |s| ensures Can(t, root, b) { assert Can(m, root, b); }
    forall i | 0 <= i < |s| ensures Bytes(t, root, va, |s|)[i] == s[i] { assert Can(m, root, va + i); }
  }

  /** What one space is given, no other space sees. */
  lemma CopyIsolated(m: Vm, t: Vm, root: nat, va: nat, s: seq<byte>, other: nat, a: nat, n: nat)
    requires Wrote(m, t, root, va, s) && other != root && Sound(m, other) && CanAll(m, other, a, n)
    ensures CanAll(t, other, a, n) && Bytes(t, other, a, n) == Bytes(m, other, a, n)
  {
    SameAccess(m, t);
    hide Leaf, Flat, Sound, Accessible, Ppn, Bytes;
    forall b: nat | a <= b < a + n ensures Can(t, other, b) { assert Can(m, other, b); }
    forall i | 0 <= i < n ensures Bytes(t, other, a, n)[i] == Bytes(m, other, a, n)[i] { assert Can(m, other, a + i); }
  }

  /** After uvmcopy the child has the parent's bytes, at the addresses the parent may use. */
  lemma ForkCopies(m: Vm, t: Vm, parent: nat, child: nat, n: nat, a: nat)
    requires Space(m, parent, n) && Space(t, child, n) && Copied(m, t, parent, child, n) && a < n * PGSIZE
    ensures Can(t, child, a) <==> Can(m, parent, a)
    ensures Flat(t, child, a) == Flat(m, parent, a)
  {
    var v := a / PGSIZE;
    assert v < n;
    assert UserPage(m, parent, v) && UserPage(t, child, v);
    FlagBits(Leaf(m, parent, v), Leaf(t, child, v));
    hide Leaf, HasU, Ppn, IsLeaf, Valid;
  }

  /** The access bits are among the flags. */
  lemma FlagBits(e: nat, f: nat)
    requires Flags(e) == Flags(f)
    ensures HasU(e) <==> HasU(f)
  {
    UserBit(Ppn(e), Flags(e));
    UserBit(Ppn(f), Flags(f));
    PteWhole(e);
    PteWhole(f);
    hide HasU, Pte, Ppn, Flags;
  }

  // ----- steps of the copy loops -----

  lemma CanMore(m: Vm, root: nat, a: nat, k: nat, n: nat)
    requires CanAll(m, root, a, k) && CanAll(m, root, a + k, n)
    ensures CanAll(m, root, a, k + n)
  {
    hide Can;
  }

  lemma BytesMore(m: Vm, root: nat, a: nat, k: nat, n: nat)
    ensures Bytes(m, root, a, k) + Bytes(m, root, a + k, n) == Bytes(m, root, a, k + n)
  {
    hide Flat;
  }

  /** What memmove reads from the page of a. */
  lemma PageBytes(m: Vm, root: nat, a: nat, n: nat)
    requires Sound(m, root) && Can(m, root, a) && a % PGSIZE + n <= PGSIZE
    ensures var p := Ppn(Leaf(m, root, a / PGSIZE));
            p in m.pages && m.pages[p].bytes[a % PGSIZE..a % PGSIZE + n] == Bytes(m, root, a, n)
  {
    PageOfByte(m, root, a);
    hide Leaf, Ppn, Sound, Can;
    var page := m.pages[Ppn(Leaf(m, root, a / PGSIZE))].bytes;
    forall i | 0 <= i < n ensures page[a % PGSIZE..a % PGSIZE + n][i] == Bytes(m, root, a, n)[i] {
      SamePage(a, n, a + i);
    }
  }

  lemma SameAccessAll(m: Vm, t: Vm, root: nat, a: nat, n: nat)
    requires t == m.(pages := t.pages) && t.pages.Keys == m.pages.Keys
    ensures CanAll(t, root, a, n) <==> CanAll(m, root, a, n)
    ensures Sound(t, root) <==> Sound(m, root)
  {
    SameAccess(m, t);
    hide Accessible, Sound;
    forall b: nat ensures Can(t, root, b) <==> Can(m, root, b) { }
    hide Can;
  }

  // ----- strings -----

  /** The string at a is n bytes long. */
  ghost predicate StringAt(m: Vm, root: nat, a: nat, n: nat) {
    CanAll(m, root, a, n + 1) && Flat(m, root, a + n) == 0 && NoNul(m, root, a, n)
  }

  ghost predicate NoNul(m: Vm, root: nat, a: nat, n: nat) {
    forall b: nat :: a <= b < a + n ==> Flat(m, root, b) != 0
  }

  lemma CanOne(m: Vm, root: nat, a: nat)
    ensures Can(m, root, a) <==> CanAll(m, root, a, 1)
    ensures Can(m, root, a) <==> Accessible(m, root, a / PGSIZE)
  {
  }

  lemma CannotAll(m: Vm, root: nat, a: nat, k: nat, n: nat)
    requires k < n && !Can(m, root, a + k)
    ensures !CanAll(m, root, a, n)
  {
  }

  lemma WroteParts(m: Vm, t: Vm, root: nat, va: nat, s: seq<byte>)
    requires Wrote(m, t, root, va, s)
    ensures t == m.(pages := t.pages) && t.pages.Keys == m.pages.Keys
  {
  }

  lemma CanNone(m: Vm, root: nat, a: nat)
    ensures CanAll(m, root, a, 0) && NoNul(m, root, a, 0)
  {
  }

  /** The next page starts where this chunk ends, unless it was the last. */
  lemma NextPage(a: nat, n: nat)
    requires n == PGSIZE - a % PGSIZE
    ensures a / PGSIZE * PGSIZE + PGSIZE == a + n
  {
  }

  lemma PageByte(m: Vm, root: nat, a: nat, i: nat)
    requires Sound(m, root) && Can(m, root, a) && a % PGSIZE + i < PGSIZE
    ensures var p := Ppn(Leaf(m, root, a / PGSIZE));
            p in m.pages && m.pages[p].bytes[a % PGSIZE + i] == Flat(m, root, a + i)
    ensures Can(m, root, a + i) && Bytes(m, root, a + i, 1) == [Flat(m, root, a + i)]
  {
    PageOfByte(m, root, a);
    SamePage(a, i + 1, a + i);
    hide Leaf, Ppn, Sound, Accessible;
  }

  lemma NoNulMore(m: Vm, root: nat, a: nat, k: nat)
    requires NoNul(m, root, a, k) && Flat(m, root, a + k) != 0
    ensures NoNul(m, root, a, k + 1)
  {
    hide Flat;
  }

  lemma IsString(m: Vm, root: nat, a: nat, n: nat)
    requires CanAll(m, root, a, n + 1) && Flat(m, root, a + n) == 0 && NoNul(m, root, a, n)
    ensures StringAt(m, root, a, n)
  {
  }

  /** With n bytes that are not NUL, a string can only be longer. */
  lemma StringLonger(m: Vm, root: nat, a: nat, n: nat)
    requires NoNul(m, root, a, n)
    ensures forall k: nat :: StringAt(m, root, a, k) ==> k >= n
  {
    hide Flat, Can;
  }

  /** An inaccessible byte ends every string before it. */
  lemma StringShorter(m: Vm, root: nat, a: nat, n: nat)
    requires !Can(m, root, a + n)
    ensures forall k: nat :: StringAt(m, root, a, k) ==> k < n
  {
    hide Flat, Accessible;
  }
}
