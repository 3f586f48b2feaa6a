/** The virtio ring shared by driver and device (kernel/virtio_disk.c; section 2.6 of VIRTIO
    1.1), over every run of driver and device steps.  The device takes requests in ring
    order and completes them in any order; interrupts handle one completion per step. */
module VirtioRing {
  import opened Counting

  const NUM := 8
  const UINT16 := 65536

  /** A descriptor's chaining: VRING_DESC_F_NEXT and the next index. */
  datatype Desc = Desc(chained: bool, next: nat)

  /** How far a request is: the k-th made available, taken by the device, the k-th completed,
      seen by the interrupt handler. */
  datatype Phase = Posted(k: nat) | Working | Done(k: nat) | Seen

  /** The request whose chain starts at its key. */
  datatype Req = Req(buf: nat, d1: nat, d2: nat, phase: Phase)

  /** `avail` and `availIdx` are avail[2...] and avail[1]; `elems` and `usedId` the device's used
      area; `usedIdx` how far the driver looked; `info` the buffers by chain head, -1 for
      none; `busy` the buffers with b->disk == 1.  The rest is the history: the requests
      in flight, who owns each descriptor, and how many requests were posted, taken,
      completed and seen. */
  datatype Disk = Disk(desc: seq<Desc>, free: seq<bool>, avail: seq<nat>, availIdx: nat, devIdx: nat,
                       elems: seq<nat>, usedId: nat, usedIdx: nat, info: seq<int>, busy: set<nat>,
                       reqs: map<nat, Req>, owner: map<nat, nat>,
                       posted: nat, taken: nat, completed: nat, seen: nat)

  predicate Sized(s: Disk) {
    && |s.desc| == NUM && |s.free| == NUM && |s.avail| == NUM && |s.elems| == NUM && |s.info| == NUM
    && s.availIdx < UINT16 && s.devIdx < UINT16 && s.usedId < UINT16 && s.usedIdx < NUM
  }

  // ----- the steps -----

  datatype Step =
    | Submit(b: nat, h: nat, d1: nat, d2: nat)   // virtio_disk_rw, with the descriptors it got
    | Take | Complete(h: nat)                    // the device
    | Intr                                       // one turn of virtio_disk_intr's loop
    | Finish(h: nat)                             // virtio_disk_rw once b->disk is 0

  predicate Enabled(s: Disk, a: Step) {
    && Sized(s)
    && match a
       case Submit(b, h, d1, d2) =>
         && h < NUM && d1 < NUM && d2 < NUM && h != d1 && h != d2 && d1 != d2
         && s.free[h] && s.free[d1] && s.free[d2]
         && (forall i :: i in s.reqs ==> s.reqs[i].buf != b)   // b's sleep lock
       case Take => s.devIdx != s.availIdx
       case Complete(h) => h in s.reqs && s.reqs[h].phase.Working?
       case Intr => s.usedIdx % NUM != s.usedId % NUM
       case Finish(h) => h in s.reqs && h < NUM && s.reqs[h].buf !in s.busy
  }

  /** virtio_disk_rw's three descriptors, info and the avail ring. */
  function Submitted(s: Disk, b: nat, h: nat, d1: nat, d2: nat): (t: Disk)
    requires Enabled(s, Submit(b, h, d1, d2))
  {
    s.(desc := s.desc[h := Desc(true, d1)][d1 := Desc(true, d2)][d2 := Desc(false, 0)],
       free := s.free[h := false][d1 := false][d2 := false],
       info := s.info[h := b], busy := s.busy + {b},
       avail := s.avail[s.availIdx % NUM := h], availIdx := (s.availIdx + 1) % UINT16,
       reqs := s.reqs[h := Req(b, d1, d2, Posted(s.posted))],
       owner := s.owner[h := h][d1 := h][d2 := h], posted := s.posted + 1)
  }

  function SetPhase(s: Disk, h: nat, p: Phase): (r: map<nat, Req>) {
    if h in s.reqs then s.reqs[h := s.reqs[h].(phase := p)] else s.reqs
  }

  /** The device reads the next head from the avail ring. */
  function Taken(s: Disk): (t: Disk)
    requires Enabled(s, Take)
  {
    s.(devIdx := (s.devIdx + 1) % UINT16, reqs := SetPhase(s, s.avail[s.devIdx % NUM], Working), taken := s.taken + 1)
  }

  /** The device appends a head to the used ring. */
  function Completed(s: Disk, h: nat): (t: Disk)
    requires Enabled(s, Complete(h))
  {
    s.(elems := s.elems[s.usedId % NUM := h], usedId := (s.usedId + 1) % UINT16,
       reqs := SetPhase(s, h, Done(s.completed)), completed := s.completed + 1)
  }

  /** The buffer that the driver finds for the next completion. */
  function Found(s: Disk): (b: int)
    requires Sized(s)
  {
    if s.elems[s.usedIdx] < NUM then s.info[s.elems[s.usedIdx]] else -1
  }

  function Handled(s: Disk): (t: Disk)
    requires Enabled(s, Intr)
  {
    s.(busy := if Found(s) >= 0 then s.busy - {Found(s)} else s.busy, usedIdx := (s.usedIdx + 1) % NUM,
       reqs := SetPhase(s, s.elems[s.usedIdx], Seen), seen := s.seen + 1)
  }

  /** info[h].b = 0 and free_chain. */
  function Finished(s: Disk, h: nat): (t: Disk)
    requires Enabled(s, Finish(h))
  {
    s.(info := s.info[h := -1], free := Freed(s.desc, s.free, h, NUM),
       reqs := s.reqs - {h}, owner := s.owner - {h, s.reqs[h].d1, s.reqs[h].d2})
  }

  /** free_chain: the flags after freeing the chain from i on, of at most n descriptors.  A
      panic stops it. */
  function Freed(desc: seq<Desc>, free: seq<bool>, i: nat, n: nat): (r: seq<bool>)
    requires |desc| == |free| == NUM
    ensures |r| == NUM
    decreases n
  {
    if n == 0 || i >= NUM || free[i] then free
    else if desc[i].chained then Freed(desc, free[i := true], desc[i].next, n - 1)
    else free[i := true]
  }

  function After(s: Disk, a: Step): (t: Disk)
    requires Enabled(s, a)
  {
    match a
    case Submit(b, h, d1, d2) => Submitted(s, b, h, d1, d2)
    case Take => Taken(s)
    case Complete(h) => Completed(s, h)
    case Intr => Handled(s)
    case Finish(h) => Finished(s, h)
  }

  // ----- the invariant -----

  /** A request owns three descriptors, chained, and the record of its buffer. */
  predicate Chain(s: Disk, h: nat)
    requires Sized(s) && h in s.reqs
  {
    var r := s.reqs[h];
    && h < NUM && r.d1 < NUM && r.d2 < NUM && h != r.d1 && h != r.d2 && r.d1 != r.d2
    && s.desc[h] == Desc(true, r.d1) && s.desc[r.d1] == Desc(true, r.d2) && !s.desc[r.d2].chained
    && h in s.owner && r.d1 in s.owner && r.d2 in s.owner && s.owner[h] == h && s.owner[r.d1] == h && s.owner[r.d2] == h
    && s.info[h] == r.buf
  }

  /** A descriptor is in use exactly if it has an owner, and then it is in that chain. */
  predicate Owned(s: Disk, i: nat)
    requires Sized(s) && i < NUM
  {
    && (s.free[i] <==> i !in s.owner)
    && (i in s.owner ==>
        s.owner[i] in s.reqs && (i == s.owner[i] || i == s.reqs[s.owner[i]].d1 || i == s.reqs[s.owner[i]].d2))
  }

  /** Where a request is, and its buffer's flag. */
  predicate Where(s: Disk, h: nat)
    requires Sized(s) && h in s.reqs
  {
    var r := s.reqs[h];
    && (r.phase.Posted? ==> s.taken <= r.phase.k < s.posted && s.avail[r.phase.k % NUM] == h)
    && (r.phase.Done? ==> s.seen <= r.phase.k < s.completed && s.elems[r.phase.k % NUM] == h)
    && (r.buf in s.busy <==> !r.phase.Seen?)
  }

  ghost predicate Counters(s: Disk)
    requires Sized(s)
  {
    && s.seen <= s.completed && s.taken <= s.posted
    && s.availIdx == s.posted % UINT16 && s.devIdx == s.taken % UINT16
    && s.usedId == s.completed % UINT16 && s.usedIdx == s.seen % NUM
    && (forall k :: s.taken <= k < s.posted ==> InAvail(s, k))
    && (forall k :: s.seen <= k < s.completed ==> InUsed(s, k))
  }

  predicate InAvail(s: Disk, k: nat)
    requires Sized(s)
  {
    var h := s.avail[k % NUM]; h in s.reqs && s.reqs[h].phase == Posted(k)
  }

  predicate InUsed(s: Disk, k: nat)
    requires Sized(s)
  {
    var h := s.elems[k % NUM]; h in s.reqs && s.reqs[h].phase == Done(k)
  }

  ghost predicate Inv(s: Disk)
    ensures Inv(s) ==> Sized(s) && Counters(s)
  {
    && Sized(s) && Counters(s)
    && (forall h :: h in s.reqs ==> Chain(s, h) && Where(s, h))
    && (forall i :: 0 <= i < NUM ==> Owned(s, i))
    && (forall i :: i in s.owner ==> i < NUM)
    && (forall h, g :: h in s.reqs && g in s.reqs && h != g ==> s.reqs[h].buf != s.reqs[g].buf)
  }

  // ----- at most two requests in flight -----

  /** Three chains would need nine descriptors. */
  lemma NotThree(s: Disk, a: nat, b: nat, c: nat)
    requires Inv(s) && a in s.reqs && b in s.reqs && c in s.reqs
    ensures a == b || b == c || a == c
  {
    hide Inv, Members, Below;
    if a != b && b != c && a != c {
      ChainSet(s, a);
      ChainSet(s, b);
      ChainSet(s, c);
      TooMany(Members(s, a), Members(s, b), Members(s, c));
    }
  }

  lemma TooMany(x: set<nat>, y: set<nat>, z: set<nat>)
    requires |x| == 3 && |y| == 3 && |z| == 3 && x !! y && x !! z && y !! z
    ensures !(x + y + z <= Below(NUM))
  {
    if x + y + z <= Below(NUM) {
      SubsetCount(x + y + z, Below(NUM));
    }
    assert |x + y| == 6 && (x + y) !! z;
  }

  ghost function Members(s: Disk, h: nat): (m: set<nat>)
    requires h in s.reqs
  {
    {h, s.reqs[h].d1, s.reqs[h].d2}
  }

  lemma ChainSet(s: Disk, h: nat)
    requires Inv(s) && h in s.reqs
    ensures |Members(s, h)| == 3 && Members(s, h) <= Below(NUM)
    ensures forall i :: i in Members(s, h) ==> i in s.owner && s.owner[i] == h
  {
    hide Inv, Below;
    ChainFacts(s, h);
    var r := s.reqs[h];
    assert |{h, r.d1}| == 2 && |{h, r.d1, r.d2}| == 3;
  }

  lemma ChainFacts(s: Disk, h: nat)
    requires Inv(s) && h in s.reqs
    ensures Chain(s, h) && Where(s, h)
  {
  }

  lemma FewPosted(s: Disk)
    requires Inv(s)
    ensures s.posted - s.taken <= 2 && s.completed - s.seen <= 2
  {
    if s.posted - s.taken > 2 {
      assert InAvail(s, s.taken) && InAvail(s, s.taken + 1) && InAvail(s, s.taken + 2);
      NotThree(s, s.avail[s.taken % NUM], s.avail[(s.taken + 1) % NUM], s.avail[(s.taken + 2) % NUM]);
      assert false;
    }
    if s.completed - s.seen > 2 {
      assert InUsed(s, s.seen) && InUsed(s, s.seen + 1) && InUsed(s, s.seen + 2);
      NotThree(s, s.elems[s.seen % NUM], s.elems[(s.seen + 1) % NUM], s.elems[(s.seen + 2) % NUM]);
      assert false;
    }
  }

  lemma Slot(k: nat)
    ensures k % UINT16 % NUM == k % NUM
  {
    var q := k / UINT16;
    assert k == UINT16 * q + k % UINT16;
    assert UINT16 * q == NUM * (8192 * q);
    Multiple(8192 * q, k % UINT16);
  }

  lemma Multiple(a: nat, x: nat)
    ensures (NUM * a + x) % NUM == x % NUM
  {
  }

  lemma Apart(a: nat, b: nat)
    requires a <= b <= a + 7
    ensures a % NUM == b % NUM <==> a == b
    ensures a % UINT16 == b % UINT16 <==> a == b
  {
  }

  lemma Bump(k: nat)
    ensures (k % UINT16 + 1) % UINT16 == (k + 1) % UINT16
  {
  }

  lemma BumpNum(k: nat)
    ensures (k % NUM + 1) % NUM == (k + 1) % NUM
  {
  }

  /** The driver's and the device's tests for work are exact, 16-bit wraparound or not. */
  lemma TestsExact(s: Disk)
    requires Inv(s)
    ensures s.usedIdx % NUM != s.usedId % NUM <==> s.seen < s.completed
    ensures s.devIdx != s.availIdx <==> s.taken < s.posted
  {
    FewPosted(s);
    Slot(s.completed);
    Apart(s.seen, s.completed);
    Apart(s.taken, s.posted);
  }

  // ----- every step keeps the invariant -----

  lemma SubmitCounters(s: Disk, b: nat, h: nat, d1: nat, d2: nat)
    requires Inv(s) && Enabled(s, Submit(b, h, d1, d2)) && h !in s.reqs
    ensures Counters(Submitted(s, b, h, d1, d2))
    ensures forall k :: s.taken <= k < s.posted ==> k % NUM != s.posted % NUM
    ensures s.availIdx % NUM == s.posted % NUM
  {
    FewPosted(s);
    Slot(s.posted);
    Bump(s.posted);
    forall k | s.taken <= k < s.posted ensures k % NUM != s.posted % NUM { Apart(k, s.posted); }
    var t := Submitted(s, b, h, d1, d2);
    forall k | t.taken <= k < t.posted ensures InAvail(t, k) { assert k < s.posted ==> InAvail(s, k); }
    forall k | t.seen <= k < t.completed ensures InUsed(t, k) { assert InUsed(s, k); }
  }

  /** A free descriptor is in no chain. */
  lemma FreeIsUnowned(s: Disk, i: nat)
    requires Inv(s) && i < NUM && s.free[i]
    ensures i !in s.owner && i !in s.reqs
  {
    assert Owned(s, i);
    if i in s.reqs { ChainFacts(s, i); }
  }

  lemma SubmitOthers(s: Disk, b: nat, h: nat, d1: nat, d2: nat, g: nat)
    requires Enabled(s, Submit(b, h, d1, d2)) && g in s.reqs && Chain(s, g) && Where(s, g) && g != h
    requires h !in s.owner && d1 !in s.owner && d2 !in s.owner
    requires forall k :: s.taken <= k < s.posted ==> k % NUM != s.posted % NUM
    requires s.availIdx % NUM == s.posted % NUM
    ensures Chain(Submitted(s, b, h, d1, d2), g) && Where(Submitted(s, b, h, d1, d2), g)
  {
    var t := Submitted(s, b, h, d1, d2);
    assert t.reqs[g] == s.reqs[g];
  }

  lemma SubmitOwned(s: Disk, b: nat, h: nat, d1: nat, d2: nat, i: nat)
    requires Enabled(s, Submit(b, h, d1, d2)) && h !in s.reqs && i < NUM && Owned(s, i)
    ensures Owned(Submitted(s, b, h, d1, d2), i)
  {
  }

  lemma SubmitKeeps(s: Disk, b: nat, h: nat, d1: nat, d2: nat)
    requires Inv(s) && Enabled(s, Submit(b, h, d1, d2))
    ensures Inv(Submitted(s, b, h, d1, d2))
  {
    hide Chain, Where, Owned, InAvail, InUsed;
    FreeIsUnowned(s, h);
    FreeIsUnowned(s, d1);
    FreeIsUnowned(s, d2);
    SubmitCounters(s, b, h, d1, d2);
    var t := Submitted(s, b, h, d1, d2);
    SubmitSelf(s, b, h, d1, d2);
    forall g | g in t.reqs ensures Chain(t, g) && Where(t, g) {
      if g != h { SubmitOthers(s, b, h, d1, d2, g); }
    }
    forall i | 0 <= i < NUM ensures Owned(t, i) { SubmitOwned(s, b, h, d1, d2, i); }
  }

  lemma SubmitSelf(s: Disk, b: nat, h: nat, d1: nat, d2: nat)
    requires Enabled(s, Submit(b, h, d1, d2)) && s.taken <= s.posted && s.availIdx % NUM == s.posted % NUM
    ensures Chain(Submitted(s, b, h, d1, d2), h) && Where(Submitted(s, b, h, d1, d2), h)
  {
  }

  lemma TakeCounters(s: Disk)
    requires Inv(s) && Enabled(s, Take)
    ensures Counters(Taken(s)) && InAvail(s, s.taken) && s.devIdx % NUM == s.taken % NUM && s.taken < s.posted
  {
    TestsExact(s);
    Slot(s.taken);
    Bump(s.taken);
    var t := Taken(s);
    assert InAvail(s, s.taken);
    forall k | t.taken <= k < t.posted ensures InAvail(t, k) { assert InAvail(s, k); }
    forall k | t.seen <= k < t.completed ensures InUsed(t, k) { assert InUsed(s, k); }
  }

  lemma TakeOthers(s: Disk, h: nat)
    requires Enabled(s, Take) && h in s.reqs && Chain(s, h) && Where(s, h)
    requires InAvail(s, s.taken) && s.devIdx % NUM == s.taken % NUM && s.taken < s.posted
    ensures Chain(Taken(s), h) && Where(Taken(s), h)
  {
  }

  lemma SameOwners(s: Disk, t: Disk, i: nat)
    requires Sized(s) && Sized(t) && i < NUM && Owned(s, i) && t.free == s.free && t.owner == s.owner
    requires t.reqs.Keys == s.reqs.Keys && forall h :: h in s.reqs ==> t.reqs[h].(phase := s.reqs[h].phase) == s.reqs[h]
    ensures Owned(t, i)
  {
  }

  lemma TakeKeeps(s: Disk)
    requires Inv(s) && Enabled(s, Take)
    ensures Inv(Taken(s))
  {
    hide Counters, Chain, Where, Owned, InAvail;
    TakeCounters(s);
    var t := Taken(s);
    forall h | h in t.reqs ensures Chain(t, h) && Where(t, h) { TakeOthers(s, h); }
    forall i | 0 <= i < NUM ensures Owned(t, i) { SameOwners(s, t, i); }
  }

  lemma CompleteCounters(s: Disk, h: nat)
    requires Inv(s) && Enabled(s, Complete(h))
    ensures Counters(Completed(s, h)) && s.usedId % NUM == s.completed % NUM
    ensures forall k :: s.seen <= k < s.completed ==> k % NUM != s.completed % NUM
  {
    FewPosted(s);
    Slot(s.completed);
    Bump(s.completed);
    forall k | s.seen <= k < s.completed ensures k % NUM != s.completed % NUM { Apart(k, s.completed); }
    var t := Completed(s, h);
    forall k | t.taken <= k < t.posted ensures InAvail(t, k) { assert InAvail(s, k); }
    forall k | t.seen <= k < t.completed ensures InUsed(t, k) { assert k < s.completed ==> InUsed(s, k); }
  }

  lemma CompleteOthers(s: Disk, h: nat, g: nat)
    requires Enabled(s, Complete(h)) && g in s.reqs && Chain(s, g) && Where(s, g)
    requires s.usedId % NUM == s.completed % NUM && s.seen <= s.completed
    requires forall k :: s.seen <= k < s.completed ==> k % NUM != s.completed % NUM
    ensures Chain(Completed(s, h), g) && Where(Completed(s, h), g)
  {
  }

  lemma CompleteKeeps(s: Disk, h: nat)
    requires Inv(s) && Enabled(s, Complete(h))
    ensures Inv(Completed(s, h))
  {
    hide Chain, Where, Owned, InAvail, InUsed;
    CompleteCounters(s, h);
    var t := Completed(s, h);
    forall g | g in t.reqs ensures Chain(t, g) && Where(t, g) { CompleteOthers(s, h, g); }
    forall i | 0 <= i < NUM ensures Owned(t, i) { SameOwners(s, t, i); }
  }

  /** The completion the interrupt handler finds is a request's own. */
  lemma IntrFinds(s: Disk)
    requires Inv(s) && Enabled(s, Intr)
    ensures var h := s.elems[s.usedIdx];
            h in s.reqs && s.reqs[h].phase == Done(s.seen) && Found(s) == s.reqs[h].buf && s.reqs[h].buf in s.busy
    ensures s.seen < s.completed
  {
    TestsExact(s);
    assert InUsed(s, s.seen);
    ChainFacts(s, s.elems[s.usedIdx]);
  }

  lemma IntrOthers(s: Disk, g: nat)
    requires Enabled(s, Intr) && g in s.reqs && Chain(s, g) && Where(s, g)
    requires var h := s.elems[s.usedIdx];
             && h in s.reqs && s.reqs[h].phase == Done(s.seen) && Found(s) == s.reqs[h].buf
             && (g != h ==> s.reqs[g].buf != s.reqs[h].buf && (s.reqs[g].phase.Done? ==> s.reqs[g].phase.k != s.seen))
    ensures Chain(Handled(s), g) && Where(Handled(s), g)
  {
    hide Found;
    var t, h := Handled(s), s.elems[s.usedIdx];
    assert t.reqs[g] == if g == h then s.reqs[h].(phase := Seen) else s.reqs[g];
  }

  lemma IntrCounters(s: Disk)
    requires Inv(s) && Enabled(s, Intr)
    ensures Counters(Handled(s))
  {
    IntrFinds(s);
    BumpNum(s.seen);
    hide Found;
    var t := Handled(s);
    forall k | t.taken <= k < t.posted ensures InAvail(t, k) { assert InAvail(s, k); }
    forall k | t.seen <= k < t.completed ensures InUsed(t, k) { assert InUsed(s, k); }
  }

  lemma IntrKeeps(s: Disk)
    requires Inv(s) && Enabled(s, Intr)
    ensures Inv(Handled(s))
  {
    IntrFinds(s);
    IntrCounters(s);
    var t, h := Handled(s), s.elems[s.usedIdx];
    forall g | g in s.reqs && g != h ensures s.reqs[g].phase.Done? ==> s.reqs[g].phase.k != s.seen {
      ChainFacts(s, g);
    }
    forall i | 0 <= i < NUM ensures Owned(t, i) { assert Owned(s, i); }
    hide Found, Counters, Chain, Where, Owned;
    forall g | g in t.reqs ensures Chain(t, g) && Where(t, g) { IntrOthers(s, g); }
  }

  /** free_chain reaches neither panic and frees exactly the request's three descriptors. */
  lemma FreesChain(s: Disk, h: nat)
    requires Inv(s) && h in s.reqs
    ensures h < NUM && s.reqs[h].d1 < NUM && s.reqs[h].d2 < NUM
    ensures !s.free[h] && !s.free[s.reqs[h].d1] && !s.free[s.reqs[h].d2]
    ensures Freed(s.desc, s.free, h, NUM) == s.free[h := true][s.reqs[h].d1 := true][s.reqs[h].d2 := true]
  {
    ChainFacts(s, h);
    var r := s.reqs[h];
    assert Owned(s, h) && Owned(s, r.d1) && Owned(s, r.d2);
    hide Inv, Owned, Chain, Where;
    assert Freed(s.desc, s.free, h, NUM) == Freed(s.desc, s.free[h := true], r.d1, NUM - 1);
    assert Freed(s.desc, s.free[h := true], r.d1, NUM - 1) == Freed(s.desc, s.free[h := true][r.d1 := true], r.d2,
        NUM - 2);
  }

  /** Another request loses nothing. */
  lemma FinishOthers(s: Disk, h: nat, g: nat)
    requires Enabled(s, Finish(h)) && g in s.reqs && g != h && Chain(s, h) && Chain(s, g) && Where(s, g)
    ensures Chain(Finished(s, h), g) && Where(Finished(s, h), g)
  {
    hide Freed;
    var t := Finished(s, h);
    assert t.reqs[g] == s.reqs[g];
  }

  lemma FinishOwned(s: Disk, h: nat, i: nat)
    requires Enabled(s, Finish(h)) && Chain(s, h) && i < NUM && Owned(s, i)
    requires Freed(s.desc, s.free, h, NUM) == s.free[h := true][s.reqs[h].d1 := true][s.reqs[h].d2 := true]
    ensures Owned(Finished(s, h), i)
  {
    hide Freed;
  }

  lemma FinishCounters(s: Disk, h: nat)
    requires Inv(s) && Enabled(s, Finish(h)) && Where(s, h)
    ensures Counters(Finished(s, h))
  {
    hide Freed;
    var t := Finished(s, h);
    forall k | t.taken <= k < t.posted ensures InAvail(t, k) { assert InAvail(s, k); }
    forall k | t.seen <= k < t.completed ensures InUsed(t, k) { assert InUsed(s, k); }
  }

  lemma FinishKeeps(s: Disk, h: nat)
    requires Inv(s) && Enabled(s, Finish(h))
    ensures Inv(Finished(s, h))
  {
    FreesChain(s, h);
    ChainFacts(s, h);
    FinishCounters(s, h);
    hide Freed, Counters, Chain, Where, Owned;
    var t := Finished(s, h);
    forall g | g in t.reqs ensures Chain(t, g) && Where(t, g) { FinishOthers(s, h, g); }
    forall i | 0 <= i < NUM ensures Owned(t, i) { FinishOwned(s, h, i); }
  }

  lemma StepKeeps(s: Disk, a: Step)
    requires Inv(s) && Enabled(s, a)
    ensures Inv(After(s, a))
  {
    hide Inv, Enabled;
    match a
    case Submit(b, h, d1, d2) => SubmitKeeps(s, b, h, d1, d2);
    case Take => TakeKeeps(s);
    case Complete(h) => CompleteKeeps(s, h);
    case Intr => IntrKeeps(s);
    case Finish(h) => FinishKeeps(s, h);
  }

  // ----- whole runs -----

  /** After virtio_disk_init. */
  function Start(): (s: Disk) {
    Disk(seq(NUM, i => Desc(false, 0)), seq(NUM, i => true), seq(NUM, i => 0), 0, 0, seq(NUM, i => 0), 0, 0,
        seq(NUM, i => -1), {},
         map[], map[], 0, 0, 0, 0)
  }

  ghost predicate Leads(s: Disk, steps: seq<Step>, t: Disk)
    decreases |steps|
  {
    if steps == [] then t == s else Enabled(s, steps[0]) && Leads(After(s, steps[0]), steps[1..], t)
  }

  lemma {:induction false} RunKeeps(s: Disk, steps: seq<Step>, t: Disk)
    requires Inv(s) && Leads(s, steps, t)
    ensures Inv(t)
    decreases |steps|
  {
    hide Inv, Enabled, After;
    if steps != [] {
      StepKeeps(s, steps[0]);
      RunKeeps(After(s, steps[0]), steps[1..], t);
    }
  }

  lemma StartInv()
    ensures Inv(Start())
  {
  }

  /** In every run at most two requests are in flight, their descriptors disjoint. */
  lemma TwoInFlight(steps: seq<Step>, t: Disk, h: nat, g: nat)
    requires Leads(Start(), steps, t) && h in t.reqs && g in t.reqs && h != g
    ensures |t.reqs| == 2 && Members(t, h) !! Members(t, g) && |Members(t, h)| == 3
  {
    hide Leads, Inv;
    StartInv();
    RunKeeps(Start(), steps, t);
    forall f | f in t.reqs ensures f == h || f == g { NotThree(t, h, g, f); }
    assert t.reqs.Keys == {h, g};
    ChainSet(t, h);
    ChainSet(t, g);
  }

  /** In every run, the tests for new completions and new requests are exact although they
      compare indices modulo NUM and modulo 2^16. */
  lemma NeverAmbiguous(steps: seq<Step>, t: Disk)
    requires Leads(Start(), steps, t)
    ensures Sized(t) && (t.usedIdx % NUM != t.usedId % NUM <==> t.seen < t.completed)
    ensures t.devIdx != t.availIdx <==> t.taken < t.posted
  {
    hide Leads;
    StartInv();
    RunKeeps(Start(), steps, t);
    TestsExact(t);
  }

  /** In every run, handling a completion clears the flag of one buffer, that of the request
      completed, which had it set; every other flag stays. */
  lemma CompletionIsOwn(steps: seq<Step>, t: Disk)
    requires Leads(Start(), steps, t) && Enabled(t, Intr)
    ensures var h := t.elems[t.usedIdx];
            && h in t.reqs && t.reqs[h].phase == Done(t.seen) && t.reqs[h].buf in t.busy
            && After(t, Intr).busy == t.busy - {t.reqs[h].buf}
  {
    hide Leads;
    StartInv();
    RunKeeps(Start(), steps, t);
    IntrFinds(t);
  }

  /** In every run, a buffer's flag is set until its own request has been handled, and then
      freeing the chain frees three descriptors in use and reaches no panic. */
  lemma FinishFreesOwn(steps: seq<Step>, t: Disk, h: nat)
    requires Leads(Start(), steps, t) && h in t.reqs
    ensures t.reqs[h].buf in t.busy <==> !t.reqs[h].phase.Seen?
    ensures Enabled(t, Finish(h)) ==>
              forall i :: 0 <= i < NUM ==> (if i in Members(t, h) then !t.free[i] && After(t, Finish(h)).free[i]
                                            else After(t, Finish(h)).free[i] == t.free[i])
  {
    hide Leads, Freed;
    StartInv();
    RunKeeps(Start(), steps, t);
    ChainFacts(t, h);
    FreesChain(t, h);
  }

  // ----- the code -----

  /** The driver's memory and the ring it shares with the device. */
  class Driver {
    const free: array<bool>
    const chained: array<bool>     // desc[i].flags has VRING_DESC_F_NEXT
    const next: array<nat>         // desc[i].next
    const avail: array<nat>        // avail[2...]
    var availIdx: nat              // avail[1]
    const elems: array<nat>        // used->elems, written by the device
    var usedId: nat                // used->id, written by the device
    var usedIdx: nat               // disk.used_idx
    const info: array<int>         // info[].b, -1 for none
    var busy: set<nat>             // the buffers with b->disk == 1
    ghost var st: Disk

    ghost predicate Arrays()
      reads this
    {
      && free.Length == NUM && chained.Length == NUM && next.Length == NUM && avail.Length == NUM
      && elems.Length == NUM && info.Length == NUM && free != chained && next != avail && next != elems
          && avail != elems
    }

    ghost predicate Ok()
      reads this, free, chained, next, avail, elems, info
    {
      && Arrays() && Sized(st) && st.free == free[..] && st.avail == avail[..] && st.elems == elems[..]
          && st.info == info[..]
      && (forall i :: 0 <= i < NUM ==> st.desc[i] == Desc(chained[i], next[i]))
      && st.availIdx == availIdx && st.usedId == usedId && st.usedIdx == usedIdx && st.busy == busy
    }

    /** virtio_disk_init: zeroed memory, and every descriptor free. */
    constructor ()
      ensures Ok() && Inv(st) && st == Start()
      ensures fresh(free) && fresh(chained) && fresh(next) && fresh(avail) && fresh(elems) && fresh(info)
    {
      free, chained, next := new bool[NUM](i => true), new bool[NUM](i => false), new nat[NUM](i => 0);
      avail, elems, info := new nat[NUM](i => 0), new nat[NUM](i => 0), new int[NUM](i => -1);
      availIdx, usedId, usedIdx, busy := 0, 0, 0, {};
      st := Start();
      new;
      StartInv();
    }

    /** alloc_desc: the lowest free descriptor, marked; -1 if there is none. */
    method AllocDesc() returns (r: int)
      requires Arrays()
      modifies free
      ensures r == -1 ==> free[..] == old(free[..]) && forall i :: 0 <= i < NUM ==> !free[i]
      ensures r != -1 ==> 0 <= r < NUM && old(free[r]) && (forall i :: 0 <= i < r ==> !old(free[i]))
      ensures r != -1 ==> free[..] == old(free[..])[r := false]
    {
      for i := 0 to NUM
        invariant free[..] == old(free[..]) && forall j :: 0 <= j < i ==> !free[j]
      {
        if free[i] {
          free[i] := false;
          return i;
        }
      }
      return -1;
    }

    /** free_desc: false where the C code panics. */
    method FreeDesc(i: nat) returns (ok: bool)
      requires Arrays()
      modifies free
      ensures ok <==> i < NUM && !old(free[i])
      ensures free[..] == if ok then old(free[..])[i := true] else old(free[..])
    {
      if i >= NUM || free[i] { return false; }
      free[i] := true;
      return true;
    }

    /** alloc3_desc: the three lowest free descriptors, or, with fewer than three free, none
        taken; no panic on the way. */
    method Alloc3Desc() returns (ok: bool, a: int, b: int, c: int)
      requires Arrays()
      modifies free
      ensures ok ==> 0 <= a < b < c < NUM && old(free[a] && free[b] && free[c])
      ensures ok ==> forall i :: 0 <= i < c && i != a && i != b ==> !old(free[i])
      ensures ok ==> free[..] == old(free[..])[a := false][b := false][c := false]
      ensures !ok ==> free[..] == old(free[..])
      ensures !ok ==> forall i, j, k :: 0 <= i < j < k < NUM ==> !(free[i] && free[j] && free[k])
    {
      ghost var f := free[..];
      b, c := -1, -1;
      a := AllocDesc();
      if a == -1 { return false, a, b, c; }
      b := AllocDesc();
      if b == -1 {
        var freed := FreeDesc(a);
        assert free[..] == f;
        return false, a, b, c;
      }
      ghost var g := free[..];
      c := AllocDesc();
      assert c != -1 ==> forall i :: 0 <= i < c ==> !g[i];
      assert forall i :: 0 <= i < NUM && i != a && i != b ==> g[i] == f[i];
      if c == -1 {
        var freed := FreeDesc(a);
        freed := FreeDesc(b);
        assert free[..] == f;
        return false, a, b, c;
      }
      return true, a, b, c;
    }

    /** virtio_disk_rw up to its wait for buffer b: the request is posted, or, with fewer than
        three descriptors free, nothing is done and the caller sleeps. */
    method Submit(b: nat) returns (ok: bool, h: int, ghost d1: nat, ghost d2: nat)
      requires Ok() && Inv(st) && forall i :: i in st.reqs ==> st.reqs[i].buf != b
      modifies this, free, chained, next, avail, info
      ensures Ok() && Inv(st)
      ensures !ok ==> st == old(st) && forall i, j, k :: 0 <= i < j < k < NUM ==>
              !(st.free[i] && st.free[j] && st.free[k])
      ensures ok ==> h >= 0 && Enabled(old(st), Step.Submit(b, h, d1, d2))
      ensures ok ==> st == After(old(st), Step.Submit(b, h, d1, d2))
    {
      hide Inv;
      var i1: int, i2: int;
      ok, h, i1, i2 := Alloc3Desc();
      d1, d2 := 0, 0;
      if !ok { return; }
      d1, d2 := i1, i2;
      StepKeeps(st, Step.Submit(b, h, d1, d2));
      Post(b, h, i1, i2);
    }

    /** virtio_disk_rw's request on descriptors that are free in `st` and marked in memory. */
    method Post(b: nat, h: nat, d1: nat, d2: nat)
      requires Arrays() && Sized(st) && Enabled(st, Step.Submit(b, h, d1, d2)) && TiedBut(h, d1, d2)
      modifies this, chained, next, avail, info
      ensures Ok() && st == After(old(st), Step.Submit(b, h, d1, d2))
    {
      Format(h, d1, d2);
      busy := busy + {b};
      info[h] := b;
      avail[availIdx % NUM] := h;
      availIdx := (availIdx + 1) % UINT16;
      st := After(st, Step.Submit(b, h, d1, d2));
    }

    /** As Ok, with three descriptors taken that `st` has as free. */
    ghost predicate TiedBut(h: nat, d1: nat, d2: nat)
      requires Arrays() && Sized(st) && h < NUM && d1 < NUM && d2 < NUM
      reads this, free, chained, next, avail, elems, info
    {
      && free[..] == st.free[h := false][d1 := false][d2 := false]
      && st.avail == avail[..] && st.elems == elems[..] && st.info == info[..]
      && (forall i :: 0 <= i < NUM ==> st.desc[i] == Desc(chained[i], next[i]))
      && st.availIdx == availIdx && st.usedId == usedId && st.usedIdx == usedIdx && st.busy == busy
    }

    /** The three descriptors' chaining. */
    method Format(h: nat, d1: nat, d2: nat)
      requires Arrays() && h < NUM && d1 < NUM && d2 < NUM && h != d1 && h != d2 && d1 != d2
      modifies chained, next
      ensures chained[h] && next[h] == d1 && chained[d1] && next[d1] == d2 && !chained[d2] && next[d2] == 0
      ensures forall i :: 0 <= i < NUM && i != h && i != d1 && i != d2 ==>
              chained[i] == old(chained[i]) && next[i] == old(next[i])
    {
      chained[h], next[h] := true, d1;
      chained[d1], next[d1] := true, d2;
      chained[d2], next[d2] := false, 0;
    }

    /** One turn of virtio_disk_intr's loop; false when there is nothing to handle. */
    method Intr() returns (some: bool)
      requires Ok() && Inv(st)
      modifies this
      ensures Ok() && Inv(st) && (some <==> Enabled(old(st), Step.Intr))
      ensures st == if some then After(old(st), Step.Intr) else old(st)
    {
      hide Inv;
      if usedIdx % NUM == usedId % NUM { return false; }
      IntrFinds(st);
      ChainFacts(st, st.elems[st.usedIdx]);
      StepKeeps(st, Step.Intr);
      var id := elems[usedIdx];
      busy := busy - {info[id]};
      usedIdx := (usedIdx + 1) % NUM;
      st := After(st, Step.Intr);
      return true;
    }

    /** The end of virtio_disk_rw for the request at h, once b->disk is 0. */
    method Finish(h: nat)
      requires Ok() && Inv(st) && Enabled(st, Step.Finish(h))
      modifies this, free, info
      ensures Ok() && Inv(st) && st == After(old(st), Step.Finish(h))
    {
      hide Inv;
      ghost var r := st.reqs[h];
      ChainFacts(st, h);
      FreesChain(st, h);
      StepKeeps(st, Step.Finish(h));
      info[h] := -1;
      FreeChain(h, r.d1, r.d2);
      st := After(st, Step.Finish(h));
    }

    /** What the device does to the memory it shares with the driver: it takes a request ... */
    method Take()
      requires Ok() && Inv(st) && Enabled(st, Step.Take)
      modifies this`st
      ensures Ok() && Inv(st) && st == After(old(st), Step.Take)
    {
      StepKeeps(st, Step.Take);
      st := After(st, Step.Take);
    }

    /** ... and reports it done. */
    method Complete(h: nat)
      requires Ok() && Inv(st) && Enabled(st, Step.Complete(h))
      modifies this`st, this`usedId, elems
      ensures Ok() && Inv(st) && st == After(old(st), Step.Complete(h))
    {
      hide Inv;
      StepKeeps(st, Step.Complete(h));
      elems[usedId % NUM] := h;
      usedId := (usedId + 1) % UINT16;
      st := After(st, Step.Complete(h));
    }

    /** free_chain on a chain of three: each is freed and no panic is reached. */
    method FreeChain(i: nat, ghost d1: nat, ghost d2: nat)
      requires Arrays() && i < NUM && d1 < NUM && d2 < NUM && i != d1 && i != d2 && d1 != d2
      requires !free[i] && !free[d1] && !free[d2]
      requires chained[i] && next[i] == d1 && chained[d1] && next[d1] == d2 && !chained[d2]
      modifies free
      ensures free[..] == old(free[..])[i := true][d1 := true][d2 := true]
    {
      var k := i;
      ghost var n := 0;
      while true
        invariant 0 <= n <= 2 && k == (if n == 0 then i else if n == 1 then d1 else d2) && !free[k]
        invariant free[..] == (if n == 0 then old(free[..]) else if n == 1 then old(free[..])[i := true]
                               else old(free[..])[i := true][d1 := true])
        decreases 3 - n
      {
        var ok := FreeDesc(k);
        assert ok;
        if !chained[k] { break; }
        k := next[k];
        n := n + 1;
      }
    }
  }
}
