/** Every interleaving of processes using the buffer cache (kernel/bio.c, and the bpin and
    bunpin of kernel/log.c) behaves as a plain block map. */
module CacheRuns {
  import opened Param
  import opened Blocks
  import opened LogDisk
  import opened BufferCache

  /** One atomic step of some process, on buffer i for block b. */
  datatype Op =
    | Get(i: nat, b: nat)               // bget's critical section
    | Take(i: nat, b: nat)              // acquiresleep, and bread's disk read
    | Change(i: nat, b: nat, data: Block)
    | Flush(i: nat, b: nat)             // bwrite
    | PinIt(i: nat, b: nat)             // log_write's bpin
    | UnpinIt(i: nat, b: nat)           // install_trans's bunpin
    | Done(i: nat, b: nat)              // brelse

  /** Runs that booted with an empty log have no negative pins. */
  ghost predicate RunInv(c: State)
    ensures RunInv(c) ==> Inv(c)
  {
    && Inv(c)
    && (forall i :: 0 <= i < NBUF ==> c.pins[i] >= 0)
    && (forall i :: 0 <= i < NBUF && (c.buf[i].locked || c.waiting[i] > 0 || c.pins[i] > 0) ==> c.buf[i].dev == ROOTDEV)
    && (forall i :: 0 <= i < NBUF && (c.buf[i].locked || c.pins[i] > 0) ==> c.buf[i].valid)
  }

  /** Process i holds block b's buffer. */
  predicate Holds(c: State, i: nat, b: nat) {
    i < NBUF <= |c.buf| && c.buf[i].locked && c.buf[i].blockno == b
  }

  /** The step can be taken: bget found the buffer, the lock is free, or the process holds it. */
  ghost predicate Can(c: State, op: Op) {
    && Shape(c) && op.b < |c.disk|
    && match op
       case Get(i, b) =>
         && i < NBUF
         && (if b in c.index then i == c.index[b] && c.waiting[i] < NPROC else LeastRecent(c, i))
       case Take(i, b) => i < NBUF && c.waiting[i] > 0 && !c.buf[i].locked && c.buf[i].blockno == b
       case Change(i, b, _) => Holds(c, i, b)
       case Flush(i, b) => Holds(c, i, b)
       case PinIt(i, b) => Holds(c, i, b)
       case UnpinIt(i, b) => Holds(c, i, b)
       case Done(i, b) => Holds(c, i, b)
  }

  ghost function Next(c: State, op: Op): (e: State)
    requires Can(c, op)
  {
    match op
    case Get(i, b) => if b in c.index then Count(c, i) else Recycle(c, i, b)
    case Take(i, b) => Hold(c, i)
    case Change(i, b, data) => Modify(c, i, data)
    case Flush(i, b) => Write(c, i)
    case PinIt(i, b) => Pin(c, i)
    case UnpinIt(i, b) => Unpin(c, i)
    case Done(i, b) => Release(c, i)
  }

  /** What the log has to guarantee for the step to be safe: a buffer let go of is pinned or
      equals the disk, and bunpin undoes an earlier bpin. */
  ghost predicate Enabled(c: State, op: Op) {
    && Can(c, op)
    && (op.PinIt? ==> c.pins[op.i] < LOGSIZE) && (op.UnpinIt? ==> c.pins[op.i] > 0)
    && (op.Done? ==> c.pins[op.i] > 0 || c.buf[op.i].data == c.disk[op.b])
  }

  /** What a plain block map does in the step: only a holder's change does anything. */
  ghost function Changed(m: Disk, op: Op): (r: Disk)
    ensures |r| == |m|
  {
    if op.Change? && op.b < |m| then m[op.b := op.data] else m
  }

  lemma CountsHonest(c: State)
    requires RunInv(c)
    ensures Honest(c)
  {
  }

  /** Every step keeps the invariant and does to the block map what the simple object does;
      the holder that Take makes sees the map's contents. */
  lemma Step(c: State, op: Op)
    requires RunInv(c) && Enabled(c, op)
    ensures RunInv(Next(c, op))
    ensures Map(Next(c, op)) == Changed(Map(c), op)
    ensures op.Take? ==> op.b < |c.disk| && op.i < |Next(c, op).buf| && Next(c, op).buf[op.i].data == Map(c)[op.b]
  {
    hide RunInv, Unique, Permutation, View, Map, LeastRecent;
    StepInv(c, op);
    StepRun(c, op);
    if op.Take? { MapAt(c, op.b); }
  }

  lemma StepInv(c: State, op: Op)
    requires RunInv(c) && Enabled(c, op)
    ensures Inv(Next(c, op)) && Map(Next(c, op)) == Changed(Map(c), op)
    ensures op.Take? ==> op.b < |c.disk| && op.i < |Next(c, op).buf| && Next(c, op).buf[op.i].data == View(c, op.b)
  {
    hide Inv, Unique, Permutation, View, Map;
    CountsHonest(c);
    var e := Next(c, op);
    match op
    case Get(i, b) =>
      if b in c.index { Owner(c, b); CountKeeps(c, i); } else { RecycleKeeps(c, i, b); }
      SameViewSameMap(c, e);
    case Take(i, b) =>
      HoldKeeps(c, i);
      SameViewSameMap(c, e);
    case Change(i, b, data) =>
      ModifyKeeps(c, i, data);
      ModifiedMap(c, i, data);
    case Flush(i, b) =>
      WriteKeeps(c, i);
      SameViewSameMap(c, e);
    case PinIt(i, b) =>
      PinKeeps(c, i);
      SameViewSameMap(c, e);
    case UnpinIt(i, b) =>
      UnpinKeeps(c, i);
      SameViewSameMap(c, e);
    case Done(i, b) =>
      ReleaseKeeps(c, i);
      SameViewSameMap(c, e);
  }

  lemma StepRun(c: State, op: Op)
    requires RunInv(c) && Enabled(c, op) && Inv(Next(c, op))
    ensures RunInv(Next(c, op))
  {
    hide Inv, Unique, Permutation, View, Map;
    CountsHonest(c);
    if op.Get? && op.b in c.index { Owner(c, op.b); }
  }

  lemma MapAt(c: State, b: nat)
    requires Shape(c) && Unique(c) && b < |c.disk|
    ensures Map(c)[b] == View(c, b)
  {
  }

  /** Why eviction is safe: an uncounted buffer equals the disk. */
  lemma CleanWhenUncounted(c: State)
    requires RunInv(c)
    ensures forall i :: 0 <= i < NBUF && c.buf[i].refcnt == 0 && c.buf[i].dev == ROOTDEV && c.buf[i].valid ==>
              c.buf[i].blockno < |c.disk| && c.buf[i].data == c.disk[c.buf[i].blockno]
  {
  }

  lemma ModifiedMap(c: State, i: nat, data: Block)
    requires Inv(c) && i < NBUF && c.buf[i].dev == ROOTDEV && c.buf[i].locked && c.buf[i].valid
    ensures Inv(Modify(c, i, data)) && c.buf[i].blockno < |c.disk|
    ensures Map(Modify(c, i, data)) == Map(c)[c.buf[i].blockno := data]
  {
    ModifyKeeps(c, i, data);
  }

  // ----- the cache block by block -----

  /** The pins, the lock and the waiters of block b; none if it is not cached. */
  function PinsOf(c: State, b: nat): (n: int) {
    if b in c.index && c.index[b] < |c.pins| then c.pins[c.index[b]] else 0
  }

  predicate IsLocked(c: State, b: nat) {
    b in c.index && c.index[b] < |c.buf| && c.buf[c.index[b]].locked
  }

  function Awaiting(c: State, b: nat): (n: nat) {
    if b in c.index && c.index[b] < |c.waiting| then c.waiting[c.index[b]] else 0
  }

  /** The data in the buffer of block b. */
  function DataOf(c: State, b: nat): (x: Block) {
    if b in c.index && c.index[b] < |c.buf| then c.buf[c.index[b]].data else ZERO
  }

  /** The buffer of block b. */
  function BufferOf(c: State, b: nat): (i: nat) { if b in c.index then c.index[b] else 0 }

  /** A block in use keeps its buffer. */
  lemma InUse(c: State, b: nat)
    requires RunInv(c) && (PinsOf(c, b) != 0 || IsLocked(c, b) || Awaiting(c, b) > 0)
    ensures b in c.index && b < |c.disk| && c.index[b] < NBUF && c.buf[c.index[b]].refcnt != 0
  {
  }

  /** What a step does to the pins, locks and waiters of every block, and to the disk. */
  lemma Effects(c: State, op: Op, b: nat)
    requires RunInv(c) && Enabled(c, op)
    ensures RunInv(Next(c, op)) && |Next(c, op).disk| == |c.disk|
    ensures PinsOf(Next(c, op), b) == PinsOf(c, b) + (if op.PinIt? && op.b == b then 1 else if op.UnpinIt?
            && op.b == b then -1 else 0)
    ensures IsLocked(Next(c, op), b) <==> if op.b == b && (op.Take? || op.Done?) then op.Take? else IsLocked(c, b)
    ensures Awaiting(Next(c, op), b) == Awaiting(c, b) + (if op.Get? && op.b == b then 1 else if op.Take?
            && op.b == b then -1 else 0)
  {
    hide Inv, Permutation, View, Map, Unique;
    Step(c, op);
    if op.Get? && op.b !in c.index {
      CountsHonest(c);
      Recycled(c, op.i, op.b, b);
    } else {
      Owned(c, op);
      SameKeys(c, op, b);
    }
  }

  lemma Owned(c: State, op: Op)
    requires RunInv(c) && Can(c, op) && !(op.Get? && op.b !in c.index)
    ensures op.i < NBUF && op.b in c.index && c.index[op.b] == op.i
    ensures forall b :: b in c.index && b != op.b ==> c.index[b] != op.i
  {
    hide Permutation;
  }

  /** A step on a cached block changes what concerns that block only. */
  lemma SameKeys(c: State, op: Op, b: nat)
    requires Can(c, op) && op.i < NBUF && op.b in c.index && c.index[op.b] == op.i
    requires forall x :: x in c.index && x != op.b ==> c.index[x] != op.i
    ensures Next(c, op).index == c.index && |Next(c, op).disk| == |c.disk|
    ensures PinsOf(Next(c, op), b) == PinsOf(c, b) + (if op.PinIt? && op.b == b then 1 else if op.UnpinIt?
            && op.b == b then -1 else 0)
    ensures IsLocked(Next(c, op), b) <==> if op.b == b && (op.Take? || op.Done?) then op.Take? else IsLocked(c, b)
    ensures Awaiting(Next(c, op), b) == Awaiting(c, b) + (if op.Get? && op.b == b then 1 else if op.Take?
            && op.b == b then -1 else 0)
  {
    hide Permutation, LeastRecent;
  }

  lemma Recycled(c: State, i: nat, x: nat, b: nat)
    requires RunInv(c) && Honest(c) && x !in c.index && i < NBUF && c.buf[i].refcnt == 0 && x < |c.disk|
    requires RunInv(Recycle(c, i, x))
    ensures var e := Recycle(c, i, x);
            && PinsOf(e, b) == PinsOf(c, b) && (IsLocked(e, b) <==> IsLocked(c, b))
            && Awaiting(e, b) == Awaiting(c, b) + if b == x then 1 else 0
  {
    hide Inv, Permutation;
  }

  /** From c to e, the pins, locks and waiters of block b change as `op` says. */
  ghost predicate DidAt(c: State, op: Op, e: State, b: nat) {
    && PinsOf(e, b) == PinsOf(c, b) + (if op.PinIt? && op.b == b then 1 else if op.UnpinIt? && op.b == b then -1 else 0)
    && (IsLocked(e, b) <==> if op.b == b && (op.Take? || op.Done?) then op.Take? else IsLocked(c, b))
    && Awaiting(e, b) == Awaiting(c, b) + (if op.b == b && op.Get? then 1 else if op.b == b && op.Take? then -1 else 0)
  }

  /** What a step does, in terms of blocks only. */
  ghost predicate Did(c: State, op: Op, e: State)
    requires Shape(c) && Unique(c)
    ensures Did(c, op, e) ==> RunInv(e) && |e.disk| == |c.disk|
  {
    && RunInv(e) && op.b < |c.disk|
    && Map(e) == Changed(Map(c), op)
    && e.disk == (if op.Flush? then c.disk[op.b := Map(c)[op.b]] else c.disk)
    && (forall b: nat :: DidAt(c, op, e, b))
  }

  lemma Does(c: State, op: Op)
    requires RunInv(c) && Enabled(c, op)
    ensures Did(c, op, Next(c, op))
  {
    hide Inv, Permutation, View, Map, Unique, LeastRecent;
    Step(c, op);
    FlushedDisk(c, op);
    forall b: nat ensures DidAt(c, op, Next(c, op), b) {
      Effects(c, op, b);
    }
  }

  /** bwrite puts the holder's contents, which are the block map's, on the disk. */
  lemma FlushedDisk(c: State, op: Op)
    requires RunInv(c) && Enabled(c, op)
    ensures op.Flush? ==> op.b < |c.disk| && Next(c, op).disk == c.disk[op.b := Map(c)[op.b]]
    ensures !op.Flush? ==> Next(c, op).disk == c.disk
  {
    if op.Flush? { MapAt(c, op.b); }
  }

  // ----- when a step can be taken, block by block -----

  lemma CanTake(c: State, b: nat)
    requires RunInv(c) && Awaiting(c, b) > 0 && !IsLocked(c, b)
    ensures Enabled(c, Take(BufferOf(c, b), b))
  {
  }

  lemma CanUse(c: State, b: nat)
    requires RunInv(c) && IsLocked(c, b)
    ensures Holds(c, BufferOf(c, b), b) && b < |c.disk|
    ensures PinsOf(c, b) == c.pins[BufferOf(c, b)]
    ensures Map(c)[b] == c.buf[BufferOf(c, b)].data == DataOf(c, b)
  {
  }

  lemma CanDrop(c: State, b: nat)
    requires RunInv(c) && IsLocked(c, b)
    requires PinsOf(c, b) > 0 || (b < |c.disk| && Map(c)[b] == c.disk[b])
    ensures Enabled(c, Done(BufferOf(c, b), b))
  {
    CanUse(c, b);
  }
}
