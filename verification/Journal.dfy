/** The buffer cache and the log together (kernel/bio.c, kernel/log.c): processes inside
    operations, processes that only read, and the committer, in every interleaving.

    An operation reads, changes, logs and releases blocks between begin_op and end_op.  A reader
    takes buffers at any time, also while a commit runs: fileread calls no begin_op.  The
    committer's code is cut into its cache steps, so that readers run between any two of them.
    File system code uses no block of the log area, changes a buffer only inside an operation,
    and has called log_write on a buffer it changed by the time it releases it. */
module Journal {
  import opened Param
  import opened Blocks
  import opened LogDisk
  import opened BufferCache
  import opened C = CacheRuns
  import S = LogOps
  import Log
  import opened Machine

  /** A buffer held by process p: has p changed it, and called log_write on it, since bread? */
  datatype Held = Held(p: nat, changed: bool, logged: bool)

  /** Where the committer is.  Fill and Install are the loops of write_log and install_trans at
      iteration k; Head and Clear are the two calls of write_head; `at` counts the cache
      steps inside.  Both loops bread the log block and then the home block. */
  datatype Pc = Rest | Fill(k: nat, at: nat) | Head(at: nat) | Install(k: nat, at: nat) | Clear(at: nat)

  /** `hold` has the buffers held outside the committer.  For the commit under way, `bs` is the
      header it started with, `data` the contents of those blocks, `base` the disk, and `ws`
      the disk after each write so far.  `durable` is the block map when the last header was
      written. */
  datatype J = J(c: State, s: S.Sched, hold: map<nat, Held>, pc: Pc,
                 bs: seq<nat>, data: seq<Block>, base: Disk, ws: seq<Disk>, durable: Disk)

  // ----- the committer's steps -----

  /** The log block and the home block of iteration k. */
  function LogAddr(L: Layout, k: nat): (b: nat) { L.start + k + 1 }
  function HomeAddr(j: J, k: nat): (b: nat) { if k < |j.bs| then j.bs[k] else 0 }

  /** The blocks the committer holds, and the one it waits for. */
  function Mine(L: Layout, j: J): (bs: set<nat>) {
    match j.pc
    case Rest => {}
    case Fill(k, at) =>
      (if 2 <= at <= 7 then {LogAddr(L, k)} else {}) + (if 4 <= at <= 6 then {HomeAddr(j, k)} else {})
    case Install(k, at) =>
      (if 2 <= at <= 7 then {LogAddr(L, k)} else {}) + (if 4 <= at <= 8 then {HomeAddr(j, k)} else {})
    case Head(at) => if 2 <= at <= 4 then {L.start} else {}
    case Clear(at) => if 2 <= at <= 4 then {L.start} else {}
  }

  function Await(L: Layout, j: J): (bs: set<nat>) {
    match j.pc
    case Rest => {}
    case Fill(k, at) => if at == 1 then {LogAddr(L, k)} else if at == 3 then {HomeAddr(j, k)} else {}
    case Install(k, at) => if at == 1 then {LogAddr(L, k)} else if at == 3 then {HomeAddr(j, k)} else {}
    case Head(at) => if at == 1 then {L.start} else {}
    case Clear(at) => if at == 1 then {L.start} else {}
  }

  function HeadValue(h: Block, bs: seq<nat>): (r: Block) {
    if |bs| <= LOGSIZE && (forall i :: 0 <= i < |bs| ==> bs[i] < UINT32) then EncodeHead(h, bs, |bs|) else h
  }

  /** A bread, over two steps: bget, where i is the buffer it returns, and acquiresleep. */
  function BreadOp(c: State, i: nat, b: nat, got: bool): (op: C.Op) {
    if got then C.Take(BufferOf(c, b), b) else C.Get(i, b)
  }

  /** write_head's five steps. */
  function HeadOp(L: Layout, j: J, at: nat, bs: seq<nat>, i: nat): (op: C.Op) {
    var h := L.start;
    if at < 2 then BreadOp(j.c, i, h, at == 1)
    else if at == 2 then C.Change(BufferOf(j.c, h), h, HeadValue(DataOf(j.c, h), bs))
    else if at == 3 then C.Flush(BufferOf(j.c, h), h)
    else C.Done(BufferOf(j.c, h), h)
  }

  /** The cache step the committer takes next. */
  function CommitOp(L: Layout, j: J, i: nat): (op: C.Op)
    requires !j.pc.Rest?
  {
    match j.pc
    case Fill(k, at) =>
      var a, b := LogAddr(L, k), HomeAddr(j, k);
      if at < 2 then BreadOp(j.c, i, a, at == 1)
      else if at < 4 then BreadOp(j.c, i, b, at == 3)
      else if at == 4 then C.Change(BufferOf(j.c, a), a, DataOf(j.c, b))
      else if at == 5 then C.Flush(BufferOf(j.c, a), a)
      else if at == 6 then C.Done(BufferOf(j.c, b), b)
      else C.Done(BufferOf(j.c, a), a)
    case Install(k, at) =>
      var a, b := LogAddr(L, k), HomeAddr(j, k);
      if at < 2 then BreadOp(j.c, i, a, at == 1)
      else if at < 4 then BreadOp(j.c, i, b, at == 3)
      else if at == 4 then C.Change(BufferOf(j.c, b), b, DataOf(j.c, a))
      else if at == 5 then C.Flush(BufferOf(j.c, b), b)
      else if at == 6 then C.UnpinIt(BufferOf(j.c, b), b)
      else if at == 7 then C.Done(BufferOf(j.c, a), a)
      else C.Done(BufferOf(j.c, b), b)
    case Head(at) => HeadOp(L, j, at, j.bs, i)
    case Clear(at) => HeadOp(L, j, at, [], i)
  }

  function NextPc(pc: Pc, n: nat): (r: Pc) {
    match pc
    case Rest => Rest
    case Fill(k, at) => if at < 7 then Fill(k, at + 1) else if k + 1 < n then Fill(k + 1, 0) else Head(0)
    case Head(at) => if at < 4 then Head(at + 1) else Install(0, 0)
    case Install(k, at) => if at < 8 then Install(k, at + 1) else if k + 1 < n then Install(k + 1, 0) else Clear(0)
    case Clear(at) => if at < 4 then Clear(at + 1) else Rest
  }

  /** The disk writes of the commit done so far. */
  function Written(pc: Pc, n: nat): (t: nat) {
    match pc
    case Rest => 0
    case Fill(k, at) => if at >= 6 then k + 1 else k
    case Head(at) => if at >= 4 then n + 1 else n
    case Install(k, at) => if at >= 6 then n + k + 2 else n + k + 1
    case Clear(at) => if at >= 4 then 2 * n + 2 else 2 * n + 1
  }

  /** The blocks of bs from the k-th on. */
  function From(bs: seq<nat>, k: nat): (r: set<nat>)
    ensures k == 0 ==> forall b :: b in r <==> b in bs
  {
    assert k == 0 ==> bs[k..] == bs;
    if k <= |bs| then set b | b in bs[k..] else {}
  }

  lemma FromNext(bs: seq<nat>, k: nat)
    requires k < |bs| && forall i, k :: 0 <= i < k < |bs| ==> bs[i] != bs[k]
    ensures bs[k] in From(bs, k) && From(bs, k + 1) == From(bs, k) - {bs[k]}
  {
    assert bs[k..] == [bs[k]] + bs[k + 1..];
  }

  lemma FromEnd(bs: seq<nat>)
    ensures From(bs, |bs|) == {}
  {
  }

  /** The blocks pinned: those of the header, less those install_trans has unpinned. */
  function Pinned(j: J): (bs: set<nat>) {
    match j.pc
    case Install(k, at) =>
      From(j.bs, if at >= 7 then k + 1 else k)
    case Clear(_) => {}
    case _ => From(j.s.lh, 0)
  }

  // ----- all steps -----

  datatype Act =
    | Begin(p: nat) | End(p: nat) | Reopen(p: nat)        // begin_op, end_op and end_op's last part
    | Start                                               // commit, with a header that is not empty
    | Bget(i: nat, b: nat) | Acquire(p: nat, b: nat)      // bread by an operation or a reader
    | Alter(p: nat, b: nat, x: Block) | LogWrite(p: nat, b: nat) | Drop(p: nat, b: nat)
    | Move(i: nat)                                        // the committer's next step

  /** log_write found the block in the header: it does nothing to the cache. */
  predicate Absorbs(j: J, a: Act) { a.LogWrite? && a.b in j.s.lh }

  predicate UsesCache(j: J, a: Act) {
    a.Bget? || a.Acquire? || a.Alter? || (a.LogWrite? && !Absorbs(j, a)) || a.Drop? || (a.Move? && !j.pc.Rest?)
  }

  /** What the step does to the cache. */
  function OpOf(L: Layout, j: J, a: Act): (op: C.Op)
    requires UsesCache(j, a)
  {
    match a
    case Bget(i, b) => C.Get(i, b)
    case Acquire(p, b) => C.Take(BufferOf(j.c, b), b)
    case Alter(p, b, x) => C.Change(BufferOf(j.c, b), b, x)
    case LogWrite(p, b) => C.PinIt(BufferOf(j.c, b), b)
    case Drop(p, b) => C.Done(BufferOf(j.c, b), b)
    case Move(i) => CommitOp(L, j, i)
  }

  predicate Touched(h: Held) { h.changed || h.logged }

  /** The conditions on the step other than the cache's own. */
  ghost predicate Permits(L: Layout, j: J, a: Act) {
    match a
    case Begin(p) => S.Enabled(j.s, S.Begin(p))
    case End(p) => S.Enabled(j.s, S.End(p)) && forall b :: b in j.hold && j.hold[b].p == p ==> !Touched(j.hold[b])
    case Reopen(p) => S.Enabled(j.s, S.Reopen(p)) && j.pc.Rest?
    case Start => j.pc.Rest? && j.s.committing && j.s.lh != []
    case Bget(i, b) => !L.InLog(b)
    case Acquire(p, b) => !L.InLog(b) && Awaiting(j.c, b) > (if b in Await(L, j) then 1 else 0)
    case Alter(p, b, x) => b in j.hold && j.hold[b].p == p && p in j.s.active
    case LogWrite(p, b) =>
      b in j.hold && j.hold[b].p == p && |j.s.lh| < L.Capacity() && S.Enabled(j.s, S.Write(p, b))
    case Drop(p, b) => b in j.hold && j.hold[b].p == p && (j.hold[b].changed ==> j.hold[b].logged)
    case Move(i) => !j.pc.Rest?
  }

  ghost predicate Enabled(L: Layout, j: J, a: Act) {
    Permits(L, j, a) && (UsesCache(j, a) ==> C.Can(j.c, OpOf(L, j, a)))
  }

  /** The latest contents of the blocks bs. */
  ghost function Latest(m: Disk, bs: seq<nat>): (data: seq<Block>)
    ensures |data| == |bs|
  {
    seq(|bs|, i requires 0 <= i < |bs| => if bs[i] < |m| then m[bs[i]] else ZERO)
  }

  /** The block map the cache stands for, if it is in order. */
  ghost function MapOf(c: State): (m: Disk) {
    if Shape(c) && Unique(c) then Map(c) else c.disk
  }

  /** What the step does to the header and the counts under log.lock. */
  function SchedAfter(j: J, a: Act): (s: S.Sched)
    requires a.Begin? ==> S.Enabled(j.s, S.Begin(a.p))
    requires a.End? ==> S.Enabled(j.s, S.End(a.p))
    requires a.Reopen? ==> S.Enabled(j.s, S.Reopen(a.p))
    requires a.LogWrite? ==> S.Enabled(j.s, S.Write(a.p, a.b))
  {
    match a
    case Begin(p) => S.Step(j.s, S.Begin(p))
    case End(p) => S.Step(j.s, S.End(p))
    case Reopen(p) => S.Step(j.s, S.Reopen(p))
    case LogWrite(p, b) => S.Step(j.s, S.Write(p, b))
    case Move(i) =>  // the header is erased between install_trans and the last write_head
      if j.pc.Install? && NextPc(j.pc, |j.bs|).Clear? && j.s.committer.Process? && j.s.lh != []
      then S.Step(j.s, S.Erase(j.s.committer.p)) else j.s
    case _ => j.s
  }

  function HoldAfter(j: J, a: Act): (hold: map<nat, Held>) {
    match a
    case Acquire(p, b) => j.hold[b := Held(p, false, false)]
    case Alter(p, b, x) => if b in j.hold then j.hold[b := j.hold[b].(changed := true)] else j.hold
    case LogWrite(p, b) => if b in j.hold then j.hold[b := j.hold[b].(logged := true)] else j.hold
    case Drop(p, b) => j.hold - {b}
    case _ => j.hold
  }

  ghost function After(L: Layout, j: J, a: Act): (r: J)
    requires Enabled(L, j, a)
  {
    var c := if UsesCache(j, a) then C.Next(j.c, OpOf(L, j, a)) else j.c;
    var r := j.(c := c, s := SchedAfter(j, a), hold := HoldAfter(j, a));
    match a
    case Start =>
      r.(pc := Fill(0, 0), bs := j.s.lh, data := Latest(MapOf(j.c), j.s.lh), base := j.c.disk, ws := [])
    case Move(i) =>
      r.(pc := NextPc(j.pc, |j.bs|),
         ws := if OpOf(L, j, a).Flush? then j.ws + [c.disk] else j.ws,
         durable := if j.pc == Head(3) then MapOf(j.c) else j.durable)
    case _ => r
  }

  // ----- the invariant -----

  /** Exactly the listed blocks are pinned, once each. */
  ghost predicate Pins(j: J) {
    forall b: nat :: PinsOf(j.c, b) == if b in Pinned(j) then 1 else 0
  }

  /** Buffers are locked by their holders and by the committer. */
  ghost predicate Locks(L: Layout, j: J) {
    && (forall b: nat :: IsLocked(j.c, b) <==> b in j.hold || b in Mine(L, j))
    && (forall b :: b in j.hold ==> b !in Mine(L, j) && !L.InLog(b))
    && (forall b :: b in Await(L, j) ==> Awaiting(j.c, b) > 0)
  }

  /** A changed or logged buffer belongs to an open operation; a logged one is in the header. */
  ghost predicate Changers(j: J) {
    && (forall b :: b in j.hold && Touched(j.hold[b]) ==> j.hold[b].p in j.s.active)
    && (forall b :: b in j.hold && j.hold[b].logged ==> b in j.s.lh)
    && (!j.pc.Rest? ==> j.s.committing)
  }

  /** The change the committer has made to a log block and not yet written. */
  ghost predicate Pending(L: Layout, j: J, b: nat) {
    (j.pc.Fill? && j.pc.at == 5 && b == LogAddr(L, j.pc.k)) || ((j.pc == Head(3) || j.pc == Clear(3)) && b == L.start)
  }

  /** The block may differ from the disk: it is pinned, or its holder is changing it. */
  ghost predicate Dirty(L: Layout, j: J, b: nat) {
    b in Pinned(j) || (b in j.hold && j.hold[b].changed) || Pending(L, j, b)
  }

  ghost predicate Differs(L: Layout, j: J)
    requires RunInv(j.c)
  {
    forall b: nat :: b < |j.c.disk| && !Dirty(L, j, b) ==> Map(j.c)[b] == j.c.disk[b]
  }

  predicate InRange(pc: Pc, n: nat) {
    match pc
    case Rest => true
    case Fill(k, at) => k < n && at <= 7
    case Head(at) => at <= 4
    case Install(k, at) => k < n && at <= 8
    case Clear(at) => at <= 4
  }

  /** The commit under way: its writes so far are those of the crash model. */
  ghost predicate Writing(L: Layout, j: J) {
    var n, t := |j.bs|, Written(j.pc, |j.bs|);
    && CanCommit(L, j.base, j.bs, j.data) && Loggable(L, j.base) && HeadCount(j.base[L.start]) == 0
    && n > 0 && InRange(j.pc, n) && t <= 2 * n + 2
    && j.s.lh == (if j.pc.Clear? then [] else j.bs)
    && j.c.disk == CommitDisk(L, j.base, j.bs, j.data, t)
    && j.ws == Log.CommitTrace(L, j.base, j.bs, j.data, t)
    && SameHome(L, j.durable, if t <= n then j.base else Apply(j.base, j.bs, j.data))
  }

  /** What it is writing is in the block map, which it does not change. */
  ghost predicate Source(L: Layout, j: J)
    requires RunInv(j.c) && Writing(L, j)
  {
    && |j.c.disk| == |j.base|
    && (forall i :: 0 <= i < |j.bs| ==> Map(j.c)[j.bs[i]] == j.data[i])
    && (j.pc.Fill? && j.pc.at == 5 ==> Map(j.c)[LogAddr(L, j.pc.k)] == j.data[j.pc.k])
    && (j.pc == Head(3) ==> Map(j.c)[L.start] == EncodeHead(j.c.disk[L.start], j.bs, |j.bs|))
    && (j.pc == Clear(3) ==> Map(j.c)[L.start] == EncodeHead(j.c.disk[L.start], [], 0))
    && SameHome(L, Apply(j.base, j.bs, j.data), Map(j.c))
  }

  /** Between commits the header on disk is empty. */
  ghost predicate Idle(L: Layout, j: J) {
    Loggable(L, j.c.disk) && HeadCount(j.c.disk[L.start]) == 0 && SameHome(L, j.durable, j.c.disk)
  }

  ghost predicate Inv(L: Layout, j: J)
    ensures Inv(L, j) ==> RunInv(j.c)
  {
    && RunInv(j.c) && S.Inv(j.s) && Fits(L, j.c.disk) && HomeBlocks(L, j.c.disk, j.s.lh)
    && Pins(j) && Locks(L, j) && Changers(j) && Differs(L, j)
    && if j.pc.Rest? then Idle(L, j) else Writing(L, j) && Source(L, j)
  }

  // ----- the committer's steps, by what they do to one block -----

  /** The committer's place in a transaction of distinct home blocks. */
  ghost predicate Placed(L: Layout, j: J) {
    && !j.pc.Rest? && InRange(j.pc, |j.bs|) && j.s.lh == (if j.pc.Clear? then [] else j.bs)
    && (forall i :: 0 <= i < |j.bs| ==> !L.InLog(j.bs[i]))
    && (forall i, k :: 0 <= i < k < |j.bs| ==> j.bs[i] != j.bs[k])
    && |j.bs| < L.size
  }

  lemma IsPlaced(L: Layout, j: J)
    requires !j.pc.Rest? && Writing(L, j)
    ensures Placed(L, j) && HomeBlocks(L, j.base, j.bs) && |j.data| == |j.bs|
  {
  }

  /** Where the step's block comes from. */
  lemma MoveUses(L: Layout, j: J, i: nat)
    requires Placed(L, j)
    ensures var op := CommitOp(L, j, i);
            && (op.Get? || op.Take? || op.b in Mine(L, j)) && (op.Take? ==> op.b in Await(L, j)) && !op.PinIt?
            && (op.UnpinIt? || (op.Change? && !L.InLog(op.b)) ==> op.b in Pinned(j))
            && (op.UnpinIt? ==> j.pc.Install? && j.pc.at == 6 && op.b == j.bs[j.pc.k])
            && (op.Done? ==> !Pending(L, j, op.b)) && (op.Change? && !L.InLog(op.b) ==> j.pc.Install?)
            && (L.InLog(op.b) <==> op.b !in j.bs)
  {
    if j.pc.Install? { FromNext(j.bs, j.pc.k); }
  }

  /** Locks and waits follow the step. */
  lemma MoveLocks(L: Layout, j: J, r: J, i: nat)
    requires Placed(L, j) && r.pc == NextPc(j.pc, |j.bs|) && r.bs == j.bs
    ensures var op := CommitOp(L, j, i);
            && Mine(L, r) == (if op.Take? then Mine(L, j) + {op.b} else if op.Done? then Mine(L, j) - {op.b}
                else Mine(L, j))
            && (op.Take? ==> op.b !in Await(L, r))
            && Await(L, r) == (if op.Get? then Await(L, j) + {op.b} else if op.Take? then Await(L, j) - {op.b}
                else Await(L, j))
  {
  }

  lemma MovePins(L: Layout, j: J, r: J, i: nat)
    requires Placed(L, j) && r.pc == NextPc(j.pc, |j.bs|) && r.bs == j.bs
    requires r.s.lh == if r.pc.Clear? || r.pc.Rest? then [] else j.bs
    ensures var op := CommitOp(L, j, i);
            Pinned(r) == if op.UnpinIt? then Pinned(j) - {op.b} else Pinned(j)
  {
    hide From, BufferOf, DataOf, HeadValue, LogAddr;
    if j.pc.Install? && j.pc.k < |j.bs| { FromNext(j.bs, j.pc.k); }
    FromEnd(j.bs);
  }

  lemma MovePending(L: Layout, j: J, r: J, i: nat, b: nat)
    requires Placed(L, j) && r.pc == NextPc(j.pc, |j.bs|) && r.bs == j.bs
    ensures var op := CommitOp(L, j, i);
            Pending(L, r, b) <==> (op.Change? && b == op.b && L.InLog(b)) || (Pending(L, j, b) && !op.Flush?)
    ensures Pending(L, j, b) && CommitOp(L, j, i).Flush? ==> b == CommitOp(L, j, i).b
  {
  }

  // ----- each part of the invariant, over one step of the cache -----

  /** The step is one the cache allows: bpin and bunpin are matched, and a buffer let go of
      is in the header or as on the disk. */
  lemma Allowed(L: Layout, j: J, a: Act)
    requires Inv(L, j) && Enabled(L, j, a) && UsesCache(j, a)
    ensures C.Enabled(j.c, OpOf(L, j, a))
  {
    hide RunInv, Writing, Source, Idle, Map, S.Inv, HomeBlocks, CommitOp, C.Can, Differs, Dirty;
    if a.Move? {
      MoveAllowed(L, j, a.i);
    } else if a.Drop? {
      Dropped(L, j, a.b);
      CanDrop(j.c, a.b);
    } else if a.LogWrite? {
      Alone(j, a.p);
      CanUse(j.c, a.b);
    }
  }

  lemma MoveAllowed(L: Layout, j: J, i: nat)
    requires Inv(L, j) && !j.pc.Rest? && C.Can(j.c, CommitOp(L, j, i))
    ensures C.Enabled(j.c, CommitOp(L, j, i))
  {
    hide RunInv, Writing, Source, Map, S.Inv, HomeBlocks, CommitOp, Mine, Await, Pinned, Pending;
    var op := CommitOp(L, j, i);
    IsPlaced(L, j);
    MoveUses(L, j, i);
    if op.UnpinIt? || op.Done? {
      Owned(j.c, op);
      MineData(L, j, op.b);
      CanUse(j.c, op.b);
    }
    if op.Done? { CanDrop(j.c, op.b); }
  }

  /** While an operation is open no commit runs. */
  lemma Alone(j: J, p: nat)
    requires S.Inv(j.s) && Changers(j) && p in j.s.active
    ensures j.pc.Rest?
  {
  }

  /** A holder that has logged what it changed holds a pinned block, or one as on the disk. */
  lemma Dropped(L: Layout, j: J, b: nat)
    requires Inv(L, j) && b in j.hold && (j.hold[b].changed ==> j.hold[b].logged)
    ensures PinsOf(j.c, b) > 0 || (b < |j.c.disk| && Map(j.c)[b] == j.c.disk[b])
  {
    hide RunInv, Writing, Source, Idle, Map, S.Inv, HomeBlocks;
    InUse(j.c, b);
    if j.hold[b].changed { Alone(j, j.hold[b].p); }
    HomeNotPending(L, j, b);
  }

  lemma HomeNotPending(L: Layout, j: J, b: nat)
    requires !j.pc.Rest? ==> Writing(L, j)
    ensures Pending(L, j, b) ==> L.InLog(b)
  {
  }

  lemma PinsKept(j: J, r: J, op: C.Op)
    requires RunInv(j.c) && Pins(j) && Did(j.c, op, r.c)
    requires op.PinIt? ==> op.b !in Pinned(j)
    requires op.UnpinIt? ==> op.b in Pinned(j)
    requires Pinned(r) == if op.PinIt? then Pinned(j) + {op.b} else if op.UnpinIt? then Pinned(j) - {op.b}
             else Pinned(j)
    ensures Pins(r)
  {
    hide RunInv, PinsOf, IsLocked, Awaiting, Map, Pinned;
    forall b: nat ensures PinsOf(r.c, b) == if b in Pinned(r) then 1 else 0 {
      assert DidAt(j.c, op, r.c, b);
    }
  }

  lemma LocksKept(L: Layout, j: J, r: J, op: C.Op)
    requires RunInv(j.c) && Locks(L, j) && Did(j.c, op, r.c)
    requires r.hold.Keys !! Mine(L, r) && forall b :: b in r.hold ==> !L.InLog(b)
    requires var locked := j.hold.Keys + Mine(L, j);
             r.hold.Keys + Mine(L, r) == if op.Take? then locked + {op.b} else if op.Done? then locked - {op.b}
                 else locked
    requires Await(L, r) <= if op.Get? then Await(L, j) + {op.b} else Await(L, j)
    requires op.Take? && op.b in Await(L, r) ==> Awaiting(j.c, op.b) > 1
    ensures Locks(L, r)
  {
    hide RunInv, PinsOf, IsLocked, Awaiting, Map, Mine, Await;
    forall b: nat ensures IsLocked(r.c, b) <==> b in r.hold || b in Mine(L, r) {
      assert DidAt(j.c, op, r.c, b);
      assert b in r.hold.Keys + Mine(L, r) <==> b in r.hold || b in Mine(L, r);
      assert b in j.hold.Keys + Mine(L, j) <==> b in j.hold || b in Mine(L, j);
    }
    forall b | b in Await(L, r) ensures Awaiting(r.c, b) > 0 {
      assert DidAt(j.c, op, r.c, b);
    }
  }

  lemma DiffersKept(L: Layout, j: J, r: J, op: C.Op)
    requires RunInv(j.c) && Differs(L, j) && Did(j.c, op, r.c)
    requires forall b: nat :: b < |j.c.disk| && Dirty(L, j, b) && !Dirty(L, r, b) ==> Map(r.c)[b] == r.c.disk[b]
    requires op.Change? ==> Dirty(L, r, op.b)
    ensures Differs(L, r)
  {
    hide RunInv, DidAt, Map, Dirty;
  }

  // ----- the commit's writes -----

  lemma MoveWritten(L: Layout, j: J, i: nat)
    requires Placed(L, j) && |j.bs| > 0
    ensures var pc, n := NextPc(j.pc, |j.bs|), |j.bs|;
            && InRange(pc, n) && Written(pc, n) <= 2 * n + 2
            && (!pc.Rest? ==> Written(pc, n) == Written(j.pc, n) + if CommitOp(L, j, i).Flush? then 1 else 0)
            && (pc.Rest? <==> j.pc == Clear(4))
            && (j.pc.Clear? ==> pc.Clear? || pc.Rest?)
            && (pc.Clear? && !j.pc.Clear? ==> j.pc.Install?)
            && (Written(j.pc, n) <= n < Written(pc, n) <==> j.pc == Head(3))
  {
  }

  /** Once the header is written the log holds the data. */
  lemma LogHolds(L: Layout, d: Disk, bs: seq<nat>, data: seq<Block>, t: nat, k: nat)
    requires CanCommit(L, d, bs, data) && |bs| < t <= 2 * |bs| + 1 && k < |bs|
    ensures CommitDisk(L, d, bs, data, t)[L.start + k + 1] == data[k]
    ensures k < t - |bs| - 1 ==> CommitDisk(L, d, bs, data, t)[bs[k]] == data[k]
  {
    hide Filled, Installed, WithHead, EncodeHead, HeadBlocks, HeadCount, SameHome;
    var f := Filled(L, d, data, |bs|);
    var h := WithHead(L, f, bs);
    CommittedHead(L, d, bs, data, f, h);
    InstalledOut(L, h, bs, t - |bs| - 1, L.start + k + 1);
    if k < t - |bs| - 1 { InstalledIn(L, h, bs, t - |bs| - 1, k); }
  }

  lemma HeadStays(L: Layout, d: Disk, bs: seq<nat>, data: seq<Block>)
    requires CanCommit(L, d, bs, data)
    ensures var n := |bs|;
            && CommitDisk(L, d, bs, data, n + 1) == WithHead(L, CommitDisk(L, d, bs, data, n), bs)
            && CommitDisk(L, d, bs, data, 2 * n + 2) == WithHead(L, CommitDisk(L, d, bs, data, 2 * n + 1), [])
  {
    hide WithHead, Filled;
    assert Installed(L, WithHead(L, Filled(L, d, data, |bs|), bs), bs, 0) == WithHead(L, Filled(L, d, data, |bs|), bs);
  }

  lemma FillNext(L: Layout, d: Disk, bs: seq<nat>, data: seq<Block>, k: nat)
    requires CanCommit(L, d, bs, data) && k < |bs|
    ensures L.start + k + 1 < |d|
    ensures CommitDisk(L, d, bs, data, k + 1) == CommitDisk(L, d, bs, data, k)[L.start + k + 1 := data[k]]
  {
    hide CommitDisk, Log.CommitTrace;
    Log.CommitFill(L, d, bs, data, k);
  }

  lemma InstallNext(L: Layout, d: Disk, bs: seq<nat>, data: seq<Block>, k: nat)
    requires CanCommit(L, d, bs, data) && k < |bs|
    ensures bs[k] < |d|
    ensures var t := |bs| + k + 1;
            CommitDisk(L, d, bs, data, t + 1) == CommitDisk(L, d, bs, data, t)[bs[k] := data[k]]
  {
    LogHolds(L, d, bs, data, |bs| + k + 1, k);
  }

  /** bwrite in a commit makes the next write of the crash model. */
  lemma FlushWrites(L: Layout, j: J, i: nat)
    requires !j.pc.Rest? && RunInv(j.c) && Writing(L, j) && Source(L, j) && CommitOp(L, j, i).Flush?
    ensures var op, t := CommitOp(L, j, i), Written(j.pc, |j.bs|);
            && op.b < |j.c.disk| && t < 2 * |j.bs| + 2
            && j.c.disk[op.b := Map(j.c)[op.b]] == CommitDisk(L, j.base, j.bs, j.data, t + 1)
  {
    hide Map, CommitDisk, RunInv, Writing, Source, BufferOf, DataOf, HeadValue;
    IsPlaced(L, j);
    if j.pc.Fill? || j.pc.Install? { FlushData(L, j, j.pc.k); } else { FlushHead(L, j); }
  }

  lemma FlushData(L: Layout, j: J, k: nat)
    requires RunInv(j.c) && Writing(L, j) && Source(L, j) && (j.pc == Fill(k, 5) || j.pc == Install(k, 5))
    ensures var b := if j.pc.Fill? then LogAddr(L, k) else HomeAddr(j, k);
            && b < |j.c.disk|
            && j.c.disk[b := Map(j.c)[b]] == CommitDisk(L, j.base, j.bs, j.data, Written(j.pc, |j.bs|) + 1)
  {
    hide Map, CommitDisk, RunInv, Loggable, SameHome, EncodeHead, Apply, HomeBlocks, Log.CommitTrace;
    if j.pc.Fill? { FillNext(L, j.base, j.bs, j.data, k); } else { InstallNext(L, j.base, j.bs, j.data, k); }
  }

  lemma FlushHead(L: Layout, j: J)
    requires RunInv(j.c) && Writing(L, j) && Source(L, j) && (j.pc == Head(3) || j.pc == Clear(3))
    ensures L.start < |j.c.disk|
    ensures j.c.disk[L.start := Map(j.c)[L.start]] == CommitDisk(L, j.base, j.bs, j.data, Written(j.pc, |j.bs|) + 1)
  {
    hide Map, CommitDisk, RunInv, Loggable, SameHome, EncodeHead, Apply;
    HeadStays(L, j.base, j.bs, j.data);
  }

  lemma TraceNext(L: Layout, d: Disk, bs: seq<nat>, data: seq<Block>, t: nat)
    requires CanCommit(L, d, bs, data) && t < 2 * |bs| + 2
    ensures Log.CommitTrace(L, d, bs, data, t + 1) ==
            Log.CommitTrace(L, d, bs, data, t) + [CommitDisk(L, d, bs, data, t + 1)]
  {
  }

  /** The committer changes a buffer to what it will write: data into a log block, the header,
      or data into its home block, which holds it already. */
  lemma ChangeWrites(L: Layout, j: J, i: nat)
    requires Inv(L, j) && !j.pc.Rest? && CommitOp(L, j, i).Change?
    ensures var op := CommitOp(L, j, i);
            && op.b < |j.c.disk|
            && (j.pc.Fill? ==> op.data == j.data[j.pc.k])
            && (j.pc.Install? ==> op.data == Map(j.c)[op.b])
            && (j.pc.Head? ==> op.data == EncodeHead(j.c.disk[L.start], j.bs, |j.bs|))
            && (j.pc.Clear? ==> op.data == EncodeHead(j.c.disk[L.start], [], 0))
  {
    hide Inv, CommitOp, EncodeHead;
    match j.pc
    case Fill(_, _) => FillChange(L, j, i);
    case Install(_, _) => InstallChange(L, j, i);
    case _ => HeadChange(L, j, i);
  }

  lemma FillChange(L: Layout, j: J, i: nat)
    requires Inv(L, j) && j.pc.Fill? && CommitOp(L, j, i).Change?
    ensures var op := CommitOp(L, j, i);
            op.b < |j.c.disk| && j.pc.k < |j.data| && op.data == j.data[j.pc.k]
  {
    hide Inv, Map, CommitDisk, Writing, Source, RunInv, HomeBlocks;
    InvParts(L, j);
    IsPlaced(L, j);
    MineData(L, j, HomeAddr(j, j.pc.k));
    MineData(L, j, LogAddr(L, j.pc.k));
  }

  lemma InstallChange(L: Layout, j: J, i: nat)
    requires Inv(L, j) && j.pc.Install? && CommitOp(L, j, i).Change?
    ensures var op := CommitOp(L, j, i);
            op.b < |j.c.disk| && op.data == Map(j.c)[op.b]
  {
    hide Inv, Map, CommitDisk, Writing, Source, RunInv, HomeBlocks, CommitOp, Mine, Pending, DataOf;
    InstallCopies(L, j, i);
    var k := j.pc.k;
    InvParts(L, j);
    IsPlaced(L, j);
    MineData(L, j, LogAddr(L, k));
    MineData(L, j, HomeAddr(j, k));
    FromLog(L, j, LogAddr(L, k));
    LogHolds(L, j.base, j.bs, j.data, |j.bs| + k + 1, k);
  }

  lemma InstallCopies(L: Layout, j: J, i: nat)
    requires j.pc.Install? && CommitOp(L, j, i).Change?
    ensures var op, a, b := CommitOp(L, j, i), LogAddr(L, j.pc.k), HomeAddr(j, j.pc.k);
            && j.pc.at == 4 && op.b == b && op.data == DataOf(j.c, a)
            && a in Mine(L, j) && b in Mine(L, j) && !Pending(L, j, a)
  {
  }

  lemma HeadChange(L: Layout, j: J, i: nat)
    requires Inv(L, j) && (j.pc.Head? || j.pc.Clear?) && CommitOp(L, j, i).Change?
    ensures var op := CommitOp(L, j, i);
            && op.b < |j.c.disk| && L.start < |j.c.disk|
            && |j.bs| <= LOGSIZE && (forall i :: 0 <= i < |j.bs| ==> j.bs[i] < UINT32)
            && op.data == if j.pc.Head? then EncodeHead(j.c.disk[L.start], j.bs, |j.bs|)
                          else EncodeHead(j.c.disk[L.start], [], 0)
  {
    hide Inv, Map, CommitDisk, Writing, Source, RunInv, HomeBlocks, EncodeHead;
    InvParts(L, j);
    IsPlaced(L, j);
    MineData(L, j, L.start);
    FromLog(L, j, L.start);
  }

  lemma InvParts(L: Layout, j: J)
    requires Inv(L, j) && !j.pc.Rest?
    ensures Writing(L, j) && Source(L, j) && CanCommit(L, j.base, j.bs, j.data) && |j.c.disk| == |j.base|
    ensures j.c.disk == CommitDisk(L, j.base, j.bs, j.data, Written(j.pc, |j.bs|))
    ensures forall i :: 0 <= i < |j.bs| ==> j.bs[i] < |j.c.disk| && Map(j.c)[j.bs[i]] == j.data[i]
    ensures 0 < |j.bs| <= LOGSIZE && forall i :: 0 <= i < |j.bs| ==> j.bs[i] < UINT32
  {
  }

  /** The committer sees the block map in the buffers it holds. */
  lemma MineData(L: Layout, j: J, b: nat)
    requires Inv(L, j) && b in Mine(L, j)
    ensures IsLocked(j.c, b) && b < |j.c.disk| && DataOf(j.c, b) == Map(j.c)[b]
  {
    CanUse(j.c, b);
  }

  /** A log block that is not about to be written is as on the disk. */
  lemma FromLog(L: Layout, j: J, b: nat)
    requires Inv(L, j) && !j.pc.Rest? && L.InLog(b) && !Pending(L, j, b)
    ensures b < |j.c.disk| && Map(j.c)[b] == j.c.disk[b]
  {
    hide Map, CommitDisk, RunInv, Loggable, SameHome, EncodeHead, PinsOf, IsLocked, Awaiting;
    IsPlaced(L, j);
    PinnedListed(j, b);
    assert !Dirty(L, j, b);
  }

  lemma PinnedListed(j: J, b: nat)
    ensures b in Pinned(j) ==> b in j.bs || b in j.s.lh
  {
  }

  // ----- the committer's steps keep the invariant -----

  /** The fields a committer's step sets, and those it leaves. */
  lemma MoveFields(L: Layout, j: J, i: nat)
    requires Enabled(L, j, Move(i))
    ensures !j.pc.Rest?
    ensures var r, op := After(L, j, Move(i)), CommitOp(L, j, i);
            && C.Can(j.c, op) && r.c == C.Next(j.c, op)
            && r.pc == NextPc(j.pc, |j.bs|) && r.bs == j.bs && r.data == j.data && r.base == j.base && r.hold == j.hold
            && r.ws == (if op.Flush? then j.ws + [r.c.disk] else j.ws)
            && r.durable == if j.pc == Head(3) then MapOf(j.c) else j.durable
  {
  }

  /** What the committer has changed and not written. */
  lemma MoveChanged(L: Layout, j: J, r: J, i: nat)
    requires Placed(L, j) && r.pc == NextPc(j.pc, |j.bs|)
    ensures var op := CommitOp(L, j, i);
            && (r.pc.Fill? && r.pc.at == 5 ==>
                op.Change? && j.pc.Fill? && j.pc.k == r.pc.k && op.b == LogAddr(L, r.pc.k))
            && (r.pc == Head(3) ==> op.Change? && j.pc.Head? && op.b == L.start)
            && (r.pc == Clear(3) ==> op.Change? && j.pc.Clear? && op.b == L.start)
  {
  }

  lemma MoveSched(L: Layout, j: J, i: nat)
    requires Inv(L, j) && Enabled(L, j, Move(i))
    ensures var r := After(L, j, Move(i));
            && S.Inv(r.s) && r.s.active == j.s.active == map[] && (r.s.committing <==> j.s.committing)
            && r.s.lh == if r.pc.Clear? || r.pc.Rest? then [] else j.bs
  {
    hide RunInv, CommitOp, C.Next, Pins, Locks, Differs, Source, Map;
    IsPlaced(L, j);
    MoveWritten(L, j, i);
    if j.pc.Install? && NextPc(j.pc, |j.bs|).Clear? { S.InvKept(j.s, S.Erase(j.s.committer.p)); }
  }

  lemma MoveLocked(L: Layout, j: J, i: nat)
    requires Inv(L, j) && !j.pc.Rest? && Enabled(L, j, Move(i)) && C.Enabled(j.c, CommitOp(L, j, i))
    requires Did(j.c, CommitOp(L, j, i), After(L, j, Move(i)).c)
    ensures Locks(L, After(L, j, Move(i)))
  {
    hide RunInv, CommitOp, C.Next, Pins, Differs, Source, Writing, Map, Mine, Await, S.Inv, NextPc, Enabled, After;
    var r, op := After(L, j, Move(i)), CommitOp(L, j, i);
    MoveFields(L, j, i);
    IsPlaced(L, j);
    MoveUses(L, j, i);
    MoveLocks(L, j, r, i);
    if op.Take? { TakesFree(j.c, op); }
    LockSets(j.hold.Keys, Mine(L, j), Mine(L, r), op);
    LocksKept(L, j, r, op);
  }

  /** The blocks locked, others' and the committer's, follow the committer's step. */
  lemma LockSets(h: set<nat>, m: set<nat>, n: set<nat>, op: C.Op)
    requires h !! m && n == if op.Take? then m + {op.b} else if op.Done? then m - {op.b} else m
    requires (op.Take? ==> op.b !in h) && (op.Done? ==> op.b in m)
    ensures h !! n
    ensures h + n == if op.Take? then h + m + {op.b} else if op.Done? then h + m - {op.b} else h + m
  {
  }

  lemma TakesFree(c: State, op: C.Op)
    requires RunInv(c) && C.Enabled(c, op) && op.Take?
    ensures !IsLocked(c, op.b)
  {
    Owned(c, op);
  }

  /** The committer's step makes a block clean only by writing it, or by unpinning one it wrote. */
  lemma MoveCleans(L: Layout, j: J, r: J, i: nat, b: nat)
    requires Inv(L, j) && !j.pc.Rest? && Did(j.c, CommitOp(L, j, i), r.c) && b < |j.c.disk|
    requires r.pc == NextPc(j.pc, |j.bs|) && r.bs == j.bs && r.hold == j.hold
    requires Pinned(r) == if CommitOp(L, j, i).UnpinIt? then Pinned(j) - {CommitOp(L, j, i).b} else Pinned(j)
    requires Dirty(L, j, b) && !Dirty(L, r, b)
    ensures Map(r.c)[b] == r.c.disk[b]
  {
    hide Inv, RunInv, CommitOp, Writing, Source, Map, NextPc, Pinned, Pending, DidAt, HomeBlocks, CommitDisk;
    InvParts(L, j);
    IsPlaced(L, j);
    MoveUses(L, j, i);
    MovePending(L, j, r, i, b);
    var op := CommitOp(L, j, i);
    if op.UnpinIt? { LogHolds(L, j.base, j.bs, j.data, Written(j.pc, |j.bs|), j.pc.k); }
  }

  lemma MoveDiffers(L: Layout, j: J, i: nat)
    requires Inv(L, j) && !j.pc.Rest? && Enabled(L, j, Move(i)) && C.Enabled(j.c, CommitOp(L, j, i))
    requires Did(j.c, CommitOp(L, j, i), After(L, j, Move(i)).c)
    ensures Pins(After(L, j, Move(i))) && Differs(L, After(L, j, Move(i)))
  {
    hide RunInv, CommitOp, C.Next, Locks, Source, Writing, Map, Mine, Await, S.Inv, NextPc, Pinned, Pending, DidAt,
         HomeBlocks,
         Enabled, After;
    var r, op := After(L, j, Move(i)), CommitOp(L, j, i);
    MoveSched(L, j, i);
    MoveFields(L, j, i);
    InvParts(L, j);
    IsPlaced(L, j);
    MoveUses(L, j, i);
    MovePins(L, j, r, i);
    PinsKept(j, r, op);
    forall b: nat | b < |j.c.disk| && Dirty(L, j, b) && !Dirty(L, r, b) ensures Map(r.c)[b] == r.c.disk[b] {
      MoveCleans(L, j, r, i, b);
    }
    MovePending(L, j, r, i, op.b);
    DiffersKept(L, j, r, op);
  }

  lemma MoveWriting(L: Layout, j: J, i: nat)
    requires Inv(L, j) && !j.pc.Rest? && Enabled(L, j, Move(i)) && C.Enabled(j.c, CommitOp(L, j, i))
    requires Did(j.c, CommitOp(L, j, i), After(L, j, Move(i)).c) && j.pc != Clear(4)
    ensures Writing(L, After(L, j, Move(i)))
  {
    hide RunInv, CommitOp, C.Next, Locks, Differs, Pins, Map, S.Inv, NextPc, DidAt, HomeBlocks, Enabled, After, InRange,
         Written, CommitDisk, Log.CommitTrace, SameHome, Apply, Source, Loggable, Changers;
    var op := CommitOp(L, j, i);
    MoveFields(L, j, i);
    MoveSched(L, j, i);
    IsPlaced(L, j);
    MoveWritten(L, j, i);
    if op.Flush? {
      FlushWrites(L, j, i);
      TraceNext(L, j.base, j.bs, j.data, Written(j.pc, |j.bs|));
    }
    SourceHome(L, j);
  }

  lemma SourceHome(L: Layout, j: J)
    requires RunInv(j.c) && Writing(L, j) && Source(L, j)
    ensures SameHome(L, Map(j.c), Apply(j.base, j.bs, j.data))
  {
    hide Map, CommitDisk, RunInv;
  }

  lemma SameHomeSym(L: Layout, d: Disk, e: Disk)
    requires SameHome(L, d, e)
    ensures SameHome(L, e, d)
  {
  }

  lemma MoveSource(L: Layout, j: J, i: nat)
    requires Inv(L, j) && !j.pc.Rest? && Enabled(L, j, Move(i)) && C.Enabled(j.c, CommitOp(L, j, i))
    requires Did(j.c, CommitOp(L, j, i), After(L, j, Move(i)).c) && Writing(L, After(L, j, Move(i))) && j.pc != Clear(4)
    ensures Source(L, After(L, j, Move(i)))
  {
    hide RunInv, CommitOp, C.Next, Locks, Differs, Pins, Map, S.Inv, NextPc, DidAt, Enabled, After, InRange,
         Written, CommitDisk, Log.CommitTrace, Apply, EncodeHead, Writing;
    var r, op := After(L, j, Move(i)), CommitOp(L, j, i);
    MoveFields(L, j, i);
    InvParts(L, j);
    IsPlaced(L, j);
    MoveChanged(L, j, r, i);
    if op.Change? { ChangeWrites(L, j, i); }
    MoveHome(L, j, i);
    SameHomeTrans(L, Apply(j.base, j.bs, j.data), Map(j.c), Map(r.c));
  }

  lemma MoveHome(L: Layout, j: J, i: nat)
    requires Inv(L, j) && !j.pc.Rest? && Enabled(L, j, Move(i)) && C.Enabled(j.c, CommitOp(L, j, i))
    requires Did(j.c, CommitOp(L, j, i), After(L, j, Move(i)).c)
    ensures SameHome(L, Map(j.c), Map(After(L, j, Move(i)).c)) && SameHome(L, Map(After(L, j, Move(i)).c), Map(j.c))
  {
    hide RunInv, CommitOp, C.Next, Locks, Differs, Pins, Map, S.Inv, NextPc, DidAt, Enabled, After, InRange,
         Written, CommitDisk, Log.CommitTrace, SameHome, Apply, EncodeHead, Writing;
    IsPlaced(L, j);
    MoveUses(L, j, i);
    if CommitOp(L, j, i).Change? { ChangeWrites(L, j, i); }
    HomeUnmoved(L, j, After(L, j, Move(i)), CommitOp(L, j, i));
  }

  /** A change of a log block, or one that changes nothing, leaves the home blocks. */
  lemma HomeUnmoved(L: Layout, j: J, r: J, op: C.Op)
    requires RunInv(j.c) && Did(j.c, op, r.c)
    requires op.Change? ==> L.InLog(op.b) || op.data == Map(j.c)[op.b]
    ensures SameHome(L, Map(j.c), Map(r.c)) && SameHome(L, Map(r.c), Map(j.c))
  {
    hide RunInv, DidAt, Map;
  }

  lemma MoveEnds(L: Layout, j: J, i: nat)
    requires Inv(L, j) && !j.pc.Rest? && Enabled(L, j, Move(i)) && C.Enabled(j.c, CommitOp(L, j, i))
    requires Did(j.c, CommitOp(L, j, i), After(L, j, Move(i)).c) && j.pc == Clear(4)
    ensures Idle(L, After(L, j, Move(i)))
  {
    hide RunInv, C.Next, Locks, Differs, Pins, Map, Mine, Await, S.Inv, Pinned, Pending, DidAt,
         CommitDisk, Log.CommitTrace, Apply, EncodeHead, HomeBlocks, HeadCount, HeadBlocks, SameHome;
    InvParts(L, j);
    CrashInCommit(L, j.base, j.bs, j.data, 2 * |j.bs| + 2);
    EmptyLog(L, j.c.disk);
    SameHomeSym(L, j.c.disk, Recovered(L, j.c.disk));
    SameHomeTrans(L, j.c.disk, Recovered(L, j.c.disk), Apply(j.base, j.bs, j.data));
    SameHomeSym(L, j.c.disk, Apply(j.base, j.bs, j.data));
    SameHomeTrans(L, j.durable, Apply(j.base, j.bs, j.data), j.c.disk);
  }

  /** Recovering an empty log changes no home block. */
  lemma EmptyLog(L: Layout, d: Disk)
    requires Loggable(L, d) && HeadCount(d[L.start]) == 0
    ensures SameHome(L, d, Recovered(L, d)) && SameHome(L, Recovered(L, d), d)
  {
    assert HeadBlocks(d[L.start]) == [];
  }

  lemma MoveKeeps(L: Layout, j: J, i: nat)
    requires Inv(L, j) && Enabled(L, j, Move(i))
    ensures Inv(L, After(L, j, Move(i)))
    ensures SameHome(L, Map(After(L, j, Move(i)).c), Map(j.c))
  {
    hide RunInv, CommitOp, C.Next, C.Can, Locks, Differs, Pins, Map, S.Inv, DidAt, Writing, Source, Idle, Apply,
         CommitDisk, InRange, Written, Enabled, After, NextPc, Changers, HomeBlocks, SameHome, Fits;
    MoveFields(L, j, i);
    Allowed(L, j, Move(i));
    Does(j.c, CommitOp(L, j, i));
    MoveSched(L, j, i);
    MoveLocked(L, j, i);
    MoveDiffers(L, j, i);
    MoveFrame(L, j, i);
    MoveHome(L, j, i);
    if j.pc == Clear(4) {
      MoveEnds(L, j, i);
    } else {
      MoveWriting(L, j, i);
      MoveSource(L, j, i);
    }
  }

  /** What the committer has nothing to do with. */
  lemma MoveFrame(L: Layout, j: J, i: nat)
    requires Inv(L, j) && !j.pc.Rest? && Enabled(L, j, Move(i)) && C.Enabled(j.c, CommitOp(L, j, i))
    requires Did(j.c, CommitOp(L, j, i), After(L, j, Move(i)).c)
    ensures var r := After(L, j, Move(i));
            && Fits(L, r.c.disk) && HomeBlocks(L, r.c.disk, r.s.lh) && Changers(r)
            && (r.pc.Rest? <==> j.pc == Clear(4))
  {
    hide RunInv, CommitOp, C.Next, C.Can, Locks, Differs, Pins, Map, S.Inv, DidAt, Writing, Source, Idle, Apply,
         CommitDisk, InRange, Written, Enabled, After, NextPc;
    MoveFields(L, j, i);
    MoveSched(L, j, i);
    InvParts(L, j);
    IsPlaced(L, j);
    MoveWritten(L, j, i);
  }

  // ----- the other steps keep it -----

  /** The commit does not notice a step that leaves the disk and the block map alone. */
  lemma Unnoticed(L: Layout, j: J, r: J)
    requires Inv(L, j) && RunInv(r.c) && r.c.disk == j.c.disk && Map(r.c) == Map(j.c) && r.s.lh == j.s.lh
    requires r.pc == j.pc && r.bs == j.bs && r.data == j.data && r.base == j.base && r.ws == j.ws
             && r.durable == j.durable
    ensures if r.pc.Rest? then Idle(L, r) else Writing(L, r) && Source(L, r)
  {
    hide RunInv, Map, CommitDisk, Log.CommitTrace, Apply, SameHome, EncodeHead, Loggable;
  }

  /** A step that takes or gives up a buffer, and changes no block. */
  lemma QuietKeeps(L: Layout, j: J, r: J, op: C.Op)
    requires Inv(L, j) && Did(j.c, op, r.c) && (op.Get? || op.Take? || op.Done?)
    requires r == j.(c := r.c, hold := r.hold) && Changers(r)
    requires r.hold.Keys !! Mine(L, j) && forall b :: b in r.hold ==> !L.InLog(b)
    requires r.hold.Keys == if op.Take? then j.hold.Keys + {op.b} else if op.Done? then j.hold.Keys - {op.b}
             else j.hold.Keys
    requires op.Done? ==> op.b in j.hold
    requires op.Take? && op.b in Await(L, j) ==> Awaiting(j.c, op.b) > 1
    requires forall b: nat :: Dirty(L, j, b) ==> Dirty(L, r, b)
    ensures Inv(L, r) && Map(r.c) == Map(j.c)
  {
    hide RunInv, Map, S.Inv, DidAt, Writing, Source, Idle, Mine, Await, Pinned, HomeBlocks, Changers, Dirty;
    Unnoticed(L, j, r);
    SamePlace(L, j, r);
    PinsKept(j, r, op);
    LocksKept(L, j, r, op);
    DiffersKept(L, j, r, op);
  }

  lemma BgetKeeps(L: Layout, j: J, a: Act)
    requires Inv(L, j) && Enabled(L, j, a) && a.Bget?
    ensures Inv(L, After(L, j, a)) && Map(After(L, j, a).c) == Map(j.c)
  {
    hide RunInv, C.Next, C.Can, Map, S.Inv, DidAt, Writing, Source, Idle, Mine, Await, HomeBlocks;
    Allowed(L, j, a);
    Does(j.c, OpOf(L, j, a));
    QuietKeeps(L, j, After(L, j, a), OpOf(L, j, a));
  }

  lemma AcquireKeeps(L: Layout, j: J, a: Act)
    requires Inv(L, j) && Enabled(L, j, a) && a.Acquire?
    ensures Inv(L, After(L, j, a)) && Map(After(L, j, a).c) == Map(j.c)
    ensures a.b in After(L, j, a).hold && IsLocked(After(L, j, a).c, a.b)
  {
    hide RunInv, C.Next, C.Can, Map, S.Inv, Writing, Source, Idle, Mine, Await, HomeBlocks, Pinned;
    Allowed(L, j, a);
    Does(j.c, OpOf(L, j, a));
    TakesFree(j.c, OpOf(L, j, a));
    SamePlace(L, j, After(L, j, a));
    QuietKeeps(L, j, After(L, j, a), OpOf(L, j, a));
  }

  lemma DropKeeps(L: Layout, j: J, a: Act)
    requires Inv(L, j) && Enabled(L, j, a) && a.Drop?
    ensures Inv(L, After(L, j, a)) && Map(After(L, j, a).c) == Map(j.c)
  {
    hide RunInv, C.Next, C.Can, Map, S.Inv, DidAt, Writing, Source, Idle, Mine, Await, HomeBlocks, Pinned;
    Allowed(L, j, a);
    Does(j.c, OpOf(L, j, a));
    var r := After(L, j, a);
    if j.hold[a.b].changed {
      Alone(j, a.p);
      PinnedAtRest(j);
    }
    SamePlace(L, j, r);
    QuietKeeps(L, j, r, OpOf(L, j, a));
  }

  lemma SamePlace(L: Layout, j: J, r: J)
    requires r.pc == j.pc && r.bs == j.bs && r.s.lh == j.s.lh
    ensures Mine(L, r) == Mine(L, j) && Await(L, r) == Await(L, j) && Pinned(r) == Pinned(j)
  {
  }

  lemma SamePending(L: Layout, j: J, r: J, b: nat)
    requires r.pc == j.pc
    ensures Pending(L, r, b) <==> Pending(L, j, b)
  {
  }

  lemma PinnedAtRest(j: J)
    requires j.pc.Rest?
    ensures forall b :: b in Pinned(j) <==> b in j.s.lh
  {
  }

  /** An operation changes a buffer it holds. */
  lemma AlterKeeps(L: Layout, j: J, a: Act)
    requires Inv(L, j) && Enabled(L, j, a) && a.Alter?
    ensures Inv(L, After(L, j, a)) && a.b < |j.c.disk| && Map(After(L, j, a).c) == Map(j.c)[a.b := a.x]
  {
    hide RunInv, C.Next, C.Can, Map, S.Inv, DidAt, Mine, Await, Pending, Pinned, HomeBlocks, Pins, Locks, Differs,
         Loggable;
    Alone(j, a.p);
    Allowed(L, j, a);
    Does(j.c, OpOf(L, j, a));
    AlterParts(L, j, After(L, j, a), OpOf(L, j, a));
  }

  lemma AlterParts(L: Layout, j: J, r: J, op: C.Op)
    requires RunInv(j.c) && Pins(j) && Locks(L, j) && Differs(L, j) && j.pc.Rest?
    requires op.Change? && Did(j.c, op, r.c) && op.b in j.hold
    requires r == j.(c := r.c, hold := j.hold[op.b := j.hold[op.b].(changed := true)])
    ensures Pins(r) && Locks(L, r) && Differs(L, r)
  {
    hide RunInv, Map, DidAt, Mine, Await, Pinned, PinsOf, IsLocked, Awaiting, Pending;
    SamePlace(L, j, r);
    AtRest(L, j);
    PinsKept(j, r, op);
    LocksKept(L, j, r, op);
    DiffersKept(L, j, r, op);
  }

  /** log_write: the block joins the header and is pinned, if it is not there already. */
  lemma LogWriteKeeps(L: Layout, j: J, a: Act)
    requires Inv(L, j) && Enabled(L, j, a) && a.LogWrite?
    ensures Inv(L, After(L, j, a)) && Map(After(L, j, a).c) == Map(j.c)
  {
    hide RunInv, C.Next, C.Can, Map, S.Inv, Did, Mine, Await, Pending, Pinned, Pins, Locks, Differs, HomeBlocks,
         Loggable;
    var r := After(L, j, a);
    Alone(j, a.p);
    S.InvKept(j.s, S.Write(a.p, a.b));
    HomeGrows(L, j, a.b);
    if Absorbs(j, a) {
      AbsorbKeeps(L, j, r, a.b);
    } else {
      Allowed(L, j, a);
      Does(j.c, OpOf(L, j, a));
      PinKeepsAll(L, j, r, OpOf(L, j, a));
    }
  }

  lemma HomeGrows(L: Layout, j: J, b: nat)
    requires Inv(L, j) && b in j.hold && |j.s.lh| < L.Capacity()
    ensures HomeBlocks(L, j.c.disk, S.Absorb(j.s.lh, b))
  {
    hide RunInv, Map, S.Inv, PinsOf, Awaiting, Idle, Writing, Source, Differs, Pins, Changers;
    InUse(j.c, b);
  }

  lemma AbsorbKeeps(L: Layout, j: J, r: J, b: nat)
    requires RunInv(j.c) && Pins(j) && Locks(L, j) && Differs(L, j) && j.pc.Rest? && b in j.hold
    requires r == j.(s := r.s, hold := j.hold[b := j.hold[b].(logged := true)]) && r.s.lh == j.s.lh
    ensures Pins(r) && Locks(L, r) && Differs(L, r)
  {
    hide RunInv, Map, Mine, Await, Pinned, PinsOf, IsLocked, Awaiting, Pending;
    SamePlace(L, j, r);
    AtRest(L, j);
    AtRest(L, r);
  }

  lemma PinKeepsAll(L: Layout, j: J, r: J, op: C.Op)
    requires RunInv(j.c) && Pins(j) && Locks(L, j) && Differs(L, j) && j.pc.Rest?
    requires op.PinIt? && Did(j.c, op, r.c) && op.b in j.hold && op.b !in j.s.lh
    requires r == j.(c := r.c, s := r.s, hold := j.hold[op.b := j.hold[op.b].(logged := true)])
    requires r.s.lh == j.s.lh + [op.b]
    ensures Pins(r) && Locks(L, r) && Differs(L, r)
    ensures r.c.disk == j.c.disk && Map(r.c) == Map(j.c)
  {
    hide RunInv, Map, DidAt, Mine, Await, Pinned, PinsOf, IsLocked, Awaiting, Pending;
    PinnedAtRest(j);
    PinnedAtRest(r);
    AtRest(L, j);
    AtRest(L, r);
    PinsKept(j, r, op);
    LocksKept(L, j, r, op);
    DiffersKept(L, j, r, op);
  }

  lemma AtRest(L: Layout, j: J)
    requires j.pc.Rest?
    ensures Mine(L, j) == {} && Await(L, j) == {} && forall b: nat :: !Pending(L, j, b)
  {
  }

  /** begin_op, end_op and its last part. */
  lemma OpKeeps(L: Layout, j: J, a: Act)
    requires Inv(L, j) && Enabled(L, j, a) && (a.Begin? || a.End? || a.Reopen?)
    ensures Inv(L, After(L, j, a)) && After(L, j, a).c == j.c
  {
    hide RunInv, Map, S.Inv, Writing, Source, Idle, Mine, Await, Pending, Pinned, HomeBlocks;
    var r := After(L, j, a);
    S.InvKept(j.s, if a.Begin? then S.Begin(a.p) else if a.End? then S.End(a.p) else S.Reopen(a.p));
    Unnoticed(L, j, r);
    SamePlace(L, j, r);
    forall b: nat ensures Pending(L, r, b) <==> Pending(L, j, b) { SamePending(L, j, r, b); }
  }

  /** Nothing but the listed blocks differs from the disk when commit starts. */
  lemma StartApply(L: Layout, j: J, data: seq<Block>)
    requires Inv(L, j) && j.pc.Rest? && j.s.committing && data == Latest(Map(j.c), j.s.lh)
    ensures CanCommit(L, j.c.disk, j.s.lh, data) && SameHome(L, Apply(j.c.disk, j.s.lh, data), Map(j.c))
    ensures forall i :: 0 <= i < |j.s.lh| ==> Map(j.c)[j.s.lh[i]] == data[i]
  {
    hide RunInv, Map, Mine, Await, Pending, HeadCount, Loggable, HeadBlocks, Apply, IsLocked, PinsOf, Awaiting;
    var m, bs := Map(j.c), j.s.lh;
    AtRest(L, j);
    PinnedAtRest(j);
    forall b: nat | b < |m| && !L.InLog(b) ensures Apply(j.c.disk, bs, data)[b] == m[b] {
      if b in bs {
        var i :| 0 <= i < |bs| && bs[i] == b;
        ApplyIn(j.c.disk, bs, data, i);
      } else {
        ApplyOut(j.c.disk, bs, data, b);
        assert !Dirty(L, j, b);
      }
    }
  }

  /** commit starts: the header lists what differs from the disk. */
  lemma StartKeeps(L: Layout, j: J)
    requires Inv(L, j) && Enabled(L, j, Start)
    ensures Inv(L, After(L, j, Start)) && After(L, j, Start).c == j.c
  {
    hide RunInv, Map, Mine, Await, Pending, HeadCount, Loggable, HeadBlocks, Apply, Latest, IsLocked, PinsOf, Awaiting;
    var r := After(L, j, Start);
    StartApply(L, j, r.data);
    AtRest(L, j);
    Unfilled(L, r);
  }

  lemma Unfilled(L: Layout, j: J)
    requires j.pc == Fill(0, 0)
    ensures Mine(L, j) == {} && Await(L, j) == {} && forall b: nat :: !Pending(L, j, b)
  {
  }

  /** Every step keeps the invariant, and only an operation's own change moves a home block. */
  lemma Keeps(L: Layout, j: J, a: Act)
    requires Inv(L, j) && Enabled(L, j, a)
    ensures Inv(L, After(L, j, a))
    ensures SameHome(L, Map(After(L, j, a).c),
                     if a.Alter? && a.b < |Map(j.c)| then Map(j.c)[a.b := a.x] else Map(j.c))
  {
    hide Inv, After, Enabled, Map;
    match a
    case Begin(_) => OpKeeps(L, j, a);
    case End(_) => OpKeeps(L, j, a);
    case Reopen(_) => OpKeeps(L, j, a);
    case Start => StartKeeps(L, j);
    case Bget(_, _) => BgetKeeps(L, j, a);
    case Acquire(_, _) => AcquireKeeps(L, j, a);
    case Alter(_, _, _) => AlterKeeps(L, j, a);
    case LogWrite(_, _) => LogWriteKeeps(L, j, a);
    case Drop(_, _) => DropKeeps(L, j, a);
    case Move(i) => MoveKeeps(L, j, i);
  }
}
