/** The redo log as it is on disk (kernel/log.c): the header format, the disk
    after each single-block write of a commit and of a recovery, and what a
    crash between any two of those writes leaves behind.  Single-block writes
    are atomic. */
module LogDisk {
  import opened Param
  import opened Machine
  import opened Blocks

  type Disk = seq<Block>

  /** log.start and log.size: the header block, then the logged blocks. */
  datatype Layout = Layout(start: nat, size: nat) {
    predicate InLog(b: nat) { start <= b < start + size }
    /** How many blocks one transaction may log: log_write's two limits. */
    function Capacity(): int { if size - 1 < LOGSIZE then size - 1 else LOGSIZE }
  }

  /** The disk holds the log area, and the log area at least its header. */
  predicate Fits(L: Layout, d: Disk) {
    0 < L.size && L.start + L.size <= |d| < UINT32
  }

  // ----- the header block -----

  function HeadCount(h: Block): (n: nat) { Word(h, 0) }

  function HeadBlocks(h: Block): (bs: seq<nat>)
    requires HeadCount(h) <= LOGSIZE
    ensures |bs| == HeadCount(h)
  {
    seq(HeadCount(h), i requires 0 <= i < HeadCount(h) => Word(h, 1 + i))
  }

  /** `hb->n = n` followed by `hb->block[i] = bs[i]` for the first k entries. */
  function EncodeHead(h: Block, bs: seq<nat>, k: nat): (r: Block)
    requires k <= |bs| <= LOGSIZE
    requires forall i :: 0 <= i < |bs| ==> bs[i] < UINT32
  {
    if k == 0 then SetWord(h, 0, |bs|) else SetWord(EncodeHead(h, bs, k - 1), k, bs[k - 1])
  }

  lemma {:induction false} EncodedWord(h: Block, bs: seq<nat>, k: nat, j: nat)
    requires k <= |bs| <= LOGSIZE && j <= k
    requires forall i :: 0 <= i < |bs| ==> bs[i] < UINT32
    ensures Word(EncodeHead(h, bs, k), j) == if j == 0 then |bs| else bs[j - 1]
  {
    if k == 0 {
      WordOfSetWord(h, 0, |bs|, j);
    } else {
      WordOfSetWord(EncodeHead(h, bs, k - 1), k, bs[k - 1], j);
      if j < k {
        EncodedWord(h, bs, k - 1, j);
      }
    }
  }

  /** read_head undoes write_head, whatever was in the header block before. */
  lemma HeadRoundTrip(h: Block, bs: seq<nat>)
    requires |bs| <= LOGSIZE
    requires forall i :: 0 <= i < |bs| ==> bs[i] < UINT32
    ensures HeadCount(EncodeHead(h, bs, |bs|)) == |bs|
    ensures HeadBlocks(EncodeHead(h, bs, |bs|)) == bs
  {
    EncodedWord(h, bs, |bs|, 0);
    forall i | 0 <= i < |bs|
      ensures HeadBlocks(EncodeHead(h, bs, |bs|))[i] == bs[i]
    {
      EncodedWord(h, bs, |bs|, i + 1);
    }
  }

  // ----- the disk after each write -----

  /** Home block numbers: on the disk, outside the log area, no repeats. */
  predicate HomeBlocks(L: Layout, d: Disk, bs: seq<nat>) {
    && |bs| <= L.Capacity()
    && (forall i :: 0 <= i < |bs| ==> bs[i] < |d| && !L.InLog(bs[i]))
    && (forall i, j :: 0 <= i < j < |bs| ==> bs[i] != bs[j])
  }

  /** The i-th logged block. */
  function LogBlock(L: Layout, d: Disk, i: nat): (b: Block)
    requires Fits(L, d) && i < L.Capacity()
  {
    d[L.start + i + 1]
  }

  /** write_log after k of its writes. */
  function Filled(L: Layout, d: Disk, data: seq<Block>, k: nat): (r: Disk)
    requires Fits(L, d) && k <= |data| <= L.Capacity()
    ensures |r| == |d|
  {
    if k == 0 then d else Filled(L, d, data, k - 1)[L.start + k := data[k - 1]]
  }

  /** install_trans after k of its writes. */
  function Installed(L: Layout, d: Disk, bs: seq<nat>, k: nat): (r: Disk)
    requires Fits(L, d) && HomeBlocks(L, d, bs) && k <= |bs|
    ensures |r| == |d|
  {
    if k == 0 then d
    else
      var p := Installed(L, d, bs, k - 1);
      p[bs[k - 1] := LogBlock(L, p, k - 1)]
  }

  /** write_head for the entries bs. */
  function WithHead(L: Layout, d: Disk, bs: seq<nat>): (r: Disk)
    requires Fits(L, d) && HomeBlocks(L, d, bs)
    ensures |r| == |d|
  {
    d[L.start := EncodeHead(d[L.start], bs, |bs|)]
  }

  /** A transaction that commit can write. */
  predicate CanCommit(L: Layout, d: Disk, bs: seq<nat>, data: seq<Block>) {
    Fits(L, d) && HomeBlocks(L, d, bs) && |data| == |bs|
  }

  /** The disk after t of the 2n + 2 writes of commit: n log blocks, the header,
      n home blocks, the cleared header. */
  function CommitDisk(L: Layout, d: Disk, bs: seq<nat>, data: seq<Block>, t: nat): (r: Disk)
    requires CanCommit(L, d, bs, data) && t <= 2 * |bs| + 2
    ensures |r| == |d|
  {
    var n := |bs|;
    if t <= n then Filled(L, d, data, t)
    else
      var h := WithHead(L, Filled(L, d, data, n), bs);
      if t <= 2 * n + 1 then Installed(L, h, bs, t - n - 1)
      else WithHead(L, Installed(L, h, bs, n), [])
  }

  /** A disk whose header names distinct home blocks. */
  predicate Loggable(L: Layout, d: Disk) {
    && Fits(L, d)
    && HeadCount(d[L.start]) <= LOGSIZE
    && HomeBlocks(L, d, HeadBlocks(d[L.start]))
  }

  /** The disk after t of the n + 1 writes of recover_from_log. */
  function RecoveryDisk(L: Layout, d: Disk, t: nat): (r: Disk)
    requires Loggable(L, d) && t <= HeadCount(d[L.start]) + 1
    ensures |r| == |d|
  {
    var bs := HeadBlocks(d[L.start]);
    if t <= |bs| then Installed(L, d, bs, t) else WithHead(L, Installed(L, d, bs, |bs|), [])
  }

  /** The disk a completed recovery leaves. */
  function Recovered(L: Layout, d: Disk): (r: Disk)
    requires Loggable(L, d)
    ensures |r| == |d|
  {
    RecoveryDisk(L, d, HeadCount(d[L.start]) + 1)
  }

  /** The simple object: a plain block map with one group of blocks replaced at once. */
  function Apply(d: Disk, bs: seq<nat>, data: seq<Block>): (r: Disk)
    requires |data| == |bs| && forall i :: 0 <= i < |bs| ==> bs[i] < |d|
    ensures |r| == |d|
  {
    if |bs| == 0 then d
    else Apply(d, bs[..|bs| - 1], data[..|bs| - 1])[bs[|bs| - 1] := data[|bs| - 1]]
  }

  /** The two disks agree on every block outside the log area. */
  ghost predicate SameHome(L: Layout, d: Disk, e: Disk) {
    |d| == |e| && forall b :: 0 <= b < |d| && !L.InLog(b) ==> d[b] == e[b]
  }

  // ----- what each write touches -----

  lemma {:induction false} FilledAt(L: Layout, d: Disk, data: seq<Block>, k: nat, b: nat)
    requires Fits(L, d) && k <= |data| <= L.Capacity() && b < |d|
    ensures Filled(L, d, data, k)[b] ==
            if L.start < b <= L.start + k then data[b - L.start - 1] else d[b]
  {
    if k > 0 {
      FilledAt(L, d, data, k - 1, b);
    }
  }

  /** install_trans writes each home block from its log block ... */
  lemma {:induction false} InstalledIn(L: Layout, d: Disk, bs: seq<nat>, k: nat, i: nat)
    requires Fits(L, d) && HomeBlocks(L, d, bs) && i < k <= |bs|
    ensures Installed(L, d, bs, k)[bs[i]] == LogBlock(L, d, i)
  {
    if i == k - 1 {
      InstalledOut(L, d, bs, k - 1, L.start + k);
    } else {
      InstalledIn(L, d, bs, k - 1, i);
    }
  }

  /** ... and no other block. */
  lemma {:induction false} InstalledOut(L: Layout, d: Disk, bs: seq<nat>, k: nat, b: nat)
    requires Fits(L, d) && HomeBlocks(L, d, bs) && k <= |bs| && b < |d|
    requires forall i :: 0 <= i < k ==> bs[i] != b
    ensures Installed(L, d, bs, k)[b] == d[b]
  {
    if k > 0 {
      InstalledOut(L, d, bs, k - 1, b);
    }
  }

  lemma {:induction false} ApplyIn(d: Disk, bs: seq<nat>, data: seq<Block>, i: nat)
    requires |data| == |bs| && i < |bs| && forall i :: 0 <= i < |bs| ==> bs[i] < |d|
    requires forall i, j :: 0 <= i < j < |bs| ==> bs[i] != bs[j]
    ensures Apply(d, bs, data)[bs[i]] == data[i]
  {
    if i < |bs| - 1 {
      ApplyIn(d, bs[..|bs| - 1], data[..|bs| - 1], i);
    }
  }

  lemma {:induction false} ApplyOut(d: Disk, bs: seq<nat>, data: seq<Block>, b: nat)
    requires |data| == |bs| && forall i :: 0 <= i < |bs| ==> bs[i] < |d|
    requires b < |d| && b !in bs
    ensures Apply(d, bs, data)[b] == d[b]
  {
    if |bs| > 0 {
      assert bs[|bs| - 1] in bs;
      ApplyOut(d, bs[..|bs| - 1], data[..|bs| - 1], b);
    }
  }

  // ----- crash inside a recovery -----

  /** However far a recovery got before a crash, recovering again ends on the very
      same disk as an undisturbed recovery. */
  lemma CrashInRecovery(L: Layout, d: Disk, t: nat)
    requires Loggable(L, d) && t <= HeadCount(d[L.start]) + 1
    ensures Loggable(L, RecoveryDisk(L, d, t))
    ensures Recovered(L, RecoveryDisk(L, d, t)) == Recovered(L, d)
    ensures t == HeadCount(d[L.start]) + 1 ==> HeadCount(RecoveryDisk(L, d, t)[L.start]) == 0
  {
    var bs := HeadBlocks(d[L.start]);
    var r := RecoveryDisk(L, d, t);
    if t <= |bs| {
      forall b | 0 <= b < |d| && b !in bs ensures r[b] == d[b] {
        InstalledOut(L, d, bs, t, b);
      }
      ReplaySame(L, d, r, bs);
    } else {
      ClearedHead(L, Installed(L, d, bs, |bs|));
      ClearTwice(r[L.start], Installed(L, d, bs, |bs|)[L.start]);
    }
  }

  lemma ClearedHead(L: Layout, d: Disk)
    requires Fits(L, d)
    ensures Loggable(L, WithHead(L, d, [])) && HeadCount(WithHead(L, d, [])[L.start]) == 0
  {
    HeadRoundTrip(d[L.start], []);
  }

  lemma ClearTwice(h: Block, g: Block)
    requires h == EncodeHead(g, [], 0)
    ensures EncodeHead(h, [], 0) == h
  {
    var r := EncodeHead(h, [], 0);
    assert r.bytes == h.bytes;
  }

  /** Replaying the whole log over a partly replayed disk gives the full replay. */
  lemma ReplaySame(L: Layout, d: Disk, r: Disk, bs: seq<nat>)
    requires Fits(L, d) && HomeBlocks(L, d, bs) && |r| == |d|
    requires forall i :: 0 <= i < |bs| ==> LogBlock(L, r, i) == LogBlock(L, d, i)
    requires forall b :: 0 <= b < |d| && b !in bs ==> r[b] == d[b]
    ensures Installed(L, r, bs, |bs|) == Installed(L, d, bs, |bs|)
  {
    hide Installed, LogBlock;
    var x, y := Installed(L, r, bs, |bs|), Installed(L, d, bs, |bs|);
    forall b | 0 <= b < |d| ensures x[b] == y[b] {
      if b in bs {
        var i :| 0 <= i < |bs| && bs[i] == b;
        InstalledIn(L, d, bs, |bs|, i);
        InstalledIn(L, r, bs, |bs|, i);
      } else {
        InstalledOut(L, d, bs, |bs|, b);
        InstalledOut(L, r, bs, |bs|, b);
      }
    }
  }

  // ----- crash inside a commit -----

  /** A crash after any t writes of commit recovers to all-old home blocks while the
      header has not been written (t <= n), and to all-new ones from then on. */
  lemma CrashInCommit(L: Layout, d: Disk, bs: seq<nat>, data: seq<Block>, t: nat)
    requires Loggable(L, d) && HeadCount(d[L.start]) == 0
    requires HomeBlocks(L, d, bs) && |data| == |bs| && t <= 2 * |bs| + 2
    ensures Loggable(L, CommitDisk(L, d, bs, data, t))
    ensures SameHome(L, Recovered(L, CommitDisk(L, d, bs, data, t)),
                     if t <= |bs| then d else Apply(d, bs, data))
    ensures t == 2 * |bs| + 2 ==> HeadCount(CommitDisk(L, d, bs, data, t)[L.start]) == 0
  {
    var n := |bs|;
    var c := CommitDisk(L, d, bs, data, t);
    if t <= n {
      forall b | 0 <= b < |d| ensures c[b] == if L.start < b <= L.start + t then data[b - L.start - 1] else d[b] {
        FilledAt(L, d, data, t, b);
      }
      assert c[L.start] == d[L.start];
      assert HeadBlocks(c[L.start]) == [];
      assert Installed(L, c, [], 0) == c;
    } else {
      var f := Filled(L, d, data, n);
      var h := WithHead(L, f, bs);
      CommittedHead(L, d, bs, data, f, h);
      CrashAfterHead(L, d, bs, data, h, t);
    }
  }

  lemma FilledLog(L: Layout, d: Disk, data: seq<Block>, f: Disk)
    requires Fits(L, d) && |data| <= L.Capacity() && f == Filled(L, d, data, |data|)
    ensures SameHome(L, f, d)
    ensures forall i :: 0 <= i < |data| ==> LogBlock(L, f, i) == data[i]
  {
    forall b | 0 <= b < |d| && !L.InLog(b) ensures f[b] == d[b] {
      FilledAt(L, d, data, |data|, b);
    }
    forall i | 0 <= i < |data| ensures LogBlock(L, f, i) == data[i] {
      FilledAt(L, d, data, |data|, L.start + i + 1);
    }
  }

  /** The disk just after the header write: the log names bs and holds data. */
  lemma CommittedHead(L: Layout, d: Disk, bs: seq<nat>, data: seq<Block>, f: Disk, h: Disk)
    requires Fits(L, d) && HomeBlocks(L, d, bs) && |data| == |bs|
    requires f == Filled(L, d, data, |data|) && h == WithHead(L, f, bs)
    ensures Loggable(L, h) && HeadBlocks(h[L.start]) == bs
    ensures SameHome(L, h, d)
    ensures forall i :: 0 <= i < |bs| ==> LogBlock(L, h, i) == data[i]
  {
    FilledLog(L, d, data, f);
    HeadRoundTrip(f[L.start], bs);
    hide EncodeHead, Filled, Word;
  }

  lemma CrashAfterHead(L: Layout, d: Disk, bs: seq<nat>, data: seq<Block>, h: Disk, t: nat)
    requires Loggable(L, d) && HomeBlocks(L, d, bs) && |data| == |bs| < t <= 2 * |bs| + 2
    requires h == WithHead(L, Filled(L, d, data, |bs|), bs)
    requires Loggable(L, h) && HeadBlocks(h[L.start]) == bs && SameHome(L, h, d)
    requires forall i :: 0 <= i < |bs| ==> LogBlock(L, h, i) == data[i]
    ensures Loggable(L, CommitDisk(L, d, bs, data, t))
    ensures SameHome(L, Recovered(L, CommitDisk(L, d, bs, data, t)), Apply(d, bs, data))
    ensures t == 2 * |bs| + 2 ==> HeadCount(CommitDisk(L, d, bs, data, t)[L.start]) == 0
  {
    assert CommitDisk(L, d, bs, data, t) == RecoveryDisk(L, h, t - |bs| - 1);
    CrashInRecovery(L, h, t - |bs| - 1);
    RecoveredIsApply(L, d, bs, data, h);
  }

  /** Recovering a committed log is the plain update. */
  lemma RecoveredIsApply(L: Layout, d: Disk, bs: seq<nat>, data: seq<Block>, h: Disk)
    requires Loggable(L, h) && HeadBlocks(h[L.start]) == bs && SameHome(L, h, d)
    requires HomeBlocks(L, d, bs) && |data| == |bs|
    requires forall i :: 0 <= i < |bs| ==> LogBlock(L, h, i) == data[i]
    ensures SameHome(L, Recovered(L, h), Apply(d, bs, data))
  {
    var full := Installed(L, h, bs, |bs|);
    var want := Apply(d, bs, data);
    forall b | 0 <= b < |d| && !L.InLog(b) ensures full[b] == want[b] {
      if b in bs {
        var i :| 0 <= i < |bs| && bs[i] == b;
        InstalledIn(L, h, bs, |bs|, i);
        ApplyIn(d, bs, data, i);
      } else {
        InstalledOut(L, h, bs, |bs|, b);
        ApplyOut(d, bs, data, b);
      }
    }
  }

  // ----- whole runs -----

  /** One episode of the disk's life.  The crash events stop after t writes. */
  datatype Event =
    | Commit(bs: seq<nat>, data: seq<Block>)
    | CommitCrash(bs: seq<nat>, data: seq<Block>, t: nat)
    | Recover
    | RecoverCrash(t: nat)

  /** Commits happen on a machine that has recovered; recoveries on one that has not. */
  predicate Enabled(L: Layout, d: Disk, up: bool, e: Event) {
    match e
    case Commit(bs, data) => up && CanCommit(L, d, bs, data)
    case CommitCrash(bs, data, t) => up && CanCommit(L, d, bs, data) && t <= 2 * |bs| + 2
    case Recover => !up
    case RecoverCrash(t) => !up && Fits(L, d) && t <= HeadCount(d[L.start]) + 1
  }

  /** In a run every disk is loggable, as CrashAtomicity says. */
  function After(L: Layout, d: Disk, up: bool, e: Event): (r: Disk)
    requires Enabled(L, d, up, e)
    ensures |r| == |d|
  {
    match e
    case Commit(bs, data) => CommitDisk(L, d, bs, data, 2 * |bs| + 2)
    case CommitCrash(bs, data, t) => CommitDisk(L, d, bs, data, t)
    case Recover => if Loggable(L, d) then Recovered(L, d) else d
    case RecoverCrash(t) => if Loggable(L, d) then RecoveryDisk(L, d, t) else d
  }

  predicate UpAfter(e: Event) { e.Commit? || e.Recover? }

  /** The disk a run may start with: its header is empty if the machine has recovered. */
  predicate Starts(L: Layout, d: Disk, up: bool) {
    Loggable(L, d) && (up ==> HeadCount(d[L.start]) == 0)
  }

  /** The disks a run passes through: each follows from the one before by an enabled event. */
  ghost predicate IsRun(L: Layout, disks: seq<Disk>, up: bool, es: seq<Event>) {
    && |disks| == |es| + 1
    && (|es| > 0 ==>
          && Enabled(L, disks[0], up, es[0])
          && disks[1] == After(L, disks[0], up, es[0])
          && IsRun(L, disks[1..], UpAfter(es[0]), es[1..]))
  }

  /** The plain block map after the groups that made it: a group survives a crash
      exactly when its header write happened. */
  ghost function Survivors(d: Disk, es: seq<Event>): (r: Disk)
    ensures |r| == |d|
    decreases |es|
  {
    if |es| == 0 then d
    else
      var e := es[0];
      if (e.Commit? || (e.CommitCrash? && e.t > |e.bs|))
         && |e.data| == |e.bs| && (forall i :: 0 <= i < |e.bs| ==> e.bs[i] < |d|)
      then Survivors(Apply(d, e.bs, e.data), es[1..])
      else Survivors(d, es[1..])
  }

  /** One episode: what recovery would show changes exactly by the surviving group. */
  lemma EventStep(L: Layout, d: Disk, up: bool, e: Event)
    requires Starts(L, d, up) && Enabled(L, d, up, e)
    ensures Starts(L, After(L, d, up, e), UpAfter(e))
    ensures (e.Commit? || e.CommitCrash?) ==>
              SameHome(L, Recovered(L, After(L, d, up, e)),
                       if e.Commit? || e.t > |e.bs| then Apply(Recovered(L, d), e.bs, e.data)
                       else Recovered(L, d))
    ensures (e.Recover? || e.RecoverCrash?) ==> Recovered(L, After(L, d, up, e)) == Recovered(L, d)
  {
    match e
    case Commit(bs, data) =>
      CommitStep(L, d, bs, data, 2 * |bs| + 2);
    case CommitCrash(bs, data, t) =>
      CommitStep(L, d, bs, data, t);
    case Recover =>
      CrashInRecovery(L, d, HeadCount(d[L.start]) + 1);
    case RecoverCrash(t) =>
      CrashInRecovery(L, d, t);
  }

  lemma CommitStep(L: Layout, d: Disk, bs: seq<nat>, data: seq<Block>, t: nat)
    requires Loggable(L, d) && HeadCount(d[L.start]) == 0
    requires HomeBlocks(L, d, bs) && |data| == |bs| && t <= 2 * |bs| + 2
    ensures Loggable(L, CommitDisk(L, d, bs, data, t))
    ensures SameHome(L, Recovered(L, CommitDisk(L, d, bs, data, t)),
                     if t <= |bs| then Recovered(L, d) else Apply(Recovered(L, d), bs, data))
    ensures t == 2 * |bs| + 2 ==> HeadCount(CommitDisk(L, d, bs, data, t)[L.start]) == 0
  {
    CrashInCommit(L, d, bs, data, t);
    assert HeadBlocks(d[L.start]) == [];
    assert SameHome(L, d, Recovered(L, d));
    SameHomeApply(L, d, Recovered(L, d), bs, data);
  }

  lemma SameHomeApply(L: Layout, d: Disk, e: Disk, bs: seq<nat>, data: seq<Block>)
    requires SameHome(L, d, e) && |data| == |bs| && HomeBlocks(L, d, bs)
    ensures SameHome(L, Apply(d, bs, data), Apply(e, bs, data))
  {
    var x, y := Apply(d, bs, data), Apply(e, bs, data);
    forall b | 0 <= b < |d| && !L.InLog(b) ensures x[b] == y[b] {
      if b in bs {
        var i :| 0 <= i < |bs| && bs[i] == b;
        ApplyIn(d, bs, data, i);
        ApplyIn(e, bs, data, i);
      } else {
        ApplyOut(d, bs, data, b);
        ApplyOut(e, bs, data, b);
      }
    }
  }

  lemma SameHomeRefl(L: Layout, d: Disk)
    ensures SameHome(L, d, d)
  {
  }

  lemma SameHomeTrans(L: Layout, a: Disk, b: Disk, c: Disk)
    requires SameHome(L, a, b) && SameHome(L, b, c)
    ensures SameHome(L, a, c)
  {
  }

  lemma {:induction false} SurvivorsCongruence(L: Layout, d: Disk, e: Disk, disks: seq<Disk>, up: bool, es: seq<Event>)
    requires IsRun(L, disks, up, es) && Starts(L, disks[0], up)
    requires SameHome(L, d, e) && |d| == |disks[0]|
    ensures SameHome(L, Survivors(d, es), Survivors(e, es))
    decreases |es|
  {
    if |es| > 0 {
      var f := es[0];
      EventStep(L, disks[0], up, f);
      if f.Commit? || f.CommitCrash? {
        assert HomeBlocks(L, d, f.bs);
        SameHomeApply(L, d, e, f.bs, f.data);
        SurvivorsCongruence(L, Apply(d, f.bs, f.data), Apply(e, f.bs, f.data), disks[1..], UpAfter(f), es[1..]);
      }
      SurvivorsCongruence(L, d, e, disks[1..], UpAfter(f), es[1..]);
    }
  }

  /** Crash atomicity over whole runs: in every run of commits, recoveries and crashes
      at any write of either, the disk recovery yields is the starting disk with
      exactly the surviving groups applied whole and in order. */
  lemma {:induction false} CrashAtomicity(L: Layout, disks: seq<Disk>, up: bool, es: seq<Event>)
    requires IsRun(L, disks, up, es) && Starts(L, disks[0], up)
    ensures Loggable(L, disks[|es|])
    ensures SameHome(L, Recovered(L, disks[|es|]), Survivors(Recovered(L, disks[0]), es))
    decreases |es|
  {
    hide RecoveryDisk, CommitDisk, Installed, HeadBlocks, Apply, SameHome;
    if |es| == 0 {
      SameHomeRefl(L, Recovered(L, disks[0]));
    } else {
      var d, e, rest := disks[0], es[0], disks[1..];
      EventStep(L, d, up, e);
      CrashAtomicity(L, rest, UpAfter(e), es[1..]);
      assert rest[|es| - 1] == disks[|es|];
      var next := if e.Commit? || (e.CommitCrash? && e.t > |e.bs|)
                  then Apply(Recovered(L, d), e.bs, e.data) else Recovered(L, d);
      assert Survivors(Recovered(L, d), es) == Survivors(next, es[1..]);
      SurvivorsCongruence(L, Recovered(L, rest[0]), next, rest, UpAfter(e), es[1..]);
      SameHomeTrans(L, Recovered(L, disks[|es|]), Survivors(Recovered(L, rest[0]), es[1..]), Survivors(next, es[1..]));
    }
  }
}
