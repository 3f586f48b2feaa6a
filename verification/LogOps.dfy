/** begin_op, end_op and log_write (kernel/log.c): when transactions open, what they log and
    when they commit.  `Sched` is the state under log.lock and `Step` its atomic steps by
    any number of processes; class `LogState` is the code. */
module LogOps {
  import opened Param
  import opened Counting

  /** log_write's effect on the header: a block already listed is absorbed. */
  function Absorb(lh: seq<nat>, b: nat): (r: seq<nat>) {
    if b in lh then lh else lh + [b]
  }

  // ----- the protocol -----

  /** A logged block, the operation that logged it, and how many commits came before. */
  datatype Logged = Logged(op: nat, block: nat, epoch: nat)

  /** An operation between begin_op and end_op: its number and the blocks it has logged. */
  datatype Op = Op(id: nat, wrote: set<nat>)

  /** `active` maps a process to its operation; `committer` is the process in commit;
      `history` and `epoch` remember what was logged and how many commits are done. */
  datatype Sched = Sched(outstanding: int, committing: bool, lh: seq<nat>,
                         active: map<nat, Op>, committer: Committer,
                         nextId: nat, epoch: nat, history: set<Logged>)

  datatype Committer = Nobody | Process(p: nat)

  const Boot := Sched(0, false, [], map[], Nobody, 0, 0, {})

  datatype Action =
    | Begin(p: nat)             // begin_op gets past its loop
    | Write(p: nat, b: nat)     // log_write of block b
    | End(p: nat)               // end_op up to its first release
    | Erase(p: nat)             // commit has finished and set lh.n to 0
    | Reopen(p: nat)            // end_op clears log.committing

  /** The test of begin_op's loop. */
  predicate MayBegin(outstanding: int, committing: bool, n: nat) {
    !committing && n + (outstanding + 1) * MAXOPBLOCKS <= LOGSIZE
  }

  /** A process does one thing at a time, and no operation logs more than MAXOPBLOCKS
      distinct blocks. */
  predicate Enabled(s: Sched, a: Action) {
    match a
    case Begin(p) => p !in s.active && s.committer != Process(p) && MayBegin(s.outstanding, s.committing, |s.lh|)
    case Write(p, b) => p in s.active && |s.active[p].wrote + {b}| <= MAXOPBLOCKS
    case End(p) => p in s.active
    case Erase(p) => s.committer == Process(p) && s.lh != []
    case Reopen(p) => s.committer == Process(p) && s.lh == []
  }

  function Step(s: Sched, a: Action): (t: Sched)
    requires Enabled(s, a)
  {
    match a
    case Begin(p) =>
      s.(outstanding := s.outstanding + 1, active := s.active[p := Op(s.nextId, {})], nextId := s.nextId + 1)
    case Write(p, b) =>
      var op := s.active[p];
      s.(lh := Absorb(s.lh, b), active := s.active[p := op.(wrote := op.wrote + {b})],
         history := s.history + {Logged(op.id, b, s.epoch)})
    case End(p) =>
      var t := s.(outstanding := s.outstanding - 1, active := s.active - {p});
      if t.outstanding == 0 then t.(committing := true, committer := Process(p)) else t
    case Erase(p) => s.(lh := [], epoch := s.epoch + 1)
    case Reopen(p) => s.(committing := false, committer := Nobody)
  }

  // ----- the invariant -----

  /** Log space reserved by open operations and not used yet. */
  ghost function Reserved(m: map<nat, Op>): (r: int)
    decreases |m|
  {
    if m == map[] then 0
    else
      var p :| p in m;
      assert |m - {p}| < |m| by { assert (m - {p}).Keys == m.Keys - {p}; assert |m.Keys - {p}| < |m.Keys|; }
      MAXOPBLOCKS - |m[p].wrote| + Reserved(m - {p})
  }

  lemma {:induction false} ReservedWithout(m: map<nat, Op>, p: nat)
    requires p in m
    ensures Reserved(m) == MAXOPBLOCKS - |m[p].wrote| + Reserved(m - {p})
    decreases |m|
  {
    var q :| q in m && Reserved(m) == MAXOPBLOCKS - |m[q].wrote| + Reserved(m - {q});
    if q != p {
      assert |m - {q}| < |m| by { assert (m - {q}).Keys == m.Keys - {q}; assert |m.Keys - {q}| < |m.Keys|; }
      ReservedWithout(m - {q}, p);
      assert |m - {p}| < |m| by { assert (m - {p}).Keys == m.Keys - {p}; assert |m.Keys - {p}| < |m.Keys|; }
      ReservedWithout(m - {p}, q);
      assert m - {q} - {p} == m - {p} - {q};
    }
  }

  lemma {:induction false} ReservedPositive(m: map<nat, Op>)
    requires forall p :: p in m ==> |m[p].wrote| <= MAXOPBLOCKS
    ensures Reserved(m) >= 0
    decreases |m|
  {
    if m != map[] {
      var p :| p in m && Reserved(m) == MAXOPBLOCKS - |m[p].wrote| + Reserved(m - {p});
      assert |m - {p}| < |m| by { assert (m - {p}).Keys == m.Keys - {p}; assert |m.Keys - {p}| < |m.Keys|; }
      ReservedPositive(m - {p});
    }
  }

  /** Space: what is logged and what is reserved fit the log. */
  ghost predicate Space(s: Sched) {
    && s.outstanding == |s.active|
    && |s.lh| + Reserved(s.active) <= LOGSIZE
    && (forall p :: p in s.active ==> |s.active[p].wrote| <= MAXOPBLOCKS)
    && (forall p, b :: p in s.active && b in s.active[p].wrote ==> b in s.lh)
  }

  /** Exclusion: a commit is under way exactly while `committing`, with no operation open. */
  ghost predicate Exclusion(s: Sched) {
    && (s.committing <==> s.committer.Process?)
    && (s.committing ==> s.active == map[])
  }

  /** The blocks logged since the last commit. */
  ghost function Group(s: Sched): (bs: set<nat>) {
    set h | h in s.history && h.epoch == s.epoch :: h.block
  }

  /** No operation logs in two epochs, and open operations belong to this one. */
  ghost predicate Epochs(s: Sched) {
    && (forall h :: h in s.history ==> h.op < s.nextId && h.epoch <= s.epoch)
    && (forall p :: p in s.active ==> s.active[p].id < s.nextId)
    && (forall p, h :: p in s.active && h in s.history && h.op == s.active[p].id ==> h.epoch == s.epoch)
    && (forall g, h :: g in s.history && h in s.history && g.op == h.op ==> g.epoch == h.epoch)
  }

  /** The log lists exactly the blocks of this epoch, once each. */
  ghost predicate Listed(s: Sched) {
    && (forall b :: b in s.lh <==> b in Group(s))
    && (forall i, j :: 0 <= i < j < |s.lh| ==> s.lh[i] != s.lh[j])
  }

  ghost predicate Inv(s: Sched) { Space(s) && Exclusion(s) && Epochs(s) && Listed(s) }

  lemma SpaceKept(s: Sched, a: Action)
    requires Space(s) && Exclusion(s) && Enabled(s, a)
    ensures Space(Step(s, a))
  {
    match a
    case Begin(p) => SpaceBegin(s, p);
    case Write(p, b) => SpaceWrite(s, p, b);
    case End(p) => SpaceEnd(s, p);
    case _ =>
  }

  /** What begin_op's test admits fits even if every open operation logs its full share. */
  lemma SpaceBegin(s: Sched, p: nat)
    requires Space(s) && Enabled(s, Begin(p))
    ensures Space(Step(s, Begin(p)))
  {
    var t := Step(s, Begin(p));
    ReservedWithout(t.active, p);
    assert t.active - {p} == s.active && t.active.Keys == s.active.Keys + {p};
    ReservedBound(s.active);
  }

  lemma SpaceEnd(s: Sched, p: nat)
    requires Space(s) && Enabled(s, End(p))
    ensures Space(Step(s, End(p)))
  {
    ReservedWithout(s.active, p);
    assert (s.active - {p}).Keys == s.active.Keys - {p};
  }

  /** A block new to the log was new to its operation, and used up one reserved slot. */
  lemma SpaceWrite(s: Sched, p: nat, b: nat)
    requires Space(s) && Enabled(s, Write(p, b))
    ensures Space(Step(s, Write(p, b)))
  {
    var t := Step(s, Write(p, b));
    ReservedWithout(s.active, p);
    ReservedWithout(t.active, p);
    assert t.active - {p} == s.active - {p};
    assert t.active.Keys == s.active.Keys;
    var w := s.active[p].wrote;
    assert b !in w ==> |w + {b}| == |w| + 1;
    assert b in w ==> w + {b} == w;
  }

  lemma {:induction false} ReservedBound(m: map<nat, Op>)
    ensures Reserved(m) <= MAXOPBLOCKS * |m|
    decreases |m|
  {
    if m != map[] {
      var p :| p in m && Reserved(m) == MAXOPBLOCKS - |m[p].wrote| + Reserved(m - {p});
      assert |m - {p}| == |m| - 1 by { assert (m - {p}).Keys == m.Keys - {p}; }
      ReservedBound(m - {p});
    }
  }

  lemma ExclusionKept(s: Sched, a: Action)
    requires Space(s) && Exclusion(s) && Enabled(s, a)
    ensures Exclusion(Step(s, a))
  {
    if a.End? {
      var left := s.active - {a.p};
      assert left.Keys == s.active.Keys - {a.p};
      assert |left.Keys| == 0 ==> left == map[];
    }
  }

  lemma EpochsKept(s: Sched, a: Action)
    requires Exclusion(s) && Epochs(s) && Enabled(s, a)
    ensures Epochs(Step(s, a))
  {
  }

  lemma ListedKept(s: Sched, a: Action)
    requires Epochs(s) && Listed(s) && Enabled(s, a)
    ensures Listed(Step(s, a))
  {
    if a.Write? {
      ListedWrite(s, a.p, a.b);
    } else {
      assert Group(Step(s, a)) == if a.Erase? then {} else Group(s);
    }
  }

  lemma ListedWrite(s: Sched, p: nat, b: nat)
    requires Listed(s) && Enabled(s, Write(p, b))
    ensures Listed(Step(s, Write(p, b)))
  {
    var t := Step(s, Write(p, b));
    assert Group(t) == Group(s) + {b} by { assert Logged(s.active[p].id, b, s.epoch) in t.history; }
  }

  lemma BootInv()
    ensures Inv(Boot)
  {
    assert Reserved(Boot.active) == 0 && Group(Boot) == {};
  }

  lemma InvKept(s: Sched, a: Action)
    requires Inv(s) && Enabled(s, a)
    ensures Inv(Step(s, a))
  {
    SpaceKept(s, a);
    ExclusionKept(s, a);
    EpochsKept(s, a);
    ListedKept(s, a);
  }

  // ----- whole runs -----

  ghost predicate IsRun(ss: seq<Sched>, acts: seq<Action>)
    ensures IsRun(ss, acts) ==> |ss| == |acts| + 1
  {
    && |ss| == |acts| + 1 && ss[0] == Boot
    && forall k :: 0 <= k < |acts| ==> Enabled(ss[k], acts[k]) && ss[k + 1] == Step(ss[k], acts[k])
  }

  lemma {:induction false} RunKeeps(ss: seq<Sched>, acts: seq<Action>, k: nat)
    requires IsRun(ss, acts) && k <= |acts|
    ensures Inv(ss[k])
  {
    if k > 0 {
      RunKeeps(ss, acts, k - 1);
      InvKept(ss[k - 1], acts[k - 1]);
    }
  }

  /** In every run: the log never outgrows LOGSIZE and lists no block twice; while a commit
      runs no operation is open; end_op never meets
      `committing` set, so its panic is unreachable; and log_write is only called inside
      an operation, so its "outside of trans" panic is too. */
  lemma CommitIsAlone(ss: seq<Sched>, acts: seq<Action>, k: nat)
    requires IsRun(ss, acts) && k <= |acts|
    ensures |ss[k].lh| <= LOGSIZE
    ensures forall i, j :: 0 <= i < j < |ss[k].lh| ==> ss[k].lh[i] != ss[k].lh[j]
    ensures ss[k].committing ==> ss[k].active == map[]
    ensures k < |acts| && acts[k].End? ==> !ss[k].committing && ss[k].outstanding >= 1
    ensures k < |acts| && acts[k].Write? ==> ss[k].outstanding >= 1
  {
    RunKeeps(ss, acts, k);
    ReservedPositive(ss[k].active);
    if k < |acts| && (acts[k].End? || acts[k].Write?) {
      assert acts[k].p in ss[k].active.Keys;
    }
  }

  /** In every run begin_op lets a process in exactly when nobody commits and the log has room for
      what is logged and a full share of ten blocks for every open operation and the new one. */
  lemma BeginEnters(ss: seq<Sched>, acts: seq<Action>, k: nat, p: nat)
    requires IsRun(ss, acts) && k <= |acts| && p !in ss[k].active && ss[k].committer != Process(p)
    ensures Enabled(ss[k], Begin(p)) <==> ss[k].committer == Nobody && |ss[k].lh| + 10 * (|ss[k].active| + 1) <= 30
  {
    RunKeeps(ss, acts, k);
  }

  /** In every run, when a commit erases the log its group is exactly the blocks logged
      since the previous one, by operations that have all ended and have logged nothing
      in any other group. */
  lemma GroupsAreWhole(ss: seq<Sched>, acts: seq<Action>, k: nat)
    requires IsRun(ss, acts) && k < |acts| && acts[k].Erase?
    ensures forall b :: b in ss[k].lh <==> b in Group(ss[k])
    ensures ss[k].active == map[]
    ensures forall g, h :: g in ss[k].history && h in ss[k].history && g.op == h.op ==> g.epoch == h.epoch
  {
    RunKeeps(ss, acts, k);
  }

  /** Some log_write of block b is among the first k steps, and no commit has ended since. */
  ghost predicate WrittenSince(acts: seq<Action>, k: nat, b: nat)
    requires k <= |acts|
  {
    exists j :: 0 <= j < k && WriteAt(acts, j, b) && forall i :: j < i < k ==> !acts[i].Erase?
  }

  ghost predicate WriteAt(acts: seq<Action>, j: nat, b: nat) { j < |acts| && acts[j].Write? && acts[j].b == b }

  lemma WrittenNext(acts: seq<Action>, k: nat, b: nat)
    requires k < |acts|
    ensures WrittenSince(acts, k + 1, b) <==>
            !acts[k].Erase? && (WriteAt(acts, k, b) || WrittenSince(acts, k, b))
  {
    if WrittenSince(acts, k, b) && !acts[k].Erase? {
      var j :| 0 <= j < k && WriteAt(acts, j, b) && forall i :: j < i < k ==> !acts[i].Erase?;
      assert WriteAt(acts, j, b) && forall i :: j < i < k + 1 ==> !acts[i].Erase?;
    }
    if WriteAt(acts, k, b) { assert WrittenSince(acts, k + 1, b); }
  }

  /** In every run the header lists exactly the blocks of the log_write calls made since the last
      commit. */
  lemma {:induction false} HeaderIsWrites(ss: seq<Sched>, acts: seq<Action>, k: nat)
    requires IsRun(ss, acts) && k <= |acts|
    ensures forall b :: b in ss[k].lh <==> WrittenSince(acts, k, b)
  {
    hide WrittenSince;
    if k == 0 {
      forall b ensures !WrittenSince(acts, 0, b) { NothingWritten(acts, b); }
    } else {
      HeaderIsWrites(ss, acts, k - 1);
      forall b ensures b in ss[k].lh <==> WrittenSince(acts, k, b) {
        WrittenNext(acts, k - 1, b);
        HeaderStep(ss[k - 1], acts[k - 1], b);
      }
    }
  }

  lemma NothingWritten(acts: seq<Action>, b: nat)
    ensures !WrittenSince(acts, 0, b)
  {
  }

  lemma HeaderStep(s: Sched, a: Action, b: nat)
    requires Enabled(s, a)
    ensures b in Step(s, a).lh <==> !a.Erase? && ((a.Write? && a.b == b) || b in s.lh)
  {
  }

  /** In every run no commit ends between a begin_op of process p and its end_op, so all its
      log_writes are in one group. */
  lemma {:induction false} OperationIsWhole(ss: seq<Sched>, acts: seq<Action>, i: nat, j: nat, p: nat)
    requires IsRun(ss, acts) && i < j <= |acts| && acts[i] == Begin(p)
    requires forall m :: i < m < j ==> acts[m] != End(p)
    ensures p in ss[j].active && forall m :: i <= m < j ==> !acts[m].Erase?
    decreases j
  {
    if j == i + 1 {
      assert ss[j] == Step(ss[i], acts[i]);
    } else {
      OperationIsWhole(ss, acts, i, j - 1, p);
      RunKeeps(ss, acts, j - 1);
    }
  }

  /** The end_op that leaves no operation open, and no other, starts a commit. */
  lemma LastEndCommits(ss: seq<Sched>, acts: seq<Action>, k: nat, p: nat)
    requires IsRun(ss, acts) && k < |acts| && acts[k] == End(p)
    ensures ss[k + 1].committer == if ss[k].active.Keys == {p} then Process(p) else Nobody
  {
    RunKeeps(ss, acts, k);
    var a := ss[k].active.Keys;
    assert (ss[k].active - {p}).Keys == a - {p};
    assert |a - {p}| == |a| - 1;
    if |a| == 1 { assert a - {p} == {}; assert a == {p}; }
  }

  /** Three operations open, the first j blocks logged, ten to each operation. */
  ghost predicate Filling(s: Sched, j: nat)
    ensures Filling(s, j) ==> |s.lh| == j
  {
    && |s.lh| == j && (forall i :: 0 <= i < j ==> s.lh[i] == i)
    && (forall p: nat :: p in s.active <==> p < 3)
    && (forall p, b :: p in s.active && b in s.active[p].wrote ==> b < j && b / 10 == p)
  }

  lemma DecadeSize(w: set<nat>, p: nat, n: nat)
    requires n == 10 && forall b :: b in w ==> b / 10 == p
    ensures |w| <= n
  {
    SpanSize(10 * p, n);
    SubsetCount(w, Span(10 * p, n));
  }

  lemma FillStep(s: Sched, b: nat)
    requires Filling(s, b) && b < LOGSIZE
    ensures Enabled(s, Write(b / 10, b)) && Filling(Step(s, Write(b / 10, b)), b + 1)
  {
    DecadeSize(s.active[b / 10].wrote + {b}, b / 10, 10);
  }

  lemma RunExtends(ss: seq<Sched>, acts: seq<Action>, a: Action)
    requires IsRun(ss, acts) && Enabled(ss[|acts|], a)
    ensures IsRun(ss + [Step(ss[|acts|], a)], acts + [a])
  {
  }

  lemma OpenThree() returns (ss: seq<Sched>, acts: seq<Action>)
    ensures IsRun(ss, acts) && Filling(ss[|acts|], 0)
  {
    ss, acts := [Boot], [];
    for p := 0 to 3
      invariant IsRun(ss, acts) && |acts| == p
      invariant var s := ss[p];
                s.outstanding == p && !s.committing && s.lh == [] && s.committer == Nobody
                && (forall q: nat :: q in s.active <==> q < p)
                && (forall q :: q in s.active ==> s.active[q].wrote == {})
    {
      RunExtends(ss, acts, Begin(p));
      ss, acts := ss + [Step(ss[|acts|], Begin(p))], acts + [Begin(p)];
    }
  }

  /** The bound is reached: some run logs LOGSIZE blocks, filling the log to the last slot. */
  lemma {:induction false} FullLogReachable(j: nat) returns (ss: seq<Sched>, acts: seq<Action>)
    requires j <= LOGSIZE
    ensures IsRun(ss, acts) && Filling(ss[|acts|], j)
  {
    hide IsRun, Filling, Enabled, Step;
    if j == 0 {
      ss, acts := OpenThree();
    } else {
      ss, acts := FullLogReachable(j - 1);
      var a := Write((j - 1) / 10, j - 1);
      FillStep(ss[|acts|], j - 1);
      RunExtends(ss, acts, a);
      ss, acts := ss + [Step(ss[|acts|], a)], acts + [a];
    }
  }

  /** A full log panics log_write even for a block that needs no new slot: some run fills the
      log, and there the operation that logged block 0 may log it again. */
  lemma FullLogPanics() returns (ss: seq<Sched>, acts: seq<Action>)
    ensures IsRun(ss, acts) && Enabled(ss[|acts|], Write(0, 0))
    ensures 0 in ss[|acts|].lh && |ss[|acts|].lh| >= LOGSIZE
  {
    hide IsRun, Step;
    ss, acts := FullLogReachable(LOGSIZE);
    var s := ss[|acts|];
    assert s.lh[0] == 0;
    DecadeSize(s.active[0].wrote + {0}, 0, 10);
  }

  // ----- the code -----

  class LogState {
    const size: nat          // log.size
    const block: array<nat>  // log.lh.block
    var n: nat               // log.lh.n
    var outstanding: int
    var committing: bool
    /** The protocol state this stands for, with who has which operation open. */
    ghost var st: Sched

    ghost predicate Valid()
      reads this, block
    {
      && block.Length == LOGSIZE && n <= LOGSIZE
      && st.outstanding == outstanding && st.committing == committing && st.lh == block[..n]
    }

    constructor (size: nat)
      ensures Valid() && this.size == size && st == Boot && fresh(block)
    {
      this.size, n, outstanding, committing, st := size, 0, 0, false, Boot;
      block := new nat[LOGSIZE](_ => 0);
    }

    /** One pass of begin_op's loop by process p; false means it sleeps. */
    method BeginOp(ghost p: nat) returns (entered: bool)
      requires Valid() && p !in st.active && st.committer != Process(p)
      modifies this`outstanding, this`st
      ensures Valid() && (entered <==> Enabled(old(st), Begin(p)))
      ensures entered <==> !old(committing) && |old(st.lh)| + 10 * old(outstanding) + 10 <= 30
      ensures st == if entered then Step(old(st), Begin(p)) else old(st)
    {
      if committing {
        entered := false;
      } else if n + (outstanding + 1) * MAXOPBLOCKS > LOGSIZE {
        entered := false;
      } else {
        outstanding := outstanding + 1;
        entered := true;
        st := Step(st, Begin(p));
      }
    }

    /** end_op by process p up to its first release. */
    method EndOp(ghost p: nat) returns (panic: bool, doCommit: bool)
      requires Valid() && p in st.active
      modifies this`outstanding, this`committing, this`st
      ensures panic == old(committing) && outstanding == old(outstanding) - 1
      ensures !panic ==> Valid() && st == Step(old(st), End(p)) && (doCommit <==> st.committing)
      ensures !panic ==> (doCommit <==> old(outstanding) == 1)
    {
      doCommit := false;
      outstanding := outstanding - 1;
      if committing { return true, false; }
      panic := false;
      if outstanding == 0 {
        doCommit := true;
        committing := true;
      }
      st := Step(st, End(p));
    }

    /** log_write by process p: the block joins the header, once.  The tests for a full log
        come before absorption, so they fire for a block already listed too. */
    method LogWrite(ghost p: nat, blockno: nat) returns (panic: bool, pinned: bool)
      requires Valid() && Enabled(st, Write(p, blockno))
      modifies block, this`n, this`st
      ensures Valid()
      ensures panic <==> |old(st.lh)| >= LOGSIZE || |old(st.lh)| >= size - 1 || outstanding < 1
      ensures panic ==> st == old(st) && !pinned
      ensures !panic ==> st == Step(old(st), Write(p, blockno)) && pinned == (blockno !in old(st.lh))
    {
      if n >= LOGSIZE || n >= size - 1 { return true, false; }
      if outstanding < 1 { return true, false; }
      panic, pinned := false, false;
      var i := 0;
      while i < n && block[i] != blockno
        invariant 0 <= i <= n && blockno !in block[..i]
      {
        i := i + 1;
      }
      block[i] := blockno;
      if i == n {
        pinned := true;
        n := n + 1;
        assert block[..n] == old(block[..n]) + [blockno];
      } else {
        assert old(block[..n])[i] == blockno;
        assert block[..n] == old(block[..n]);
      }
      st := Step(st, Write(p, blockno));
    }

    /** commit's last assignment to the header in memory. */
    method Erase(ghost p: nat)
      requires Valid() && Enabled(st, Action.Erase(p))
      modifies this`n, this`st
      ensures Valid() && st == Step(old(st), Action.Erase(p))
    {
      n := 0;
      st := Step(st, Action.Erase(p));
    }

    /** end_op after commit. */
    method Reopen(ghost p: nat)
      requires Valid() && Enabled(st, Action.Reopen(p))
      modifies this`committing, this`st
      ensures Valid() && st == Step(old(st), Action.Reopen(p))
    {
      committing := false;
      st := Step(st, Action.Reopen(p));
    }
  }
}
