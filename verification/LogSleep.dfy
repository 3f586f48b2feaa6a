/** Who sleeps in begin_op, and who wakes them (kernel/log.c): the transactions of LogOps with
    sleep(&log) and wakeup(&log). */
module LogSleep {
  import opened Param
  import opened S = LogOps

  /** `asleep` are the processes that sleep on &log. */
  datatype State = State(s: Sched, asleep: set<nat>)

  datatype Act =
    | Try(p: nat)              // begin_op's loop body, on the call or once awake
    | Log(p: nat, b: nat)      // log_write
    | Leave(p: nat)            // end_op up to its first release
    | Clear(p: nat)            // commit sets lh.n to 0
    | Open(p: nat)             // end_op after the commit

  ghost predicate Can(x: State, a: Act) {
    match a
    case Try(p) => p !in x.s.active && x.s.committer != Process(p) && p !in x.asleep
    case Log(p, b) => Enabled(x.s, Write(p, b))
    case Leave(p) => Enabled(x.s, End(p))
    case Clear(p) => Enabled(x.s, Erase(p))
    case Open(p) => Enabled(x.s, Reopen(p))
  }

  /** end_op wakes the sleepers unless it is the last operation's; the commit's end does. */
  ghost function Next(x: State, a: Act): (y: State)
    requires Can(x, a)
  {
    match a
    case Try(p) =>
      if MayBegin(x.s.outstanding, x.s.committing, |x.s.lh|) then x.(s := Step(x.s, Begin(p)))
      else x.(asleep := x.asleep + {p})
    case Log(p, b) => x.(s := Step(x.s, Write(p, b)))
    case Leave(p) =>
      var t := Step(x.s, End(p));
      State(t, if t.outstanding == 0 then x.asleep else {})
    case Clear(p) => x.(s := Step(x.s, Erase(p)))
    case Open(p) => State(Step(x.s, Reopen(p)), {})
  }

  /** Sleepers would still be sent to sleep, and a log at rest is empty. */
  ghost predicate Stable(x: State) {
    && S.Inv(x.s)
    && (x.asleep != {} ==> !MayBegin(x.s.outstanding, x.s.committing, |x.s.lh|))
    && (x.s.outstanding == 0 && !x.s.committing ==> x.s.lh == [])
  }

  lemma StepStable(x: State, a: Act)
    requires Stable(x) && Can(x, a)
    ensures Stable(Next(x, a))
  {
    match a
    case Try(p) =>
      if MayBegin(x.s.outstanding, x.s.committing, |x.s.lh|) { InvKept(x.s, Begin(p)); }
    case Log(p, b) =>
      InvKept(x.s, Write(p, b));
      assert p in x.s.active.Keys;
    case Leave(p) => InvKept(x.s, End(p));
    case Clear(p) => InvKept(x.s, Erase(p));
    case Open(p) => InvKept(x.s, Reopen(p));
  }

  ghost predicate IsRun(xs: seq<State>, acts: seq<Act>)
    ensures IsRun(xs, acts) ==> |xs| == |acts| + 1
  {
    && |xs| == |acts| + 1 && xs[0] == State(Boot, {})
    && forall k :: 0 <= k < |acts| ==> Can(xs[k], acts[k]) && xs[k + 1] == Next(xs[k], acts[k])
  }

  lemma {:induction false} RunStable(xs: seq<State>, acts: seq<Act>, k: nat)
    requires IsRun(xs, acts) && k <= |acts|
    ensures Stable(xs[k])
  {
    hide Stable, Can, Next;
    if k == 0 {
      BootStable();
    } else {
      RunStable(xs, acts, k - 1);
      StepStable(xs[k - 1], acts[k - 1]);
    }
  }

  lemma BootStable()
    ensures Stable(State(Boot, {}))
  {
    BootInv();
  }

  /** In every run no wakeup is lost: whoever sleeps in begin_op would fail its test again, and
      while somebody sleeps an operation is open or a commit runs, so an end_op that wakes
      the sleepers is still to come. */
  lemma NoneStranded(xs: seq<State>, acts: seq<Act>, k: nat)
    requires IsRun(xs, acts) && k <= |acts| && xs[k].asleep != {}
    ensures !MayBegin(xs[k].s.outstanding, xs[k].s.committing, |xs[k].s.lh|)
    ensures xs[k].s.committing || exists p :: p in xs[k].s.active
  {
    RunStable(xs, acts, k);
    var s := xs[k].s;
    if !s.committing && s.active == map[] { assert false; }
  }

  /** In every run, a process that begin_op does not let in sleeps, and it is woken by an end_op
      that leaves operations open or by the end of a commit, by nothing else, and by each. */
  lemma SleepsUntilWoken(xs: seq<State>, acts: seq<Act>, k: nat, p: nat)
    requires IsRun(xs, acts) && k < |acts|
    ensures acts[k] == Try(p) ==> (p in xs[k + 1].s.active <==> p !in xs[k + 1].asleep)
    ensures p in xs[k].asleep ==>
              (p !in xs[k + 1].asleep <==>
               acts[k].Open? || (acts[k].Leave? && xs[k].s.active.Keys != {acts[k].p}))
  {
    hide S.Inv;
    RunStable(xs, acts, k);
    var x := xs[k];
    if acts[k].Leave? { OthersOpen(x.s, acts[k].p); }
  }

  lemma OthersOpen(s: Sched, p: nat)
    requires S.Inv(s) && p in s.active
    ensures s.outstanding == 1 <==> s.active.Keys == {p}
  {
    var a := s.active.Keys;
    assert |a - {p}| == |a| - 1;
    if |a| == 1 { assert a - {p} == {}; assert a == {p}; }
  }
}
