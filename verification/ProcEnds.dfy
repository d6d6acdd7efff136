/** The loops of exit, wait and fork end, and whoever has ptable.lock gives it up. */
module ProcEnds {
  import opened Proc

  function Left(i: nat, n: nat): nat {
    if i < n then n - i else 0
  }

  /** What passing on k more children can take: each may need a wakeup1 over the table of n. */
  function Passing(k: nat, n: nat): nat {
    if k == 0 then 0 else Passing(k - 1, n) + n + 3
  }

  /** How many of its own steps a process can still take until it is out of its call, or switched out. */
  function Rank(p: Pc, n: nat): nat {
    match p
    case ExitWake(i) => Passing(n, n) + 4 + Left(i, n)
    case ExitPass(i) => Passing(Left(i, n), n) + 3
    case ExitWakeInit(i, j) => Passing(Left(i + 1, n), n) + 4 + Left(j, n)
    case ExitZombie => 2
    case WaitScan(i, _) => 2 + Left(i, n)
    case ForkScan(i) => 6 + Left(i, n)
    case ForkStack(_) => 5
    case ForkCopy(_) => 4
    case ForkParent(_) => 3
    case ForkLock(_) => 2
    case ForkReady(_) => 1
    case Leave(_) => 1
    case Back(_) => n + 3
    case _ => 0
  }

  lemma ExitRanks(s: State, t: nat)
    requires Shape(s) && t < |s.st| && InExit(s.pc[t])
    ensures Rank(DoExit(s, t).pc[t], |s.st|) < Rank(s.pc[t], |s.st|)
  {
    var n := |s.st|;
    if s.pc[t].ExitPass? && s.pc[t].i < n {
      var i := s.pc[t].i;
      assert Passing(Left(i, n), n) == Passing(Left(i + 1, n), n) + n + 3;
    }
    hide Passing;
  }

  lemma ForkRanks(s: State, t: nat, ok: bool)
    requires Enabled(s, Go(t, ok)) && InFork(s.pc[t])
    ensures Rank(DoFork(s, t, ok).pc[t], |s.st|) < Rank(s.pc[t], |s.st|)
  {
    hide Passing;
    var n, s' := |s.st|, DoFork(s, t, ok);
    match s.pc[t]
    case ForkScan(_) => assert Rank(s'.pc[t], n) < Rank(s.pc[t], n);
    case ForkStack(_) | ForkCopy(_) => assert Rank(s'.pc[t], n) < Rank(s.pc[t], n);
    case ForkParent(_) | ForkLock(_) | ForkReady(_) => assert Rank(s'.pc[t], n) < Rank(s.pc[t], n);
    case _ =>
  }

  lemma WaitRanks(s: State, t: nat)
    requires Shape(s) && t < |s.st| && s.pc[t].WaitScan?
    ensures Rank(DoWait(s, t).pc[t], |s.st|) < Rank(s.pc[t], |s.st|)
  {
    hide Passing;
  }

  lemma SwitchRanks(s: State, t: nat)
    requires Shape(s) && t < |s.st| && (s.pc[t].Leave? || s.pc[t].Back?)
    ensures Rank(DoSwitch(s, t).pc[t], |s.st|) < Rank(s.pc[t], |s.st|)
  {
    hide Passing;
  }

  lemma GoRanks(s: State, t: nat, ok: bool)
    requires Enabled(s, Go(t, ok))
    ensures t < |Do(s, Go(t, ok)).pc| && Rank(Do(s, Go(t, ok)).pc[t], |s.st|) < Rank(s.pc[t], |s.st|)
  {
    hide Rank, DoExit, DoWait, DoFork, DoSwitch;
    if InExit(s.pc[t]) {
      ExitRanks(s, t);
    } else if s.pc[t].WaitScan? {
      WaitRanks(s, t);
    } else if InFork(s.pc[t]) {
      ForkRanks(s, t, ok);
    } else {
      SwitchRanks(s, t);
    }
    GoSize(s, t, ok);
  }

  lemma GoSize(s: State, t: nat, ok: bool)
    requires Enabled(s, Go(t, ok))
    ensures |Do(s, Go(t, ok)).pc| == |s.pc|
  {}

  // ---- ptable.lock ----

  /** Process t alone takes k steps, with ptable.lock, and gets to end. */
  ghost predicate Alone(s: State, t: nat, k: nat, end: State)
    decreases k
  {
    if k == 0 then s == end
    else s.lock == t && Enabled(s, Go(t, true)) && Alone(Do(s, Go(t, true)), t, k - 1, end)
  }

  lemma HolderGoes(s: State, t: nat)
    requires Inv(s) && t < |s.st| && s.lock == t
    ensures Enabled(s, Go(t, true)) && Inv(Do(s, Go(t, true))) && |Do(s, Go(t, true)).st| == |s.st|
    ensures Do(s, Go(t, true)).lock in {t, FREE, SCHEDULER}
  {
    assert LockOk(s, t) && ForkOk(s, t);
    StepKeeps(s, Go(t, true));
    hide Inv;
  }

  lemma {:induction false} Releases(s: State, t: nat) returns (k: nat, end: State)
    requires Inv(s) && t < |s.st| && s.lock == t
    ensures k <= Rank(s.pc[t], |s.st|) && Alone(s, t, k, end) && (end.lock == FREE || end.lock == SCHEDULER) && Inv(end)
    decreases Rank(s.pc[t], |s.st|)
  {
    hide Inv, Do, Enabled, Rank;
    HolderGoes(s, t);
    GoRanks(s, t, true);
    var m := Do(s, Go(t, true));
    if m.lock == t {
      k, end := Releases(m, t);
      k := k + 1;
    } else {
      k, end := 1, m;
      assert Alone(m, t, 0, end);
    }
  }

  lemma SchedulerDrops(s: State)
    requires Inv(s) && s.lock == SCHEDULER
    ensures Enabled(s, DropLock) && Do(s, DropLock).lock == FREE
  {}

  /** In every run ptable.lock comes free: whoever has it gives it up, perhaps to the scheduler, by steps of its own
      that nothing stops, and the scheduler drops it. */
  lemma LockComesFree(run: seq<State>, events: seq<Event>, n: nat, t: nat) returns (k: nat, end: State)
    requires Run(run, events) && n < |run| && t < |run[n].st| && (run[n].lock == t || run[n].lock == SCHEDULER)
    ensures t < |run[n].pc| && k <= Rank(run[n].pc[t], |run[n].st|) && Alone(run[n], t, k, end)
    ensures end.lock == FREE
            || (end.lock == SCHEDULER && Enabled(end, DropLock) && Do(end, DropLock).lock == FREE)
  {
    RunKeeps(run, events, n);
    if run[n].lock == t {
      k, end := Releases(run[n], t);
    } else {
      k, end := 0, run[n];
    }
    hide Rank, Run, Do, Enabled;
    if end.lock == SCHEDULER {
      SchedulerDrops(end);
    }
  }

  // ---- calls ----

  function Goes(events: seq<Event>, b: nat, n: nat, t: nat): nat
    requires n <= |events|
  {
    if n <= b then 0
    else Goes(events, b, n - 1, t) + if events[n - 1].Go? && events[n - 1].t == t then 1 else 0
  }

  /** Others do not move a process that is on its way. */
  lemma OthersStay(s: State, e: Event, t: nat)
    requires Inv(s) && Enabled(s, e) && t < |s.st| && Rank(s.pc[t], |s.st|) > 0 && !(e.Go? && e.t == t)
    ensures t < |Do(s, e).pc| && Do(s, e).pc[t] == s.pc[t]
  {
    hide PairOk, PidOk, HistoryOk, ListsOk, ParentOk, Passing;
    assert LockOk(s, t);
    if e.Go? {
      assert LockOk(s, e.t) && ForkOk(s, e.t);
      hide Inv;
      GoStays(s, e.t, e.ok, t);
    }
  }

  lemma GoStays(s: State, u: nat, ok: bool, t: nat)
    requires Enabled(s, Go(u, ok)) && t < |s.st| && u < |s.st| && u != t
    requires LockOk(s, t) && LockOk(s, u) && MakerOk(s, u) && Rank(s.pc[t], |s.st|) > 0
    ensures t < |Do(s, Go(u, ok)).pc| && Do(s, Go(u, ok)).pc[t] == s.pc[t]
  {
    hide Rank, LockOk, MakerOk, DoExit, DoWait, DoFork, DoSwitch;
    if InExit(s.pc[u]) {
      ExitStays(s, u, t);
    } else if s.pc[u].WaitScan? {
      WaitStays(s, u, t);
    } else if InFork(s.pc[u]) {
      ForkStays(s, u, ok, t);
    } else {
      SwitchStays(s, u, t);
    }
  }

  lemma ExitStays(s: State, u: nat, t: nat)
    requires Shape(s) && t < |s.st| && u < |s.st| && u != t && InExit(s.pc[u])
    ensures t < |DoExit(s, u).pc| && DoExit(s, u).pc[t] == s.pc[t]
  {}

  lemma WaitStays(s: State, u: nat, t: nat)
    requires Shape(s) && t < |s.st| && u < |s.st| && u != t && s.pc[u].WaitScan? && LockOk(s, t) && LockOk(s, u)
    requires Rank(s.pc[t], |s.st|) > 0
    ensures t < |DoWait(s, u).pc| && DoWait(s, u).pc[t] == s.pc[t]
  {
    hide Passing;
  }

  lemma ForkStays(s: State, u: nat, ok: bool, t: nat)
    requires Enabled(s, Go(u, ok)) && t < |s.st| && u < |s.st| && u != t && InFork(s.pc[u])
    requires LockOk(s, t) && MakerOk(s, u) && Rank(s.pc[t], |s.st|) > 0
    ensures t < |DoFork(s, u, ok).pc| && DoFork(s, u, ok).pc[t] == s.pc[t]
  {
    hide Passing, HoldsLock;
  }

  lemma SwitchStays(s: State, u: nat, t: nat)
    requires Shape(s) && t < |s.st| && u < |s.st| && u != t && (s.pc[u].Leave? || s.pc[u].Back?)
    ensures t < |DoSwitch(s, u).pc| && DoSwitch(s, u).pc[t] == s.pc[t]
  {}

  /** In every run a process on its way through exit, wait or fork, or in or out of the scheduler, takes no more steps
      than its rank before it is out of the call or switched out, whatever others do in between. */
  lemma {:induction false} StepsBounded(run: seq<State>, events: seq<Event>, b: nat, n: nat, t: nat)
    requires Run(run, events) && b <= n < |run| && t < |run[0].st|
    requires forall j: nat :: b <= j < n && t < |run[j].pc| ==> Rank(run[j].pc[t], |run[0].st|) > 0
    ensures t < |run[b].pc| && t < |run[n].pc|
    ensures Goes(events, b, n, t) + Rank(run[n].pc[t], |run[0].st|) <= Rank(run[b].pc[t], |run[0].st|)
    decreases n
  {
    hide Inv, Do, Enabled, Rank;
    SameSize(run, events, n);
    if n > b {
      var m: nat := n - 1;
      StepsBounded(run, events, b, m, t);
      SameSize(run, events, m);
      assert StepAt(run, events, m);
      if events[m].Go? && events[m].t == t {
        GoRanks(run[m], t, events[m].ok);
      } else {
        OthersStay(run[m], events[m], t);
      }
    }
  }

  lemma {:induction false} SameSize(run: seq<State>, events: seq<Event>, n: nat)
    requires Run(run, events) && n < |run|
    ensures Inv(run[n]) && Shape(run[n]) && |run[n].st| == |run[0].st|
  {
    hide Inv, Do, Enabled;
    RunKeeps(run, events, n);
    InvShape(run[n]);
    if n > 0 {
      SameSize(run, events, n - 1);
      assert StepAt(run, events, n - 1);
      StepSize(run[n - 1], events[n - 1]);
    }
  }

  lemma InvShape(s: State)
    requires Inv(s)
    ensures Shape(s)
  {}

  lemma StepSize(s: State, e: Event)
    requires Enabled(s, e)
    ensures |Do(s, e).st| == |s.st|
  {}
}
