/** Whom kill() kills. It looks for a pid in every slot, free ones too, and allocproc does not clear the mark. */
module ProcKill {
  import opened Proc

  predicate Reaps(s: State, e: Event, t: nat)
    requires Shape(s) && t < |s.st|
  {
    && e.Go? && e.t < |s.st| && s.pc[e.t].WaitScan? && s.pc[e.t].i == t && s.parent[t] == e.t && s.st[t] == Zombie
  }

  predicate Allocates(s: State, e: Event, t: nat)
    requires Shape(s) && t < |s.st|
  {
    e.Go? && e.t < |s.st| && s.pc[e.t] == ForkScan(t) && s.st[t] == Unused
  }

  /** The mark of a slot: kill sets it and wait clears it. */
  lemma MarkStep(s: State, e: Event, t: nat)
    requires Enabled(s, e) && t < |s.st|
    ensures t < |Do(s, e).killed| && Do(s, e).killed[t] == (e == Kill(t) || (s.killed[t] && !Reaps(s, e, t)))
  {
    if e.Go? {
      if InExit(s.pc[e.t]) {
        assert Do(s, e).killed == s.killed;
      } else if InFork(s.pc[e.t]) {
        assert Do(s, e).killed == s.killed;
      }
    }
  }

  /** What a step does to a slot's pid. */
  ghost predicate PidMoves(s: State, e: Event, s': State, t: nat)
    requires Shape(s) && t < |s.st|
  {
    && Shape(s') && |s'.st| == |s.st| && s'.nextpid >= s.nextpid
    && (Allocates(s, e, t) ==> s'.st[t] != Unused && s'.pid[t] == s.nextpid && s'.nextpid == s.nextpid + 1)
    && (!Allocates(s, e, t) ==> (s'.st[t] != Unused ==> s.st[t] != Unused && s'.pid[t] == s.pid[t]))
    && (!Allocates(s, e, t) ==> s'.pid[t] == s.pid[t] || (s'.pid[t] == 0 && s'.st[t] == Unused))
    && (Reaps(s, e, t) ==> s'.st[t] == Unused && s'.pid[t] == 0)
  }

  lemma PidStep(s: State, e: Event, t: nat)
    requires Inv(s) && Enabled(s, e) && t < |s.st|
    ensures PidMoves(s, e, Do(s, e), t)
  {
    hide ForkOk, LockOk, ParentOk, PairOk, PidOk, HistoryOk, ListsOk, SameTable, Do, PidMoves;
    if Quiet(s, e) {
      QuietSlot(s, e, t);
      QuietPid(s, e, t);
    } else {
      assert LockOk(s, e.t) && ForkOk(s, e.t);
      if InFork(s.pc[e.t]) {
        ForkPid(s, e, t);
      } else {
        ExitPid(s, e, t);
      }
    }
  }

  lemma QuietPid(s: State, e: Event, t: nat)
    requires Enabled(s, e) && t < |s.st| && SameTable(s, Do(s, e)) && !Allocates(s, e, t) && !Reaps(s, e, t)
    ensures PidMoves(s, e, Do(s, e), t)
  {
    hide Do;
  }

  lemma ForkPid(s: State, e: Event, t: nat)
    requires Enabled(s, e) && !Quiet(s, e) && t < |s.st| && e.t < |s.st| && LockOk(s, e.t) && ForkOk(s, e.t)
    requires InFork(s.pc[e.t])
    ensures PidMoves(s, e, Do(s, e), t)
  {
    var s' := Do(s, e);
    match s.pc[e.t]
    case ForkScan(_) => assert PidMoves(s, e, s', t);
    case ForkStack(_) | ForkCopy(_) => assert PidMoves(s, e, s', t);
    case ForkParent(_) => assert PidMoves(s, e, s', t);
    case ForkReady(_) => assert PidMoves(s, e, s', t);
    case _ =>
  }

  lemma ExitPid(s: State, e: Event, t: nat)
    requires Enabled(s, e) && !Quiet(s, e) && t < |s.st| && e.t < |s.st| && LockOk(s, e.t) && !InFork(s.pc[e.t])
    ensures PidMoves(s, e, Do(s, e), t)
  {
    var s' := Do(s, e);
    match s.pc[e.t]
    case ExitPass(_) => assert PidMoves(s, e, s', t);
    case ExitZombie => assert PidMoves(s, e, s', t);
    case WaitScan(_, _) => assert PidMoves(s, e, s', t);
    case _ =>
  }

  lemma QuietSlot(s: State, e: Event, t: nat)
    requires Inv(s) && Enabled(s, e) && Quiet(s, e) && t < |s.st|
    ensures SameTable(s, Do(s, e)) && !Allocates(s, e, t) && !Reaps(s, e, t)
  {
    hide ForkOk, ParentOk, PairOk, PidOk, HistoryOk, ListsOk, SameTable, Do;
    if !e.Wakeup? && !e.TakeLock? && !e.DropLock? {
      assert LockOk(s, e.t);
    }
    QuietIs(s, e);
  }

  // ---- pids, abandoned ones too ----

  predicate PidAt(s: State, t: nat)
    requires Shape(s) && t < |s.st|
  {
    s.pid[t] < s.nextpid && (s.st[t] != Unused ==> s.pid[t] != 0)
  }

  predicate Apart(s: State, t: nat, u: nat)
    requires Shape(s) && t < |s.st| && u < |s.st|
  {
    t != u && s.pid[t] == s.pid[u] ==> s.pid[t] == 0
  }

  ghost predicate Pids(s: State) {
    && Shape(s) && s.nextpid > 0
    && (forall t: nat :: t < |s.st| ==> PidAt(s, t))
    && (forall t: nat, u: nat :: t < |s.st| && u < |s.st| ==> Apart(s, t, u))
  }

  lemma PidsStep(s: State, e: Event)
    requires Inv(s) && Pids(s) && Enabled(s, e)
    ensures Pids(Do(s, e)) && Do(s, e).nextpid >= s.nextpid
  {
    hide Inv, Do, Enabled;
    var s' := Do(s, e);
    PidStep(s, e, 0);
    forall t: nat | t < |s'.st| ensures PidAt(s', t) {
      PidStep(s, e, t);
      assert PidAt(s, t);
    }
    forall t: nat, u: nat | t < |s'.st| && u < |s'.st| ensures Apart(s', t, u) {
      PidStep(s, e, t);
      PidStep(s, e, u);
      assert PidAt(s, t) && PidAt(s, u) && Apart(s, t, u);
    }
  }

  lemma {:induction false} RunPids(run: seq<State>, events: seq<Event>, n: nat)
    requires Run(run, events) && n < |run|
    ensures Inv(run[n]) && Pids(run[n]) && |run[n].st| == |run[0].st|
    ensures forall j: nat :: j <= n ==> run[j].nextpid <= run[n].nextpid
  {
    hide Inv, Do, Enabled;
    RunKeeps(run, events, n);
    if n == 0 {
      assert Pids(run[0]);
    } else {
      hide Pids;
      RunPids(run, events, n - 1);
      assert StepAt(run, events, n - 1);
      PidsStep(run[n - 1], events[n - 1]);
      assert Shape(run[n - 1]) && |run[n - 1].st| > 0 by { PidsShape(run[n - 1]); }
      PidStep(run[n - 1], events[n - 1], 0);
    }
  }

  lemma PidsShape(s: State)
    requires Pids(s)
    ensures Shape(s) && |s.st| > 0
  {}

  /** A process in use is what kill() finds under its pid, and nothing else is. */
  lemma FoundByItsPid(run: seq<State>, events: seq<Event>, n: nat, t: nat, u: nat)
    requires Run(run, events) && n < |run| && t < |run[0].st| && u < |run[0].st|
    ensures Shape(run[n]) && |run[n].st| == |run[0].st|
    ensures run[n].st[t] != Unused ==> FoundFirst(run[n], t)
    ensures run[n].st[t] != Unused && run[n].pid[u] == run[n].pid[t] ==> u == t
  {
    hide Inv, Do, Enabled;
    RunPids(run, events, n);
    var s := run[n];
    assert PidAt(s, t) && Apart(s, u, t);
    if s.st[t] != Unused {
      forall v | 0 <= v < t ensures s.pid[v] != s.pid[t] {
        assert Apart(s, v, t);
      }
    }
  }

  /** A pid that wait() has returned is the pid of no slot. */
  ghost predicate Stale(s: State, k: nat) {
    k > 0 && k < s.nextpid && forall t: nat :: t < |s.pid| ==> s.pid[t] != k
  }

  lemma ReapedMoves(s: State, e: Event) returns (i: nat)
    requires Enabled(s, e)
    ensures Do(s, e).reaped == s.reaped
            || (i < |s.st| && Reaps(s, e, i) && Do(s, e).reaped == s.reaped + [s.pid[i]])
  {
    i := 0;
    if e.Go? && s.pc[e.t].WaitScan? {
      i := s.pc[e.t].i;
    }
  }

  lemma StaleStep(s: State, e: Event, k: nat)
    requires Inv(s) && Pids(s) && Enabled(s, e) && Stale(s, k)
    ensures Stale(Do(s, e), k)
  {
    hide Inv, Do, Enabled, Pids, Allocates, Reaps;
    PidsShape(s);
    var s' := Do(s, e);
    PidStep(s, e, 0);
    forall t: nat | t < |s'.pid| ensures s'.pid[t] != k {
      PidStep(s, e, t);
    }
  }

  lemma StaleNow(s: State, e: Event, i: nat)
    requires Inv(s) && Pids(s) && Enabled(s, e) && i < |s.st| && Reaps(s, e, i)
    ensures Stale(Do(s, e), s.pid[i])
  {
    var s' := Do(s, e);
    hide Inv, Do, Enabled;
    PidStep(s, e, i);
    assert PidAt(s, i);
    forall t: nat | t < |s'.pid| ensures s'.pid[t] != s.pid[i] {
      PidStep(s, e, t);
      assert Apart(s, t, i);
    }
  }

  /** In every run a pid that wait() has returned is gone: kill() of it finds nobody, and no process gets it again. */
  lemma {:induction false} ReapedGone(run: seq<State>, events: seq<Event>, n: nat, k: nat)
    requires Run(run, events) && n < |run| && k in run[n].reaped
    ensures Stale(run[n], k)
  {
    hide Inv, Do, Enabled, Pids, Stale;
    if n > 0 {
      RunPids(run, events, n - 1);
      assert StepAt(run, events, n - 1);
      var i := ReapedMoves(run[n - 1], events[n - 1]);
      if k in run[n - 1].reaped {
        ReapedGone(run, events, n - 1, k);
        StaleStep(run[n - 1], events[n - 1], k);
      } else {
        StaleNow(run[n - 1], events[n - 1], i);
      }
    }
  }

  // ---- who is killed ----

  /** Event j is kill() of the pid that slot t has at n. */
  predicate KilledAt(run: seq<State>, events: seq<Event>, j: nat, n: nat, t: nat) {
    && j < n < |run| && j < |events| && events[j] == Kill(t)
    && t < |run[j].pid| && t < |run[n].pid| && run[j].pid[t] == run[n].pid[t]
  }

  /** Event j made the process that slot t has at n, and the slot was marked already. */
  predicate BornAt(run: seq<State>, events: seq<Event>, j: nat, n: nat, t: nat) {
    && j < n < |run| && j < |events| && Shape(run[j]) && t < |run[j].st| && t < |run[n].pid| && t < |run[j + 1].pid|
    && Allocates(run[j], events[j], t) && run[j].killed[t] && run[j + 1].pid[t] == run[n].pid[t]
  }

  ghost predicate KilledByPid(run: seq<State>, events: seq<Event>, n: nat, t: nat) {
    exists j: nat :: KilledAt(run, events, j, n, t)
  }

  ghost predicate BornMarked(run: seq<State>, events: seq<Event>, n: nat, t: nat) {
    exists j: nat :: BornAt(run, events, j, n, t)
  }

  /** A process is marked exactly when somebody has called kill() with its pid, or fork took a slot for it that was
      marked while free. */
  lemma {:induction false} KilledIff(run: seq<State>, events: seq<Event>, n: nat, t: nat)
    requires Run(run, events) && n < |run| && t < |run[0].st|
    ensures Shape(run[n]) && |run[n].st| == |run[0].st|
    ensures run[n].st[t] != Unused ==>
              (run[n].killed[t] <==> KilledByPid(run, events, n, t) || BornMarked(run, events, n, t))
  {
    hide Inv, Do, Enabled, Pids;
    RunPids(run, events, n);
    PidsShape(run[n]);
    if n > 0 {
      KilledIff(run, events, n - 1, t);
      RunPids(run, events, n - 1);
      PidsShape(run[n - 1]);
      assert StepAt(run, events, n - 1);
      MarkStep(run[n - 1], events[n - 1], t);
      PidStep(run[n - 1], events[n - 1], t);
      if run[n].st[t] != Unused {
        if Allocates(run[n - 1], events[n - 1], t) {
          MadeNow(run, events, n, t);
        } else {
          MadeBefore(run, events, n, t);
        }
      }
    }
  }

  /** The pid is new: only the mark of the slot counts. */
  lemma MadeNow(run: seq<State>, events: seq<Event>, n: nat, t: nat)
    requires Run(run, events) && 0 < n < |run| && n <= |events| && t < |run[0].st|
    requires Shape(run[n - 1]) && t < |run[n - 1].st|
    requires Shape(run[n]) && t < |run[n].st|
    requires Allocates(run[n - 1], events[n - 1], t) && run[n].pid[t] == run[n - 1].nextpid
    requires run[n].killed[t] == run[n - 1].killed[t]
    ensures run[n].killed[t] <==> KilledByPid(run, events, n, t) || BornMarked(run, events, n, t)
  {
    hide Inv, Do, Enabled, Run;
    forall j: nat | j < n ensures t < |run[j].pid| ==> run[j].pid[t] != run[n].pid[t] {
      EarlierPid(run, events, j, n - 1, t);
    }
    forall j: nat ensures !KilledAt(run, events, j, n, t) {}
    forall j: nat ensures BornAt(run, events, j, n, t) ==> j == n - 1 {}
    if run[n].killed[t] {
      assert BornAt(run, events, n - 1, n, t);
    }
  }

  lemma EarlierPid(run: seq<State>, events: seq<Event>, j: nat, n: nat, t: nat)
    requires Run(run, events) && j <= n < |run| && t < |run[0].st|
    ensures t < |run[j].pid| && run[j].pid[t] < run[n].nextpid
  {
    hide Inv, Do, Enabled;
    RunPids(run, events, j);
    RunPids(run, events, n);
    assert PidAt(run[j], t);
  }

  /** The process was there before the step. */
  lemma MadeBefore(run: seq<State>, events: seq<Event>, n: nat, t: nat)
    requires 0 < n < |run| && n <= |events| && Shape(run[n - 1]) && Shape(run[n])
    requires t < |run[n - 1].st| && t < |run[n].st| && run[n].pid[t] == run[n - 1].pid[t]
    requires !Allocates(run[n - 1], events[n - 1], t)
    requires run[n].killed[t] == (events[n - 1] == Kill(t) || run[n - 1].killed[t])
    requires run[n - 1].killed[t] <==> KilledByPid(run, events, n - 1, t) || BornMarked(run, events, n - 1, t)
    ensures run[n].killed[t] <==> KilledByPid(run, events, n, t) || BornMarked(run, events, n, t)
  {
    hide Allocates;
    var m: nat := n - 1;
    if events[n - 1] == Kill(t) {
      assert KilledAt(run, events, n - 1, n, t);
    }
    forall j: nat ensures KilledAt(run, events, j, n, t) <==>
                            KilledAt(run, events, j, m, t) || (j == n - 1 && events[j] == Kill(t))
    {}
    forall j: nat ensures BornAt(run, events, j, n, t) <==> BornAt(run, events, j, m, t) {}
  }

  /** A process nobody has killed is born killed: kill(0) finds the free slot 1, and init forks into it. */
  lemma BornKilled(s: State)
    requires Init(s) && |s.st| == 2
    ensures var events := [Kill(1), TakeLock, Dispatch(0), Go(0, true), Fork(0), Go(0, true), Go(0, true)];
            exists run: seq<State> :: Run(run, events) && run[0] == s && run[0].pid[1] == 0
                          && Shape(run[7]) && |run[7].st| == 2
                          && run[7].st[1] == Embryo && run[7].pid[1] == 2 && run[7].killed[1]
  {
    var events := [Kill(1), TakeLock, Dispatch(0), Go(0, true), Fork(0), Go(0, true), Go(0, true)];
    var s1 := Do(s, events[0]);
    var s2 := Do(s1, events[1]);
    var s3 := Do(s2, events[2]);
    var s4 := Do(s3, events[3]);
    var s5 := Do(s4, events[4]);
    var s6 := Do(s5, events[5]);
    var run := [s, s1, s2, s3, s4, s5, s6, Do(s6, events[6])];
    hide Do, Enabled, Init;
    assert forall i: nat :: i < 7 ==> StepAt(run, events, i);
    assert Run(run, events);
  }
}
