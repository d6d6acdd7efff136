/** sleep, wakeup and yield: who sleeps stays asleep until the wakeup or kill meant for it, and who yields until it is
    picked. */
module ProcSleep {
  import opened Proc

  predicate SleepsOn(s: State, t: nat, c: int) {
    t < |s.st| && t < |s.chan| && s.st[t] == Sleeping && s.chan[t] == c
  }

  /** What a step of another process, or of the scheduler, does to process t. */
  ghost predicate Leaves(s: State, e: Event, s': State, t: nat)
    requires Shape(s) && t < |s.st|
  {
    && t < |s'.st| == |s'.chan| == |s'.pc| == |s.st| && s'.chan[t] == s.chan[t]
    && (s'.st[t] == s.st[t] || e == Dispatch(t)
        || (s.st[t] == Sleeping && s'.st[t] == Runnable
            && (e == Kill(t) || e == Wakeup(s.chan[t]) || (e.Go? && s.chan[t] < |s.st|))))
  }

  lemma OthersDo(s: State, e: Event, t: nat)
    requires Inv(s) && Enabled(s, e) && t < |s.st| && !(e.Go? && e.t == t)
    requires s.st[t] == Sleeping || s.st[t] == Runnable
    ensures Leaves(s, e, Do(s, e), t)
  {
    hide PairOk, PidOk, HistoryOk, ListsOk, Leaves;
    assert LockOk(s, t);
    if e.Go? {
      assert LockOk(s, e.t) && ForkOk(s, e.t) && ParentOk(s, e.t);
      hide Inv, EmbryoOk;
      GoDoes(s, e, t);
    } else {
      hide Inv;
      CallDoes(s, e, t);
    }
  }

  lemma CallDoes(s: State, e: Event, t: nat)
    requires Enabled(s, e) && t < |s.st| && LockOk(s, t) && !e.Go? && (s.st[t] == Sleeping || s.st[t] == Runnable)
    ensures Leaves(s, e, Do(s, e), t)
  {}

  lemma GoDoes(s: State, e: Event, t: nat)
    requires Enabled(s, e) && e.Go? && t < |s.st| && e.t < |s.st| && e.t != t && MakerOk(s, e.t) && ParentOk(s, e.t)
    requires s.st[t] == Sleeping || s.st[t] == Runnable
    ensures Leaves(s, e, Do(s, e), t)
  {
    if InFork(s.pc[e.t]) {
      hide DoFork;
      ForkDoes(s, e.t, e.ok, t);
    } else if InExit(s.pc[e.t]) {
      hide DoExit;
      ExitDoes(s, e.t, t);
    }
  }

  lemma ForkDoes(s: State, u: nat, ok: bool, t: nat)
    requires Enabled(s, Go(u, ok)) && InFork(s.pc[u]) && t < |s.st| && u != t && MakerOk(s, u)
    requires s.st[t] == Sleeping || s.st[t] == Runnable
    ensures var s' := DoFork(s, u, ok);
            t < |s'.st| == |s'.chan| == |s'.pc| == |s.st| && s'.chan[t] == s.chan[t] && s'.st[t] == s.st[t]
  {
    var s' := DoFork(s, u, ok);
    match s.pc[u]
    case ForkScan(_) => assert s'.st[t] == s.st[t];
    case ForkStack(_) | ForkCopy(_) => assert s'.st[t] == s.st[t];
    case ForkParent(_) | ForkLock(_) | ForkReady(_) => assert s'.st[t] == s.st[t];
    case _ =>
  }

  lemma ExitDoes(s: State, u: nat, t: nat)
    requires Shape(s) && u < |s.st| && InExit(s.pc[u]) && t < |s.st| && u != t && ParentOk(s, u)
    ensures var s' := DoExit(s, u);
            && t < |s'.st| == |s'.chan| == |s'.pc| == |s.st| && s'.chan[t] == s.chan[t]
            && (s'.st[t] == s.st[t] || (s.st[t] == Sleeping && s'.st[t] == Runnable && s.chan[t] < |s.st|))
  {}

  lemma OwnDoes(s: State, t: nat, ok: bool)
    requires Inv(s) && Enabled(s, Go(t, ok)) && (s.st[t] == Sleeping || s.st[t] == Runnable)
    ensures var s' := Do(s, Go(t, ok)); s'.st == s.st && s'.chan == s.chan
  {
    assert LockOk(s, t);
    hide Inv;
  }

  /** In every run a process that called sleep on c is asleep on c until somebody wakes c or kills the process. */
  lemma {:induction false} SleepsUntil(run: seq<State>, events: seq<Event>, b: nat, n: nat, t: nat, c: int)
    requires Run(run, events) && b < n < |run| && events[b] == Sleep(t, c)
    requires forall j: nat :: b < j < n ==> events[j] != Wakeup(c) && events[j] != Kill(t)
    ensures SleepsOn(run[n], t, c) && c >= |run[n].st|
  {
    hide Inv, Do, Enabled;
    var m: nat := n - 1;
    RunKeeps(run, events, m);
    assert StepAt(run, events, m);
    if m == b {
      FallsAsleep(run[b], t, c);
    } else {
      SleepsUntil(run, events, b, m, t, c);
      NotDispatched(run[m], events[m], t);
      if events[m].Go? && events[m].t == t {
        OwnDoes(run[m], t, events[m].ok);
      } else {
        OthersDo(run[m], events[m], t);
      }
    }
  }

  lemma FallsAsleep(s: State, t: nat, c: int)
    requires Enabled(s, Sleep(t, c))
    ensures SleepsOn(Do(s, Sleep(t, c)), t, c) && c >= |Do(s, Sleep(t, c)).st|
  {}

  lemma NotDispatched(s: State, e: Event, t: nat)
    requires Enabled(s, e) && t < |s.st| && s.st[t] == Sleeping
    ensures e != Dispatch(t)
  {}

  /** wakeup wakes all who sleep on c and changes nobody else. */
  lemma WakesAll(run: seq<State>, events: seq<Event>, i: nat, c: int, t: nat)
    requires Run(run, events) && i < |events| && events[i] == Wakeup(c) && t < |run[i].st|
    ensures t < |run[i + 1].st|
    ensures run[i + 1].st[t] == if SleepsOn(run[i], t, c) then Runnable else run[i].st[t]
  {
    assert StepAt(run, events, i);
  }

  /** In every run a process that yields stays ready to run until the scheduler picks it. */
  lemma {:induction false} YieldsUntil(run: seq<State>, events: seq<Event>, b: nat, n: nat, t: nat)
    requires Run(run, events) && b < n < |run| && events[b] == Yield(t)
    requires forall j: nat :: b < j < n ==> events[j] != Dispatch(t)
    ensures t < |run[n].st| && run[n].st[t] == Runnable
  {
    hide Inv, Do, Enabled;
    var m: nat := n - 1;
    RunKeeps(run, events, m);
    assert StepAt(run, events, m);
    if m == b {
      Yields(run[b], t);
    } else {
      YieldsUntil(run, events, b, m, t);
      if events[m].Go? && events[m].t == t {
        OwnDoes(run[m], t, events[m].ok);
      } else {
        OthersDo(run[m], events[m], t);
      }
    }
  }

  lemma Yields(s: State, t: nat)
    requires Enabled(s, Yield(t))
    ensures t < |Do(s, Yield(t)).st| && Do(s, Yield(t)).st[t] == Runnable
  {}

  // ---- channels ----

  /** Only a process that sleeps, or has been woken and has not gone on, has a channel. */
  predicate ChanOk(s: State, t: nat) {
    t < |s.chan| && t < |s.pc| && s.chan[t] != NONE ==>
      (s.pc[t].Leave? || s.pc[t].Away? || s.pc[t].Back?) && !s.pc[t].k.Never?
  }

  lemma ChanStep(s: State, e: Event, t: nat)
    requires Inv(s) && Enabled(s, e) && t < |s.st| && ChanOk(s, t)
    ensures ChanOk(Do(s, e), t)
  {
    hide PairOk, PidOk, HistoryOk, ListsOk, ParentOk;
    assert LockOk(s, t);
    if e.Go? {
      assert LockOk(s, e.t) && ForkOk(s, e.t);
      hide Inv, EmbryoOk;
      GoChan(s, e.t, e.ok, t);
    }
  }

  lemma GoChan(s: State, u: nat, ok: bool, t: nat)
    requires Enabled(s, Go(u, ok)) && u < |s.st| && t < |s.st| && ChanOk(s, t) && LockOk(s, t) && MakerOk(s, u)
    ensures ChanOk(Do(s, Go(u, ok)), t)
  {
    hide HoldsLock, DoFork, DoWait, DoExit, DoSwitch, ChanOk;
    if InFork(s.pc[u]) {
      ForkChan(s, u, ok, t);
    } else if InExit(s.pc[u]) {
      ExitChan(s, u, t);
    } else if s.pc[u].WaitScan? {
      WaitChan(s, u, t);
    } else {
      SwitchChan(s, u, t);
    }
  }

  lemma ForkChan(s: State, u: nat, ok: bool, t: nat)
    requires Enabled(s, Go(u, ok)) && InFork(s.pc[u]) && t < |s.st| && ChanOk(s, t) && MakerOk(s, u) && LockOk(s, t)
    ensures ChanOk(DoFork(s, u, ok), t)
  {
    hide HoldsLock;
    var s' := DoFork(s, u, ok);
    match s.pc[u]
    case ForkScan(_) | ForkStack(_) | ForkCopy(_) => assert ChanOk(s', t);
    case ForkParent(_) | ForkLock(_) | ForkReady(_) => assert ChanOk(s', t);
    case _ =>
  }

  lemma ExitChan(s: State, u: nat, t: nat)
    requires Shape(s) && u < |s.st| && InExit(s.pc[u]) && t < |s.st| && ChanOk(s, t)
    ensures ChanOk(DoExit(s, u), t)
  {}

  lemma WaitChan(s: State, u: nat, t: nat)
    requires Shape(s) && u < |s.st| && s.pc[u].WaitScan? && t < |s.st| && ChanOk(s, t) && LockOk(s, t)
    ensures ChanOk(DoWait(s, u), t)
  {
    hide HoldsLock;
  }

  lemma SwitchChan(s: State, u: nat, t: nat)
    requires Shape(s) && u < |s.st| && (s.pc[u].Leave? || s.pc[u].Back?) && t < |s.st| && ChanOk(s, t)
    ensures ChanOk(DoSwitch(s, u), t)
  {}

  /** In every run a process that goes on after a sleep has no channel any more. */
  lemma {:induction false} ChanClear(run: seq<State>, events: seq<Event>, n: nat, t: nat)
    requires Run(run, events) && n < |run|
    ensures ChanOk(run[n], t)
  {
    hide Inv, Do, Enabled;
    if n > 0 {
      ChanClear(run, events, n - 1, t);
      RunKeeps(run, events, n - 1);
      assert StepAt(run, events, n - 1);
      if t < |run[n - 1].st| {
        InvShape(run[n - 1]);
        ChanStep(run[n - 1], events[n - 1], t);
      } else {
        OutOfTable(run[n - 1], events[n - 1], t);
      }
    }
  }

  lemma InvShape(s: State)
    requires Inv(s)
    ensures Shape(s)
  {}

  lemma OutOfTable(s: State, e: Event, t: nat)
    requires Enabled(s, e) && t >= |s.st|
    ensures t >= |Do(s, e).chan|
  {}
}
