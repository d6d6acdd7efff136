/** What wait() does, by the process table alone: whom it reaps, when it gives up and when it sleeps. */
module ProcWait {
  import opened Proc

  predicate IsChild(s: State, z: nat, t: nat) {
    z < |s.parent| && s.parent[z] == t
  }

  predicate ZombieChild(s: State, z: nat, t: nat) {
    IsChild(s, z, t) && z < |s.st| && s.st[z] == Zombie
  }

  ghost predicate HasChild(s: State, t: nat) {
    exists z: nat :: IsChild(s, z, t)
  }

  ghost predicate HasZombie(s: State, t: nat) {
    exists z: nat :: ZombieChild(s, z, t)
  }

  /** havekids is set only for a child that the scan has passed. */
  ghost predicate KidsAt(s: State, t: nat) {
    t < |s.pc| && s.pc[t].WaitScan? && s.pc[t].kids ==> exists z: nat :: z < s.pc[t].i && IsChild(s, z, t)
  }

  /** A scan has ptable.lock: others may go on making processes, and that is all. */
  lemma OthersLeave(s: State, e: Event, t: nat)
    requires Inv(s) && Enabled(s, e) && t < |s.st| && s.pc[t].WaitScan? && !(e.Go? && e.t == t)
    ensures Shape(Do(s, e)) && |Do(s, e).st| == |s.st| && Do(s, e).pc[t] == s.pc[t]
    ensures forall z: nat :: IsChild(s, z, t) ==> IsChild(Do(s, e), z, t)
  {
    hide PairOk, PidOk, HistoryOk, ListsOk, ParentOk;
    assert LockOk(s, t);
    if e.Go? {
      var u := e.t;
      assert LockOk(s, u) && ForkOk(s, u);
      hide Inv, EmbryoOk;
    }
  }

  lemma KidsStep(s: State, e: Event, t: nat)
    requires Inv(s) && Enabled(s, e) && t < |s.st| && KidsAt(s, t)
    ensures KidsAt(Do(s, e), t)
  {
    hide Inv;
    var s' := Do(s, e);
    if s.pc[t].WaitScan? && !(e.Go? && e.t == t) {
      hide Do, Enabled;
      OthersLeave(s, e, t);
    } else if e.Go? && e.t == t {
      OwnStep(s, t, e.ok);
    } else {
      OtherStarts(s, e, t);
    }
  }

  lemma OwnStep(s: State, t: nat, ok: bool)
    requires Enabled(s, Go(t, ok)) && t < |s.st| && KidsAt(s, t)
    ensures KidsAt(Do(s, Go(t, ok)), t)
  {
    var s' := Do(s, Go(t, ok));
    if s'.pc[t].WaitScan? && s'.pc[t].kids {
      assert s.pc[t].WaitScan?;
      var i := s.pc[t].i;
      if s.pc[t].kids {
        var z: nat :| z < i && IsChild(s, z, t);
        assert IsChild(s', z, t);
      } else {
        assert IsChild(s', i, t);
      }
    }
  }

  /** A scan starts without havekids. */
  lemma OtherStarts(s: State, e: Event, t: nat)
    requires Enabled(s, e) && t < |s.st| && !s.pc[t].WaitScan? && !(e.Go? && e.t == t)
    ensures t < |Do(s, e).pc| && Do(s, e).pc[t].WaitScan? ==> !Do(s, e).pc[t].kids
  {
    if e.Go? {
      OtherGoes(s, e.t, e.ok, t);
    }
  }

  lemma OtherGoes(s: State, u: nat, ok: bool, t: nat)
    requires Enabled(s, Go(u, ok)) && t < |s.st| && !s.pc[t].WaitScan? && u != t
    ensures t < |Do(s, Go(u, ok)).pc| && !Do(s, Go(u, ok)).pc[t].WaitScan?
  {
    var s' := Do(s, Go(u, ok));
    if InExit(s.pc[u]) {
      assert !s'.pc[t].WaitScan?;
    } else if InFork(s.pc[u]) {
      assert !s'.pc[t].WaitScan?;
    } else if s.pc[u].WaitScan? {
      assert !s'.pc[t].WaitScan?;
    }
  }

  lemma {:induction false} RunKids(run: seq<State>, events: seq<Event>, n: nat, t: nat)
    requires Run(run, events) && n < |run| && t < |run[0].st|
    ensures Inv(run[n]) && KidsAt(run[n], t) && Shape(run[n]) && |run[n].st| == |run[0].st|
  {
    hide Inv, Do, Enabled;
    RunKeeps(run, events, n);
    if n > 0 {
      RunKids(run, events, n - 1, t);
      assert StepAt(run, events, n - 1);
      KidsStep(run[n - 1], events[n - 1], t);
      StepSlot(run[n - 1], events[n - 1], t);
    }
  }

  /** The step that ends the scan of wait() by process t. */
  ghost predicate Decides(s: State, s': State, t: nat) {
    && Shape(s) && Shape(s') && |s'.st| == |s.st| && t < |s.st|
    && if HasZombie(s, t) then
         && s'.pc[t] == Pc.Free && s'.lock == FREE
         && exists z: nat :: ZombieChild(s, z, t) && s'.reaped == s.reaped + [s.pid[z]] && s'.st[z] == Unused
       else
         && s'.reaped == s.reaped && s'.parent == s.parent
         && if !HasChild(s, t) || s.killed[t] then
              s'.pc[t] == Pc.Free && s'.lock == FREE && s'.st == s.st
            else s'.st == s.st[t := Sleeping] && s'.chan == s.chan[t := t] && s'.pc[t] == Leave(InWait)
  }

  /** In every run, when wait() makes up its mind it has reaped one of the caller's zombie children if there is any;
      else it returns -1 exactly when the caller has no child or is killed, and sleeps otherwise. */
  lemma WaitDecides(run: seq<State>, events: seq<Event>, i: nat, t: nat)
    requires Run(run, events) && i < |events| && t < |run[0].st| && t < |run[i].pc| && t < |run[i + 1].pc|
    requires run[i].pc[t].WaitScan? && !run[i + 1].pc[t].WaitScan?
    ensures Decides(run[i], run[i + 1], t)
  {
    hide Inv, Do, Enabled, Decides;
    RunKids(run, events, i, t);
    assert StepAt(run, events, i);
    var s, e := run[i], events[i];
    if e.Go? && e.t == t {
      ScanEnds(s, t, e.ok);
    } else {
      OthersLeave(s, e, t);
      assert false;
    }
  }

  lemma ScanEnds(s: State, t: nat, ok: bool)
    requires Inv(s) && Enabled(s, Go(t, ok)) && t < |s.st| && KidsAt(s, t) && s.pc[t].WaitScan?
    requires !Do(s, Go(t, ok)).pc[t].WaitScan?
    ensures Decides(s, Do(s, Go(t, ok)), t)
  {
    hide LockOk, ForkOk, ParentOk, PidOk, HistoryOk, ListsOk;
    var i, s' := s.pc[t].i, Do(s, Go(t, ok));
    assert s' == DoWait(s, t);
    if i < |s.st| {
      assert s' == Reap(s, t, i);
      assert ZombieChild(s, i, t);
    } else {
      forall z: nat | IsChild(s, z, t) ensures s.pc[t].kids && s.st[z] != Zombie {
        assert PairOk(s, t, z);
        assert SeenOk(s, t, z);
      }
      assert !HasZombie(s, t);
      assert HasChild(s, t) <==> s.pc[t].kids;
    }
  }

  // ---- from the call to the return ----

  /** In a call of wait(), scanning or asleep. */
  predicate Waits(p: Pc) {
    p.WaitScan? || ((p.Leave? || p.Away? || p.Back?) && p.k.InWait?)
  }

  /** Others do not move a process that is alive from where it is. */
  lemma PcSteady(s: State, e: Event, t: nat)
    requires Enabled(s, e) && t < |s.st| && LockOk(s, t) && Waits(s.pc[t])
    requires e.Go? ==> e.t < |s.st| && MakerOk(s, e.t)
    requires !((e.Go? || e.Dispatch?) && e.t == t)
    ensures t < |Do(s, e).pc| && Do(s, e).pc[t] == s.pc[t]
  {
    if e.Go? {
      GoSteady(s, e.t, e.ok, t);
    }
  }

  lemma GoSteady(s: State, u: nat, ok: bool, t: nat)
    requires Enabled(s, Go(u, ok)) && t < |s.st| && LockOk(s, t) && Waits(s.pc[t]) && MakerOk(s, u) && u != t
    ensures t < |Do(s, Go(u, ok)).pc| && Do(s, Go(u, ok)).pc[t] == s.pc[t]
  {
    hide HoldsLock, Do;
    if InFork(s.pc[u]) {
      ForkSteady(s, u, ok, t);
    } else {
      RestSteady(s, u, ok, t);
    }
  }

  lemma ForkSteady(s: State, u: nat, ok: bool, t: nat)
    requires Enabled(s, Go(u, ok)) && t < |s.st| && LockOk(s, t) && Waits(s.pc[t]) && MakerOk(s, u) && u != t
    requires InFork(s.pc[u])
    ensures t < |Do(s, Go(u, ok)).pc| && Do(s, Go(u, ok)).pc[t] == s.pc[t]
  {
    hide HoldsLock;
    var s' := Do(s, Go(u, ok));
    if s.pc[u].ForkReady? {
      assert s'.pc[t] == s.pc[t];
    }
  }

  lemma RestSteady(s: State, u: nat, ok: bool, t: nat)
    requires Enabled(s, Go(u, ok)) && t < |s.st| && LockOk(s, t) && Waits(s.pc[t]) && u != t
    requires !InFork(s.pc[u])
    ensures t < |Do(s, Go(u, ok)).pc| && Do(s, Go(u, ok)).pc[t] == s.pc[t]
  {
    hide HoldsLock;
    var s' := Do(s, Go(u, ok));
    match s.pc[u]
    case WaitScan(_, _) => assert s'.pc[t] == s.pc[t];
    case Leave(_) | Back(_) => assert s'.pc[t] == s.pc[t];
    case ExitWake(_) | ExitPass(_) => assert s'.pc[t] == s.pc[t];
    case ExitWakeInit(_, _) | ExitZombie => assert s'.pc[t] == s.pc[t];
    case _ =>
  }

  /** Only the end of a scan leaves the call. */
  lemma WaitsOn(s: State, e: Event, t: nat)
    requires Inv(s) && Enabled(s, e) && t < |s.st| && Waits(s.pc[t])
    ensures t < |Do(s, e).pc| && (!Waits(Do(s, e).pc[t]) ==> s.pc[t].WaitScan?)
  {
    hide PairOk, PidOk, HistoryOk, ListsOk, ParentOk, LockOk, MakerOk, EmbryoOk;
    assert LockOk(s, t);
    if e.Go? {
      assert LockOk(s, e.t) && ForkOk(s, e.t);
    }
    if (e.Go? || e.Dispatch?) && e.t == t {
      OwnMove(s, e, t);
    } else {
      hide Inv, Do, Enabled, Waits;
      PcSteady(s, e, t);
    }
  }

  lemma OwnMove(s: State, e: Event, t: nat)
    requires Enabled(s, e) && t < |s.st| && Waits(s.pc[t]) && (e.Go? || e.Dispatch?) && e.t == t
    ensures t < |Do(s, e).pc| && (!Waits(Do(s, e).pc[t]) ==> s.pc[t].WaitScan?)
  {}

  lemma {:induction false} StillWaits(run: seq<State>, events: seq<Event>, b: nat, n: nat, t: nat)
    requires Run(run, events) && b < n < |run| && t < |run[0].st| && events[b] == Wait(t)
    requires forall j: nat :: b < j <= n && t < |run[j].pc| ==> run[j].pc[t] != Pc.Free
    ensures t < |run[n].pc| && Waits(run[n].pc[t])
  {
    hide Inv, Do, Enabled, KidsAt, Waits;
    RunKids(run, events, n, t);
    RunKids(run, events, n - 1, t);
    StepIs(run, events, n - 1);
    if n == b + 1 {
      ScanBegins(run[b], t);
    } else {
      StillWaits(run, events, b, n - 1, t);
      WaitsOn(run[n - 1], events[n - 1], t);
      if run[n - 1].pc[t].WaitScan? && !run[n].pc[t].WaitScan? {
        WaitDecides(run, events, n - 1, t);
        DecidesPc(run[n - 1], run[n], t);
      } else if run[n].pc[t].WaitScan? {
        ScanWaits(run[n].pc[t]);
      }
    }
  }

  lemma ScanWaits(p: Pc)
    requires p.WaitScan?
    ensures Waits(p)
  {}

  lemma StepIs(run: seq<State>, events: seq<Event>, i: nat)
    requires Run(run, events) && i < |events|
    ensures StepAt(run, events, i)
  {}

  lemma ScanBegins(s: State, t: nat)
    requires Enabled(s, Wait(t))
    ensures t < |Do(s, Wait(t)).pc| && Waits(Do(s, Wait(t)).pc[t])
  {}

  lemma DecidesPc(s: State, s': State, t: nat)
    requires Decides(s, s', t)
    ensures s'.pc[t] == Pc.Free || Waits(s'.pc[t])
  {}

  /** A call of wait() returns only with a reaped child, or with -1 for want of children or because it is killed. */
  lemma WaitReturns(run: seq<State>, events: seq<Event>, b: nat, n: nat, t: nat)
    requires Run(run, events) && b < n < |run| && t < |run[0].st| && events[b] == Wait(t)
    requires forall j: nat :: b < j < n && t < |run[j].pc| ==> run[j].pc[t] != Pc.Free
    requires t < |run[n].pc| && run[n].pc[t] == Pc.Free
    ensures Decides(run[n - 1], run[n], t)
    ensures HasZombie(run[n - 1], t) || !HasChild(run[n - 1], t) || run[n - 1].killed[t]
  {
    hide Inv, Do, Enabled, KidsAt;
    RunKids(run, events, n - 1, t);
    StepIs(run, events, n - 1);
    if n == b + 1 {
      ScanBegins(run[b], t);
      assert false;
    } else {
      StillWaits(run, events, b, n - 1, t);
      WaitsOn(run[n - 1], events[n - 1], t);
      WaitDecides(run, events, n - 1, t);
    }
  }

  // ---- kill and wait ----

  /** Nobody sleeps in wait() once killed. */
  predicate AwakeIfKilled(s: State, t: nat) {
    t < |s.st| && t < |s.chan| && t < |s.killed| && s.st[t] == Sleeping && s.chan[t] == t ==> !s.killed[t]
  }

  lemma KilledStep(s: State, e: Event, t: nat)
    requires Inv(s) && Enabled(s, e) && t < |s.st| && AwakeIfKilled(s, t)
    ensures AwakeIfKilled(Do(s, e), t)
  {
    hide PairOk, PidOk, HistoryOk, ListsOk, ParentOk;
    assert LockOk(s, t);
    hide Inv;
    if e.Go? {
      GoKilled(s, e.t, e.ok, t);
    }
  }

  lemma GoKilled(s: State, u: nat, ok: bool, t: nat)
    requires Enabled(s, Go(u, ok)) && u < |s.st| && t < |s.st| && AwakeIfKilled(s, t)
    ensures AwakeIfKilled(Do(s, Go(u, ok)), t)
  {
    var s' := Do(s, Go(u, ok));
    match s.pc[u]
    case WaitScan(_, _) => assert AwakeIfKilled(s', t);
    case ExitWake(_) | ExitWakeInit(_, _) => assert AwakeIfKilled(s', t);
    case ExitPass(_) | ExitZombie => assert AwakeIfKilled(s', t);
    case ForkScan(_) | ForkStack(_) | ForkCopy(_) => assert AwakeIfKilled(s', t);
    case ForkParent(_) | ForkLock(_) | ForkReady(_) => assert AwakeIfKilled(s', t);
    case Leave(_) | Back(_) => assert AwakeIfKilled(s', t);
    case _ =>
  }

  /** In every run no killed process is asleep in wait(). */
  lemma {:induction false} NoKilledWaiter(run: seq<State>, events: seq<Event>, n: nat, t: nat)
    requires Run(run, events) && n < |run| && t < |run[0].st|
    ensures AwakeIfKilled(run[n], t)
  {
    hide Inv, Do, Enabled, KidsAt;
    RunKids(run, events, n, t);
    if n > 0 {
      NoKilledWaiter(run, events, n - 1, t);
      RunKids(run, events, n - 1, t);
      assert StepAt(run, events, n - 1);
      KilledStep(run[n - 1], events[n - 1], t);
    }
  }
}
