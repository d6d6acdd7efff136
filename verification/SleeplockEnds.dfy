/** Every acquiresleep gets the lock, and every sleep on it ends. */
module SleeplockEnds {
  import opened Sleeplock

  /** How many steps a process can still take until it has released the lock, at most, if it is not woken; one of n. A
      process that releases pays for what those it wakes do until they sleep again. */
  function Rank(p: Pc, r: RunState, n: nat): nat {
    match p
    case Out => 0
    case DoneRelease => 1
    case WakeDone => 2
    case Scan(i) => if i < n then 9 * (n - i) + 3 else 3
    case WakeTable => 9 * n + 4
    case Clear => 9 * n + 5
    case Release => 9 * n + 6
    case Held => 9 * n + 7
    case DoneAcquire => 9 * n + 8
    case Set => 9 * n + 9
    case Away => if r == Sleeping then 9 * n + 10 else 9 * n + 18
    case Sched => 9 * n + 11
    case MarkAsleep => 9 * n + 12
    case DropLk => 9 * n + 13
    case TakeTable => 9 * n + 14
    case Test => 9 * n + 15
    case Acquire => 9 * n + 16
    case Back => 9 * n + 17
  }

  function Total(pc: seq<Pc>, run: seq<RunState>, n: nat): nat
    requires |pc| == |run|
  {
    if pc == [] then 0
    else
      var k := |pc| - 1;
      Total(pc[..k], run[..k], n) + Rank(pc[k], run[k], n)
  }

  lemma {:induction false} TotalUpdate(pc: seq<Pc>, run: seq<RunState>, t: nat, p: Pc, r: RunState, n: nat)
    requires t < |pc| == |run|
    ensures Total(pc[t := p], run[t := r], n) == Total(pc, run, n) - Rank(pc[t], run[t], n) + Rank(p, r, n)
  {
    hide Rank;
    var k := |pc| - 1;
    if t == k {
      assert pc[t := p][..k] == pc[..k] && run[t := r][..k] == run[..k];
    } else {
      TotalUpdate(pc[..k], run[..k], t, p, r, n);
      assert pc[t := p][..k] == pc[..k][t := p] && run[t := r][..k] == run[..k][t := r];
    }
  }

  function Work(s: State): nat
    requires |s.pc| == |s.run|
  {
    Total(s.pc, s.run, |s.pc|)
  }

  /** A step that wakes nobody. */
  lemma OwnStep(s: State, t: nat)
    requires |s.pc| == |s.run| && Enabled(s, t) && s.pc[t] != Out && !s.pc[t].Scan? && RunOk(s.pc[t], s.run[t])
    ensures var s' := Do(s, t);
            && |s'.pc| == |s'.run| == |s.pc| && s'.pc == s.pc[t := s'.pc[t]] && s'.run == s.run[t := s'.run[t]]
            && Rank(s'.pc[t], s'.run[t], |s.pc|) < Rank(s.pc[t], s.run[t], |s.pc|)
  {}

  /** Waking a process costs it the eight steps to its next sleep. */
  lemma Woken(pc: seq<Pc>, run: seq<RunState>, i: nat, n: nat)
    requires i < |pc| == |run|
    ensures Total(pc, run[i := Runnable], n) <= Total(pc, run, n) + 8
  {
    hide Total;
    TotalUpdate(pc, run, i, pc[i], Runnable, n);
    assert pc[i := pc[i]] == pc;
  }

  lemma StepWorks(s: State, t: nat)
    requires Inv(s) && Enabled(s, t) && s.pc[t] != Out
    ensures |Do(s, t).pc| == |Do(s, t).run| && Work(Do(s, t)) < Work(s)
  {
    var s', n := Do(s, t), |s.pc|;
    assert ProcOk(s, t);
    hide Inv, ProcOk, Total;
    if s.pc[t].Scan? {
      var i := s.pc[t].i;
      TotalUpdate(s.pc, s.run, t, s'.pc[t], s.run[t], n);
      assert s.run[t := s.run[t]] == s.run;
      if i < n {
        Woken(s'.pc, s.run, i, n);
      }
    } else {
      OwnStep(s, t);
      TotalUpdate(s.pc, s.run, t, s'.pc[t], s'.run[t], n);
    }
  }

  lemma OtherWorks(s: State, o: Other)
    requires |s.pc| == |s.run| && OtherEnabled(s, o)
    ensures |OtherDo(s, o).pc| == |OtherDo(s, o).run|
    ensures Work(OtherDo(s, o)) <= Work(s) + if o.Killed? then 8 else 0
  {
    hide Total;
    if o.Killed? {
      Woken(s.pc, s.run, o.t, |s.pc|);
    }
  }

  /** Nobody starts an acquiresleep. */
  predicate NoNewCalls(s: State, events: seq<Event>)
    decreases |events|
  {
    events == [] ||
    (var e := events[0];
     CanStep(s, e) && (e.Process? ==> s.pc[e.t] != Out) && NoNewCalls(Step(s, e), events[1..]))
  }

  function Steps(events: seq<Event>): nat {
    if events == [] then 0 else (if events[0].Process? then 1 else 0) + Steps(events[1..])
  }

  function Kills(events: seq<Event>): nat {
    if events == [] then 0
    else (if events[0].Elsewhere? && events[0].o.Killed? then 1 else 0) + Kills(events[1..])
  }

  lemma {:induction false} StepsBounded(s: State, events: seq<Event>, end: State)
    requires Inv(s) && Run(s, events, end) && NoNewCalls(s, events)
    ensures Inv(end) && Steps(events) + Work(end) <= Work(s) + 8 * Kills(events)
    decreases |events|
  {
    hide Work, ProcOk;
    if events != [] {
      var e := events[0];
      StepKeeps(s, e);
      StepsBounded(Step(s, e), events[1..], end);
      match e
      case Process(t) => StepWorks(s, t);
      case Elsewhere(o) => OtherWorks(s, o);
    }
  }

  /** With no scheduler at the table somebody can go on, as long as somebody is in a call. */
  lemma Mover(s: State, u: nat) returns (t: nat)
    requires Inv(s) && u < |s.pc| && s.pc[u] != Out && s.table == FREE
    ensures Enabled(s, t) && s.pc[t] != Out
  {
    assert ProcOk(s, u);
    if s.lk != FREE {
      t := s.lk;
      assert ProcOk(s, t);
    } else if s.run[u] == Sleeping {
      t := s.pid;
      assert ProcOk(s, t);
    } else {
      t := u;
    }
  }

  /** Nobody waits for ever: once no more calls start, the processes take no more steps than Work and eight for each
      kill, and when none can go on, with ptable.lock free, all have had the lock and released it. */
  lemma CallsEnd(s0: State, before: seq<Event>, s: State, events: seq<Event>, end: State)
    requires Init(s0) && Run(s0, before, s) && Run(s, events, end) && NoNewCalls(s, events)
    ensures |s.pc| == |s.run| && Steps(events) <= Work(s) + 8 * Kills(events)
    ensures end.table == FREE && (forall t: nat :: Enabled(end, t) ==> end.pc[t] == Out) ==>
              forall t :: 0 <= t < |end.pc| ==> end.pc[t] == Out
  {
    RunKeeps(s0, before, s);
    StepsBounded(s, events, end);
    if end.table == FREE {
      if u :| 0 <= u < |end.pc| && end.pc[u] != Out {
        var t := Mover(end, u);
      }
    }
  }

  // ---- a call comes back only with the lock ----

  predicate Acquiring(p: Pc) {
    || p.Acquire? || p.Test? || p.TakeTable? || p.DropLk? || p.MarkAsleep? || p.Sched? || p.Away? || p.Back?
    || p.Set? || p.DoneAcquire?
  }

  /** Process t is at some time back from acquiresleep, as the owner. */
  predicate GetsIt(s: State, events: seq<Event>, t: nat)
    requires t < |s.pc|
    decreases |events|
  {
    || (s.pc[t].Held? && s.locked && s.pid == t)
    || (events != [] && CanStep(s, events[0]) && t < |Step(s, events[0]).pc|
        && GetsIt(Step(s, events[0]), events[1..], t))
  }

  lemma AcquiringStep(s: State, e: Event, t: nat)
    requires Inv(s) && CanStep(s, e) && t < |s.pc| && Acquiring(s.pc[t])
    ensures var m := Step(s, e);
            t < |m.pc| && (Acquiring(m.pc[t]) || (m.pc[t].Held? && m.locked && m.pid == t))
  {
    hide WakeOk, TestedOk, SpinsOk;
    assert ProcOk(s, t);
    if e != Process(t) {
      hide Inv, ProcOk, LocksOk, OwnerOk;
    }
  }

  lemma {:induction false} StillAcquiring(s: State, events: seq<Event>, end: State, t: nat)
    requires Inv(s) && Run(s, events, end) && t < |s.pc| && Acquiring(s.pc[t])
    ensures t < |end.pc| && (Acquiring(end.pc[t]) || GetsIt(s, events, t))
    decreases |events|
  {
    if events != [] {
      var m := Step(s, events[0]);
      StepKeeps(s, events[0]);
      AcquiringStep(s, events[0], t);
      hide Inv, Acquiring, Step;
      if Acquiring(m.pc[t]) {
        StillAcquiring(m, events[1..], end, t);
      } else {
        StaysInTable(m, events[1..], end);
      }
    }
  }

  lemma {:induction false} StaysInTable(s: State, events: seq<Event>, end: State)
    requires Run(s, events, end)
    ensures |end.pc| == |s.pc|
    decreases |events|
  {
    if events != [] {
      StaysInTable(Step(s, events[0]), events[1..], end);
    }
  }

  /** A process that called acquiresleep and is in no call now has had the lock in between. */
  lemma BeenOwner(s0: State, before: seq<Event>, s: State, t: nat, events: seq<Event>, end: State)
    requires Init(s0) && Run(s0, before, s) && Enabled(s, t) && s.pc[t] == Out && Run(Do(s, t), events, end)
    ensures t < |Do(s, t).pc| == |end.pc| && (end.pc[t] == Out ==> GetsIt(Do(s, t), events, t))
  {
    RunKeeps(s0, before, s);
    StepKeeps(s, Process(t));
    StillAcquiring(Do(s, t), events, end, t);
    StaysInTable(Do(s, t), events, end);
  }

  /** kill gets a process out of its sleep: it can go on as soon as ptable.lock is free. */
  lemma KilledGoesOn(s: State, t: nat)
    requires t < |s.pc| == |s.run| && s.pc[t].Away? && s.run[t] != Running && OtherEnabled(s, TableTaken)
    ensures var a := OtherDo(s, TableTaken);
            && OtherEnabled(a, Killed(t)) && OtherEnabled(OtherDo(a, Killed(t)), TableLeft)
            && Enabled(OtherDo(OtherDo(a, Killed(t)), TableLeft), t)
  {}
}
