/** sleeplock.c over the sleep and wakeup of proc.c: one sleeplock, any number of processes. A step is one access to
    shared state; being off the CPU between two steps is part of any interleaving of them. */
module Sleeplock {
  datatype RunState = Running | Sleeping | Runnable // Sleeping: with the lock's address as its channel

  datatype Pc =
    | Out
    | Acquire // acquiresleep, about to take lk->lk
    | Test // about to test locked
    | TakeTable // sleep, about to take ptable.lock
    | DropLk // about to release lk->lk
    | MarkAsleep // about to set chan and SLEEPING
    | Sched // about to switch to the scheduler
    | Away // switched out
    | Back // scheduled again: about to clear chan and release ptable.lock, then to take lk->lk
    | Set // about to set locked and pid
    | DoneAcquire // about to release lk->lk
    | Held
    | Release // releasesleep, about to take lk->lk
    | Clear // about to clear locked and pid
    | WakeTable // wakeup, about to take ptable.lock
    | Scan(i: nat) // wakeup1's loop
    | WakeDone // about to release ptable.lock
    | DoneRelease // about to release lk->lk

  const FREE: int := -1
  const SCHEDULER: int := -2 // ptable.lock is with a scheduler, or with someone killing a process

  /** lk and table: who has the two spinlocks. pid: the sleeplock's owner, FREE for none. */
  datatype State = State(lk: int, table: int, locked: bool, pid: int, run: seq<RunState>, pc: seq<Pc>)

  function Goto(s: State, t: nat, p: Pc): State
    requires t < |s.pc|
  {
    s.(pc := s.pc[t := p])
  }

  /** Process t's next step can be taken. */
  predicate Enabled(s: State, t: nat) {
    && t < |s.pc| == |s.run|
    && match s.pc[t]
       case Acquire | Release => s.lk == FREE
       case TakeTable | WakeTable => s.table == FREE
       case Away => s.run[t] == Runnable && s.table == FREE // the scheduler takes ptable.lock and picks t
       case _ => true
  }

  function Do(s: State, t: nat): State
    requires Enabled(s, t)
  {
    match s.pc[t]
    case Out => Goto(s, t, Acquire)
    case Acquire => Goto(s, t, Test).(lk := t)
    case Test => Goto(s, t, if s.locked then TakeTable else Set)
    case TakeTable => Goto(s, t, DropLk).(table := t)
    case DropLk => Goto(s, t, MarkAsleep).(lk := FREE)
    case MarkAsleep => Goto(s, t, Sched).(run := s.run[t := Sleeping])
    case Sched => Goto(s, t, Away).(table := SCHEDULER)
    case Away => Goto(s, t, Back).(table := t, run := s.run[t := Running])
    case Back => Goto(s, t, Acquire).(table := FREE)
    case Set => Goto(s, t, DoneAcquire).(locked := true, pid := t)
    case DoneAcquire => Goto(s, t, Held).(lk := FREE)
    case Held => Goto(s, t, Release)
    case Release => Goto(s, t, Clear).(lk := t)
    case Clear => Goto(s, t, WakeTable).(locked := false, pid := FREE)
    case WakeTable => Goto(s, t, Scan(0)).(table := t)
    case Scan(i) =>
      if i >= |s.run| then Goto(s, t, WakeDone)
      else Goto(s, t, Scan(i + 1)).(run := if s.run[i] == Sleeping then s.run[i := Runnable] else s.run)
    case WakeDone => Goto(s, t, DoneRelease).(table := FREE)
    case DoneRelease => Goto(s, t, Out).(lk := FREE)
  }

  /** What others do: take ptable.lock or leave it, and with it in hand kill a sleeping process. */
  datatype Other = TableTaken | TableLeft | Killed(t: nat)

  predicate OtherEnabled(s: State, o: Other) {
    match o
    case TableTaken => s.table == FREE
    case TableLeft => s.table == SCHEDULER
    case Killed(t) => s.table == SCHEDULER && t < |s.run|
  }

  function OtherDo(s: State, o: Other): State
    requires OtherEnabled(s, o)
  {
    match o
    case TableTaken => s.(table := SCHEDULER)
    case TableLeft => s.(table := FREE)
    case Killed(t) => s.(run := if s.run[t] == Sleeping then s.run[t := Runnable] else s.run)
  }

  datatype Event = Process(t: nat) | Elsewhere(o: Other)

  predicate CanStep(s: State, e: Event) {
    match e
    case Process(t) => Enabled(s, t)
    case Elsewhere(o) => OtherEnabled(s, o)
  }

  function Step(s: State, e: Event): State
    requires CanStep(s, e)
  {
    match e
    case Process(t) => Do(s, t)
    case Elsewhere(o) => OtherDo(s, o)
  }

  predicate Run(s: State, events: seq<Event>, end: State)
    decreases |events|
  {
    if events == [] then end == s
    else CanStep(s, events[0]) && Run(Step(s, events[0]), events[1..], end)
  }

  predicate Init(s: State) {
    && s.lk == s.table == s.pid == FREE && !s.locked && |s.pc| == |s.run|
    && (forall t :: 0 <= t < |s.pc| ==> s.pc[t] == Out && s.run[t] == Running)
  }

  // ---- the invariant ----

  predicate HoldsLk(p: Pc) {
    || p.Test? || p.TakeTable? || p.DropLk? || p.Set? || p.DoneAcquire?
    || p.Clear? || p.WakeTable? || p.Scan? || p.WakeDone? || p.DoneRelease?
  }

  predicate HoldsTable(p: Pc) {
    p.DropLk? || p.MarkAsleep? || p.Sched? || p.Back? || p.Scan? || p.WakeDone?
  }

  predicate Owns(p: Pc) {
    p.DoneAcquire? || p.Held? || p.Release? || p.Clear?
  }

  predicate RunOk(p: Pc, r: RunState) {
    if p.Sched? then r == Sleeping else if p.Away? then r != Running else r == Running
  }

  /** The process that released the lock has yet to come to process t in its wakeup. */
  predicate WakerComing(s: State, t: nat) {
    && 0 <= s.lk < |s.pc|
    && (s.pc[s.lk].WakeTable? || (s.pc[s.lk].Scan? && s.pc[s.lk].i <= t))
  }

  /** The spinlocks are with whom the program counters say. */
  predicate SpinsOk(s: State, t: nat)
    requires t < |s.pc| == |s.run|
  {
    && (HoldsLk(s.pc[t]) <==> s.lk == t) && (HoldsTable(s.pc[t]) <==> s.table == t)
    && RunOk(s.pc[t], s.run[t])
  }

  predicate OwnerOk(s: State, t: nat)
    requires t < |s.pc|
  {
    Owns(s.pc[t]) <==> s.locked && s.pid == t
  }

  /** What the test of locked showed still holds. */
  predicate TestedOk(s: State, t: nat)
    requires t < |s.pc|
  {
    (s.pc[t].Set? ==> !s.locked) && (s.pc[t].TakeTable? || s.pc[t].DropLk? ==> s.locked)
  }

  predicate LocksOk(s: State, t: nat)
    requires t < |s.pc| == |s.run|
  {
    SpinsOk(s, t) && OwnerOk(s, t) && TestedOk(s, t)
  }

  predicate WakeOk(s: State, t: nat)
    requires t < |s.pc| == |s.run|
  {
    s.pc[t].MarkAsleep? || s.run[t] == Sleeping ==> s.locked || WakerComing(s, t)
  }

  predicate ProcOk(s: State, t: nat)
    requires t < |s.pc| == |s.run|
  {
    LocksOk(s, t) && WakeOk(s, t)
  }

  ghost predicate Inv(s: State) {
    && |s.pc| == |s.run|
    && (if s.locked then 0 <= s.pid < |s.pc| else s.pid == FREE)
    && (s.lk == FREE || 0 <= s.lk < |s.pc|)
    && (forall t: nat :: t < |s.pc| ==> ProcOk(s, t))
  }

  lemma StepKeeps(s: State, e: Event)
    requires Inv(s) && CanStep(s, e)
    ensures Inv(Step(s, e))
  {
    hide ProcOk, LocksOk, WakeOk;
    match e
    case Process(t) =>
      Shape(s, t);
      forall u: nat | u < |s.pc| ensures ProcOk(Do(s, t), u) {
        ProcessKeeps(s, t, u);
      }
    case Elsewhere(o) =>
      forall u: nat | u < |s.pc| ensures ProcOk(OtherDo(s, o), u) {
        OtherKeeps(s, o, u);
      }
  }

  lemma Shape(s: State, t: nat)
    requires Inv(s) && Enabled(s, t)
    ensures var s' := Do(s, t);
            && |s'.pc| == |s'.run| == |s.pc| && (if s'.locked then 0 <= s'.pid < |s'.pc| else s'.pid == FREE)
            && (s'.lk == FREE || 0 <= s'.lk < |s'.pc|)
  {}

  lemma OtherKeeps(s: State, o: Other, u: nat)
    requires |s.pc| == |s.run| && OtherEnabled(s, o) && u < |s.pc| && ProcOk(s, u)
    requires o.Killed? ==> ProcOk(s, o.t)
    ensures ProcOk(OtherDo(s, o), u)
  {}

  lemma ProcessKeeps(s: State, t: nat, u: nat)
    requires Inv(s) && Enabled(s, t) && u < |s.pc|
    ensures u < |Do(s, t).pc| == |Do(s, t).run| && ProcOk(Do(s, t), u)
  {
    hide LocksOk, WakeOk;
    assert ProcOk(s, t) && ProcOk(s, u);
    LocksKept(s, t, u);
    WakeKept(s, t, u);
  }

  lemma LocksKept(s: State, t: nat, u: nat)
    requires |s.pc| == |s.run| && Enabled(s, t) && u < |s.pc| && LocksOk(s, t) && LocksOk(s, u)
    ensures u < |Do(s, t).pc| == |Do(s, t).run| && LocksOk(Do(s, t), u)
  {
    SpinsKept(s, t, u);
    OwnerKept(s, t, u);
    TestedKept(s, t, u);
  }

  lemma SpinsKept(s: State, t: nat, u: nat)
    requires |s.pc| == |s.run| && Enabled(s, t) && u < |s.pc| && SpinsOk(s, t) && SpinsOk(s, u)
    ensures u < |Do(s, t).pc| == |Do(s, t).run| && SpinsOk(Do(s, t), u)
  {
    LkKept(s, t, u);
    TableKept(s, t, u);
    RunKept(s, t, u);
    hide Do, HoldsLk, HoldsTable, RunOk;
  }

  lemma LkKept(s: State, t: nat, u: nat)
    requires |s.pc| == |s.run| && Enabled(s, t) && u < |s.pc| && SpinsOk(s, t) && SpinsOk(s, u)
    ensures u < |Do(s, t).pc| == |Do(s, t).run| && (HoldsLk(Do(s, t).pc[u]) <==> Do(s, t).lk == u)
  {
    hide HoldsTable, RunOk;
    var s' := Do(s, t);
    match s.pc[t]
    case Out | Test | Set | Held | Clear => assert (HoldsLk(s'.pc[u]) <==> s'.lk == u);
    case Acquire | Release => assert (HoldsLk(s'.pc[u]) <==> s'.lk == u);
    case TakeTable | WakeTable => assert (HoldsLk(s'.pc[u]) <==> s'.lk == u);
    case DropLk | DoneAcquire | DoneRelease => assert (HoldsLk(s'.pc[u]) <==> s'.lk == u);
    case MarkAsleep | Sched => assert (HoldsLk(s'.pc[u]) <==> s'.lk == u);
    case Away | Back => assert (HoldsLk(s'.pc[u]) <==> s'.lk == u);
    case Scan(_) => assert (HoldsLk(s'.pc[u]) <==> s'.lk == u);
    case WakeDone => assert (HoldsLk(s'.pc[u]) <==> s'.lk == u);
  }

  lemma TableKept(s: State, t: nat, u: nat)
    requires |s.pc| == |s.run| && Enabled(s, t) && u < |s.pc| && SpinsOk(s, t) && SpinsOk(s, u)
    ensures u < |Do(s, t).pc| == |Do(s, t).run| && (HoldsTable(Do(s, t).pc[u]) <==> Do(s, t).table == u)
  {
    hide HoldsLk, RunOk;
    var s' := Do(s, t);
    match s.pc[t]
    case Out | Test | Set | Held | Clear => assert (HoldsTable(s'.pc[u]) <==> s'.table == u);
    case Acquire | Release => assert (HoldsTable(s'.pc[u]) <==> s'.table == u);
    case TakeTable | WakeTable => assert (HoldsTable(s'.pc[u]) <==> s'.table == u);
    case DropLk | DoneAcquire | DoneRelease => assert (HoldsTable(s'.pc[u]) <==> s'.table == u);
    case MarkAsleep | Sched => assert (HoldsTable(s'.pc[u]) <==> s'.table == u);
    case Away | Back => assert (HoldsTable(s'.pc[u]) <==> s'.table == u);
    case Scan(_) => assert (HoldsTable(s'.pc[u]) <==> s'.table == u);
    case WakeDone => assert (HoldsTable(s'.pc[u]) <==> s'.table == u);
  }

  /** Only a wakeup touches another process, and whoever is in sched() has ptable.lock. */
  lemma RunOther(s: State, t: nat, u: nat)
    requires |s.pc| == |s.run| && Enabled(s, t) && u < |s.pc| && SpinsOk(s, t) && SpinsOk(s, u) && u != t
    ensures u < |Do(s, t).pc| == |Do(s, t).run| && RunOk(Do(s, t).pc[u], Do(s, t).run[u])
  {
    hide HoldsLk;
    assert s.pc[t].Scan? ==> !s.pc[u].Sched?;
    Elsewhere(s, t, u);
    hide Do;
  }

  lemma Elsewhere(s: State, t: nat, u: nat)
    requires |s.pc| == |s.run| && Enabled(s, t) && u < |s.pc| && u != t
    ensures var s' := Do(s, t);
            && |s'.pc| == |s'.run| == |s.pc| && s'.pc[u] == s.pc[u]
            && (s'.run[u] == s.run[u] || (s.pc[t].Scan? && s.run[u] == Sleeping && s'.run[u] == Runnable))
  {}

  lemma RunKept(s: State, t: nat, u: nat)
    requires |s.pc| == |s.run| && Enabled(s, t) && u < |s.pc| && SpinsOk(s, t) && SpinsOk(s, u)
    ensures u < |Do(s, t).pc| == |Do(s, t).run| && RunOk(Do(s, t).pc[u], Do(s, t).run[u])
  {
    if u != t {
      RunOther(s, t, u);
    } else {
      RunSelf(s, t);
    }
  }

  lemma RunSelf(s: State, t: nat)
    requires |s.pc| == |s.run| && Enabled(s, t) && RunOk(s.pc[t], s.run[t])
    ensures t < |Do(s, t).pc| == |Do(s, t).run| && RunOk(Do(s, t).pc[t], Do(s, t).run[t])
  {
    var s' := Do(s, t);
    match s.pc[t]
    case Out | Test | Set | Held | Clear => assert RunOk(s'.pc[t], s'.run[t]);
    case Acquire | Release | TakeTable | WakeTable => assert RunOk(s'.pc[t], s'.run[t]);
    case DropLk | DoneAcquire | DoneRelease | WakeDone => assert RunOk(s'.pc[t], s'.run[t]);
    case MarkAsleep | Sched | Away | Back => assert RunOk(s'.pc[t], s'.run[t]);
    case Scan(_) => assert RunOk(s'.pc[t], s'.run[t]);
  }

  lemma OwnerKept(s: State, t: nat, u: nat)
    requires |s.pc| == |s.run| && Enabled(s, t) && u < |s.pc| && LocksOk(s, t) && LocksOk(s, u)
    ensures u < |Do(s, t).pc| && OwnerOk(Do(s, t), u)
  {
    if u != t {
      OwnerOther(s, t, u);
    } else {
      OwnerSelf(s, t);
    }
  }

  /** The lock changes hands in two steps only. */
  lemma LockMoves(s: State, t: nat)
    requires |s.pc| == |s.run| && Enabled(s, t)
    ensures var s' := Do(s, t);
            && |s'.pc| == |s.pc| && (forall u :: 0 <= u < |s.pc| && u != t ==> s'.pc[u] == s.pc[u])
            && (s.pc[t].Set? ==> s'.locked && s'.pid == t)
            && (s.pc[t].Clear? ==> !s'.locked)
            && (!s.pc[t].Set? && !s.pc[t].Clear? ==> s'.locked == s.locked && s'.pid == s.pid)
  {}

  lemma OwnerOther(s: State, t: nat, u: nat)
    requires |s.pc| == |s.run| && Enabled(s, t) && u < |s.pc| && LocksOk(s, t) && LocksOk(s, u) && u != t
    ensures u < |Do(s, t).pc| && OwnerOk(Do(s, t), u)
  {
    LockMoves(s, t);
    hide Do, HoldsTable, HoldsLk, RunOk;
  }

  lemma OwnerSelf(s: State, t: nat)
    requires |s.pc| == |s.run| && Enabled(s, t) && LocksOk(s, t)
    ensures t < |Do(s, t).pc| && OwnerOk(Do(s, t), t)
  {
    hide HoldsTable, HoldsLk, RunOk;
    var s' := Do(s, t);
    match s.pc[t]
    case Set | Clear => assert OwnerOk(s', t);
    case DoneAcquire | Held | Release => assert OwnerOk(s', t);
    case Scan(_) => assert OwnerOk(s', t);
    case _ => assert OwnerOk(s', t);
  }

  lemma TestedKept(s: State, t: nat, u: nat)
    requires |s.pc| == |s.run| && Enabled(s, t) && u < |s.pc| && LocksOk(s, t) && LocksOk(s, u)
    ensures u < |Do(s, t).pc| && TestedOk(Do(s, t), u)
  {
    hide HoldsTable, RunOk;
    var s' := Do(s, t);
    match s.pc[t]
    case Set | Clear => assert TestedOk(s', u);
    case Test | Release => assert TestedOk(s', u);
    case TakeTable | DropLk => assert TestedOk(s', u);
    case Scan(_) => assert TestedOk(s', u);
    case _ => assert TestedOk(s', u);
  }

  lemma WakeKept(s: State, t: nat, u: nat)
    requires |s.pc| == |s.run| && Enabled(s, t) && u < |s.pc| && ProcOk(s, t) && ProcOk(s, u)
    ensures u < |Do(s, t).pc| == |Do(s, t).run| && WakeOk(Do(s, t), u)
  {
    hide RunOk;
    var s' := Do(s, t);
    match s.pc[t]
    case Out | Test | Held => assert WakeOk(s', u);
    case Acquire | Release => assert WakeOk(s', u);
    case Set | Clear => assert WakeOk(s', u);
    case TakeTable | WakeTable => assert WakeOk(s', u);
    case DropLk | DoneAcquire | DoneRelease => assert WakeOk(s', u);
    case MarkAsleep | Sched => assert WakeOk(s', u);
    case Away | Back => assert WakeOk(s', u);
    case Scan(_) => assert WakeOk(s', u);
    case WakeDone => assert WakeOk(s', u);
  }

  lemma {:induction false} RunKeeps(s: State, events: seq<Event>, end: State)
    requires Inv(s) && Run(s, events, end)
    ensures Inv(end)
    decreases |events|
  {
    if events != [] {
      StepKeeps(s, events[0]);
      RunKeeps(Step(s, events[0]), events[1..], end);
    }
  }

  /** Never two processes between acquiresleep's return and releasesleep's start, or on their way there. */
  lemma MutualExclusion(s: State, events: seq<Event>, end: State, t: nat, u: nat)
    requires Init(s) && Run(s, events, end) && t < |end.pc| && u < |end.pc|
    requires Owns(end.pc[t]) && Owns(end.pc[u])
    ensures t == u && end.locked && end.pid == t
  {
    RunKeeps(s, events, end);
    assert ProcOk(end, t) && ProcOk(end, u);
  }

  /** pid names the owner while there is one, and nobody while there is none. */
  lemma OwnerNamed(s: State, events: seq<Event>, end: State)
    requires Init(s) && Run(s, events, end)
    ensures if end.locked then 0 <= end.pid < |end.pc| && Owns(end.pc[end.pid])
            else end.pid == FREE && forall t :: 0 <= t < |end.pc| ==> !Owns(end.pc[t])
  {
    RunKeeps(s, events, end);
    forall t: nat | t < |end.pc| ensures OwnerOk(end, t) {
      assert ProcOk(end, t);
    }
    if end.locked {
      var o: nat := end.pid;
      assert OwnerOk(end, o);
    } else {
      forall t | 0 <= t < |end.pc| ensures !Owns(end.pc[t]) {
        assert OwnerOk(end, t);
      }
    }
  }

  /** With the inner spinlock free and the lock not held, nobody sleeps on it, nor is on the way to. */
  lemma NoLostWakeup(s: State, events: seq<Event>, end: State, t: nat)
    requires Init(s) && Run(s, events, end) && t < |end.pc|
    requires end.lk == FREE && !end.locked
    ensures t < |end.run| && end.run[t] != Sleeping && !end.pc[t].MarkAsleep?
  {
    RunKeeps(s, events, end);
    assert ProcOk(end, t);
  }

  /** A sleeper is always owed a wakeup: by the owner, or by the one who is just releasing. */
  lemma SleeperIsOwed(s: State, events: seq<Event>, end: State, t: nat)
    requires Init(s) && Run(s, events, end) && t < |end.run| && end.run[t] == Sleeping
    ensures end.locked ==> 0 <= end.pid < |end.pc| && Owns(end.pc[end.pid])
    ensures !end.locked ==> WakerComing(end, t)
  {
    RunKeeps(s, events, end);
    assert ProcOk(end, t);
    if end.locked {
      var o: nat := end.pid;
      assert ProcOk(end, o);
    }
  }
}
