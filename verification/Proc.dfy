/** exit, wait, fork and the scheduler of proc.c, as steps of any number of processes on any number of CPUs. A step
    is one turn of a loop or one write that others can see; fork's writes outside ptable.lock are steps of their own. */
module Proc {
  datatype RunState = Unused | Embryo | Sleeping | Runnable | Running | Zombie

  /** Where a process goes on after the scheduler picks it again. */
  datatype Resume = InWait | Elsewhere | Never

  datatype Pc =
    | Vacant // no process here, or one still being made
    | Free // in no call below; or in one, with nothing shared to do
    | ExitWake(i: nat) // exit: wakeup1(curproc->parent) at slot i
    | ExitPass(i: nat) // exit: passing abandoned children to init
    | ExitWakeInit(i: nat, j: nat) // wakeup1(initproc) at slot j, for the zombie child at i
    | ExitZombie // about to become a zombie
    | WaitScan(i: nat, kids: bool)
    | ForkScan(i: nat) // allocproc
    | ForkStack(np: nat) // kalloc
    | ForkCopy(np: nat) // copyuvm
    | ForkParent(np: nat) // about to set np->parent
    | ForkLock(np: nat) // about to take ptable.lock again
    | ForkReady(np: nat) // about to make np runnable
    | Leave(k: Resume) // sched
    | Away(k: Resume) // switched out
    | Back(k: Resume) // switched in, with ptable.lock

  const NONE: int := -1
  const FREE: int := -1 // nobody has ptable.lock
  const SCHEDULER: int := -2 // a CPU's scheduler has it
  const INIT: nat := 0

  /** The table, field by field. maker: who is forking into an embryo's slot. exited, reaped: pids in the order they
      became zombies and were returned by wait. Nothing reads these three. */
  datatype State = State(lock: int, nextpid: nat, st: seq<RunState>, parent: seq<int>, pid: seq<nat>, chan: seq<int>,
                         killed: seq<bool>, pc: seq<Pc>, maker: seq<int>, exited: seq<nat>, reaped: seq<nat>)

  predicate Shape(s: State) {
    |s.st| >= 1 && |s.st| == |s.parent| == |s.pid| == |s.chan| == |s.killed| == |s.pc| == |s.maker|
  }

  function At(s: State, t: nat, p: Pc): State
    requires t < |s.pc|
  {
    s.(pc := s.pc[t := p])
  }

  /** One turn of wakeup1. */
  function Wake(s: State, i: nat, chan: int): State
    requires Shape(s) && i < |s.st|
  {
    if s.st[i] == Sleeping && s.chan[i] == chan then s.(st := s.st[i := Runnable]) else s
  }

  // ---- the steps that make, start, pass on, end and remove processes ----

  /** allocproc has found slot i. */
  function Allocate(s: State, t: nat, i: nat): State
    requires Shape(s) && t < |s.st| && i < |s.st|
  {
    At(s, t, ForkStack(i)).(lock := FREE, st := s.st[i := Embryo], pid := s.pid[i := s.nextpid],
                            nextpid := s.nextpid + 1, maker := s.maker[i := t])
  }

  /** No memory: the slot is given back, without ptable.lock. */
  function Abandon(s: State, t: nat, np: nat): State
    requires Shape(s) && t < |s.st| && np < |s.st|
  {
    At(s, t, Pc.Free).(st := s.st[np := Unused])
  }

  /** np->parent = curproc, without ptable.lock. */
  function Adopt(s: State, t: nat, np: nat): State
    requires Shape(s) && t < |s.st| && np < |s.st|
  {
    At(s, t, ForkLock(np)).(parent := s.parent[np := t])
  }

  function Start(s: State, t: nat, np: nat): State
    requires Shape(s) && t < |s.st| && np < |s.st|
  {
    s.(lock := FREE, st := s.st[np := Runnable], pc := s.pc[np := Away(Elsewhere)][t := Pc.Free])
  }

  function PassOn(s: State, t: nat, i: nat): State
    requires Shape(s) && t < |s.st| && i < |s.st|
  {
    At(s, t, if s.st[i] == Zombie then ExitWakeInit(i, 0) else ExitPass(i + 1)).(parent := s.parent[i := INIT])
  }

  function Die(s: State, t: nat): State
    requires Shape(s) && t < |s.st|
  {
    At(s, t, Leave(Never)).(st := s.st[t := Zombie], exited := s.exited + [s.pid[t]])
  }

  function Reap(s: State, t: nat, i: nat): State
    requires Shape(s) && t < |s.st| && i < |s.st|
  {
    s.(lock := FREE, st := s.st[i := Unused], parent := s.parent[i := NONE], pid := s.pid[i := 0],
       killed := s.killed[i := false], pc := s.pc[i := Vacant][t := Pc.Free], reaped := s.reaped + [s.pid[i]])
  }

  // ---- the calls ----

  predicate InExit(p: Pc) {
    p.ExitWake? || p.ExitPass? || p.ExitWakeInit? || p.ExitZombie?
  }

  function DoExit(s: State, t: nat): State
    requires Shape(s) && t < |s.st| && InExit(s.pc[t])
  {
    match s.pc[t]
    case ExitWake(i) =>
      if i < |s.st| then At(Wake(s, i, s.parent[t]), t, ExitWake(i + 1)) else At(s, t, ExitPass(0))
    case ExitPass(i) =>
      if i >= |s.st| then At(s, t, ExitZombie)
      else if s.parent[i] != t then At(s, t, ExitPass(i + 1))
      else PassOn(s, t, i)
    case ExitWakeInit(i, j) =>
      if j < |s.st| then At(Wake(s, j, INIT), t, ExitWakeInit(i, j + 1)) else At(s, t, ExitPass(i + 1))
    case ExitZombie => Die(s, t)
    case _ => s
  }

  function DoWait(s: State, t: nat): State
    requires Shape(s) && t < |s.st| && s.pc[t].WaitScan?
  {
    var i, kids := s.pc[t].i, s.pc[t].kids;
    if i < |s.st| then
      if s.parent[i] != t then At(s, t, WaitScan(i + 1, kids))
      else if s.st[i] != Zombie then At(s, t, WaitScan(i + 1, true))
      else Reap(s, t, i)
    else if !kids || s.killed[t] then At(s, t, Pc.Free).(lock := FREE)
    else At(s, t, Leave(InWait)).(chan := s.chan[t := t], st := s.st[t := Sleeping])
  }

  predicate InFork(p: Pc) {
    p.ForkScan? || p.ForkStack? || p.ForkCopy? || p.ForkParent? || p.ForkLock? || p.ForkReady?
  }

  /** ok: whether kalloc or copyuvm finds memory. */
  function DoFork(s: State, t: nat, ok: bool): State
    requires Shape(s) && t < |s.st| && InFork(s.pc[t])
    requires !s.pc[t].ForkScan? ==> s.pc[t].np < |s.st|
  {
    match s.pc[t]
    case ForkScan(i) =>
      if i >= |s.st| then At(s, t, Pc.Free).(lock := FREE)
      else if s.st[i] != Unused then At(s, t, ForkScan(i + 1))
      else Allocate(s, t, i)
    case ForkStack(np) => if ok then At(s, t, ForkCopy(np)) else Abandon(s, t, np)
    case ForkCopy(np) => if ok then At(s, t, ForkParent(np)) else Abandon(s, t, np)
    case ForkParent(np) => Adopt(s, t, np)
    case ForkLock(np) => At(s, t, ForkReady(np)).(lock := t)
    case ForkReady(np) => Start(s, t, np)
    case _ => s
  }

  function DoSwitch(s: State, t: nat): State
    requires Shape(s) && t < |s.st| && (s.pc[t].Leave? || s.pc[t].Back?)
  {
    match s.pc[t]
    case Leave(k) => At(s, t, Away(k)).(lock := SCHEDULER)
    case Back(k) =>
      if k.InWait? then At(s, t, WaitScan(0, false)).(chan := s.chan[t := NONE])
      else At(s, t, Pc.Free).(lock := FREE, chan := s.chan[t := NONE])
    case _ => s
  }

  datatype Event =
    | Exit(t: nat)
    | Wait(t: nat)
    | Fork(t: nat)
    | Yield(t: nat)
    | Sleep(t: nat, chan: int) // on anything but a process
    | Go(t: nat, ok: bool) // the call goes on
    | Wakeup(chan: int) // a whole wakeup() by someone, not on a process
    | Kill(t: nat) // a whole kill(), which looks for a pid, whatever the state, and finds slot t first
    | TakeLock // a scheduler starts over the table
    | DropLock
    | Dispatch(t: nat)

  predicate Calls(s: State, t: nat) {
    Shape(s) && t < |s.st| && s.pc[t] == Pc.Free && s.lock == FREE
  }

  predicate FoundFirst(s: State, t: nat)
    requires Shape(s) && t < |s.st|
  {
    forall u :: 0 <= u < t ==> s.pid[u] != s.pid[t]
  }

  predicate Enabled(s: State, e: Event) {
    Shape(s) &&
    match e
    case Exit(t) => Calls(s, t) && t != INIT // init panics
    case Wait(t) => Calls(s, t)
    case Fork(t) => Calls(s, t)
    case Yield(t) => Calls(s, t)
    case Sleep(t, c) => Calls(s, t) && c >= |s.st|
    case Go(t, _) =>
      t < |s.st| && (s.pc[t].ForkLock? ==> s.lock == FREE)
      && (InFork(s.pc[t]) && !s.pc[t].ForkScan? ==> s.pc[t].np < |s.st|)
      && (InExit(s.pc[t]) || s.pc[t].WaitScan? || InFork(s.pc[t]) || s.pc[t].Leave? || s.pc[t].Back?)
    case Wakeup(c) => s.lock == FREE && c >= |s.st|
    case Kill(t) => s.lock == FREE && t < |s.st| && FoundFirst(s, t)
    case TakeLock => s.lock == FREE
    case DropLock => s.lock == SCHEDULER
    case Dispatch(t) => s.lock == SCHEDULER && t < |s.st| && s.st[t] == Runnable && s.pc[t].Away?
  }

  function WakeAll(st: seq<RunState>, chan: seq<int>, c: int): (r: seq<RunState>)
    requires |st| == |chan|
    ensures |r| == |st|
    ensures forall i :: 0 <= i < |st| ==> r[i] == if st[i] == Sleeping && chan[i] == c then Runnable else st[i]
  {
    seq(|st|, i requires 0 <= i < |st| => if st[i] == Sleeping && chan[i] == c then Runnable else st[i])
  }

  function Do(s: State, e: Event): State
    requires Enabled(s, e)
  {
    match e
    case Exit(t) => At(s, t, ExitWake(0)).(lock := t)
    case Wait(t) => At(s, t, WaitScan(0, false)).(lock := t)
    case Fork(t) => At(s, t, ForkScan(0)).(lock := t)
    case Yield(t) => At(s, t, Leave(Elsewhere)).(lock := t, st := s.st[t := Runnable])
    case Sleep(t, c) => At(s, t, Leave(Elsewhere)).(lock := t, st := s.st[t := Sleeping], chan := s.chan[t := c])
    case Go(t, ok) =>
      if InExit(s.pc[t]) then DoExit(s, t)
      else if s.pc[t].WaitScan? then DoWait(s, t)
      else if InFork(s.pc[t]) then DoFork(s, t, ok)
      else DoSwitch(s, t)
    case Wakeup(c) => s.(st := WakeAll(s.st, s.chan, c))
    case Kill(t) =>
      s.(killed := s.killed[t := true], st := if s.st[t] == Sleeping then s.st[t := Runnable] else s.st)
    case TakeLock => s.(lock := SCHEDULER)
    case DropLock => s.(lock := FREE)
    case Dispatch(t) => At(s, t, Back(s.pc[t].k)).(lock := t, st := s.st[t := Running])
  }

  predicate StepAt(run: seq<State>, events: seq<Event>, i: nat) {
    i < |events| && i + 1 < |run| && Enabled(run[i], events[i]) && run[i + 1] == Do(run[i], events[i])
  }

  /** The states of a run, one before each event and one after the last. */
  ghost predicate Run(run: seq<State>, events: seq<Event>) {
    && |run| == |events| + 1 && Init(run[0])
    && (forall i: nat :: i < |events| ==> StepAt(run, events, i))
  }

  /** After userinit: the first process, ready to run. */
  predicate Init(s: State) {
    && Shape(s) && s.lock == FREE && s.nextpid == 2 && s.exited == s.reaped == []
    && s.st[INIT] == Runnable && s.pid[INIT] == 1 && s.pc[INIT] == Away(Elsewhere)
    && (forall t :: 0 <= t < |s.st| ==> s.parent[t] == s.chan[t] == NONE && !s.killed[t])
    && (forall t :: 0 < t < |s.st| ==> s.st[t] == Unused && s.pc[t] == Vacant && s.pid[t] == 0)
  }

  // ---- the invariant ----

  predicate HoldsLock(p: Pc) {
    p.ExitWake? || p.ExitPass? || p.ExitWakeInit? || p.ExitZombie? || p.WaitScan? || p.ForkScan? || p.ForkReady?
    || p.Leave? || p.Back?
  }

  predicate StateOk(p: Pc, r: RunState) {
    match p
    case Vacant => r == Unused || r == Embryo
    case Leave(k) => if k.Never? then r == Zombie else r == Sleeping || r == Runnable
    case Away(k) => if k.Never? then r == Zombie else r == Sleeping || r == Runnable
    case Back(k) => r == Running && !k.Never?
    case _ => r == Running
  }

  predicate OffIn(p: Pc, k: Resume) {
    p == Leave(k) || p == Away(k)
  }

  /** Program counters, run states, channels and ptable.lock fit together. */
  predicate LockOk(s: State, t: nat)
    requires Shape(s) && t < |s.st|
  {
    && (HoldsLock(s.pc[t]) <==> s.lock == t)
    && StateOk(s.pc[t], s.st[t])
    && (OffIn(s.pc[t], InWait) ==> s.chan[t] == t)
    && (s.st[t] == Sleeping && !OffIn(s.pc[t], InWait) ==> s.chan[t] >= |s.st|)
    && (InExit(s.pc[t]) || s.st[t] == Zombie ==> t != INIT)
  }

  predicate Making(p: Pc, np: nat) {
    p == ForkStack(np) || p == ForkCopy(np) || p == ForkParent(np) || p == ForkLock(np) || p == ForkReady(np)
  }

  predicate Makes(p: Pc) {
    InFork(p) && !p.ForkScan?
  }

  /** Each embryo has one maker, and has its parent set once the maker is past that. */
  predicate MakerOk(s: State, t: nat)
    requires Shape(s) && t < |s.st|
  {
    Makes(s.pc[t]) ==>
      var np := s.pc[t].np;
      && np < |s.st| && s.st[np] == Embryo && s.maker[np] == t
      && s.parent[np] == if s.pc[t].ForkLock? || s.pc[t].ForkReady? then t else NONE
  }

  predicate EmbryoOk(s: State, t: nat)
    requires Shape(s) && t < |s.st|
  {
    && (s.st[t] == Embryo ==> 0 <= s.maker[t] < |s.st| && Making(s.pc[s.maker[t]], t))
    && (s.st[t] == Unused ==> s.parent[t] == NONE)
    && (t == INIT ==> s.st[t] != Unused && s.st[t] != Embryo && s.parent[t] == NONE)
  }

  predicate ForkOk(s: State, t: nat)
    requires Shape(s) && t < |s.st|
  {
    MakerOk(s, t) && EmbryoOk(s, t)
  }

  predicate Live(r: RunState) {
    r == Sleeping || r == Runnable || r == Running
  }

  /** A process other than init has a live parent; an embryo, once its parent is set. */
  predicate ParentOk(s: State, q: nat)
    requires Shape(s) && q < |s.st|
  {
    && (s.parent[q] == NONE || (0 <= s.parent[q] < |s.st| && s.parent[q] != q && Live(s.st[s.parent[q]])))
    && (q != INIT && s.st[q] != Unused && s.st[q] != Embryo ==> s.parent[q] != NONE)
  }

  /** The children an exiting process has passed on so far. */
  predicate PassedOk(s: State, t: nat, q: nat)
    requires Shape(s) && t < |s.st| && q < |s.st|
  {
    match s.pc[t]
    case ExitPass(i) => q < i ==> s.parent[q] != t
    case ExitWakeInit(i, _) => q <= i ==> s.parent[q] != t
    case ExitZombie => s.parent[q] != t
    case _ => true
  }

  predicate AsleepInWait(s: State, p: nat)
    requires Shape(s) && p < |s.st|
  {
    s.st[p] == Sleeping && OffIn(s.pc[p], InWait)
  }

  /** init may sleep with a zombie child while the process that passed the child on is about to wake it. */
  predicate WakingInit(s: State) {
    Shape(s) && 0 <= s.lock < |s.st| && s.pc[s.lock].ExitWakeInit? && s.pc[s.lock].j == 0
  }

  predicate WaitOk(s: State, p: nat, z: nat)
    requires Shape(s) && p < |s.st| && z < |s.st|
  {
    AsleepInWait(s, p) && s.parent[z] == p && s.st[z] == Zombie ==> p == INIT && WakingInit(s)
  }

  /** An exiting process woke its parent, and nobody falls asleep while it has ptable.lock. */
  predicate AwakeOk(s: State, e: nat, p: nat)
    requires Shape(s) && e < |s.st| && p < |s.st|
  {
    s.parent[e] == p && InExit(s.pc[e]) && (s.pc[e].ExitWake? ==> p < s.pc[e].i) ==> !AsleepInWait(s, p)
  }

  /** What wait's scan saw stays so until it sleeps. */
  predicate SeenOk(s: State, t: nat, z: nat)
    requires Shape(s) && t < |s.st| && z < |s.st|
  {
    s.pc[t].WaitScan? && z < s.pc[t].i && s.parent[z] == t ==> s.st[z] != Zombie && s.pc[t].kids
  }

  predicate PairOk(s: State, t: nat, u: nat)
    requires Shape(s) && t < |s.st| && u < |s.st|
  {
    PassedOk(s, t, u) && WaitOk(s, t, u) && AwakeOk(s, t, u) && SeenOk(s, t, u)
  }

  predicate PidOk(s: State, t: nat, u: nat)
    requires Shape(s) && t < |s.st| && u < |s.st|
  {
    && s.pid[t] < s.nextpid
    && (s.st[t] != Unused && s.st[u] != Unused && s.pid[t] == s.pid[u] ==> t == u)
  }

  /** A pid is in exited from when its process becomes a zombie, and in reaped from when wait returns it. */
  predicate HistoryOk(s: State, t: nat)
    requires Shape(s) && t < |s.st|
  {
    && (s.st[t] == Zombie ==> s.pid[t] in s.exited && s.pid[t] !in s.reaped)
    && (s.st[t] != Zombie && s.st[t] != Unused ==> s.pid[t] !in s.exited)
  }

  predicate IsZombie(s: State, k: nat, z: nat) {
    Shape(s) && z < |s.st| && s.st[z] == Zombie && s.pid[z] == k
  }

  ghost predicate ListsOk(s: State) {
    && (forall i, j :: 0 <= i < j < |s.exited| ==> s.exited[i] != s.exited[j])
    && (forall i, j :: 0 <= i < j < |s.reaped| ==> s.reaped[i] != s.reaped[j])
    && (forall k :: k in s.reaped ==> k in s.exited)
    && (forall k :: k in s.exited ==> k < s.nextpid && (k in s.reaped || exists z: nat :: IsZombie(s, k, z)))
  }

  ghost predicate Inv(s: State) {
    && Shape(s) && (s.lock == FREE || s.lock == SCHEDULER || 0 <= s.lock < |s.st|)
    && (forall t: nat :: t < |s.st| ==> LockOk(s, t))
    && (forall t: nat :: t < |s.st| ==> ForkOk(s, t))
    && (forall t: nat :: t < |s.st| ==> ParentOk(s, t))
    && (forall t: nat, u: nat :: t < |s.st| && u < |s.st| ==> PairOk(s, t, u))
    && (forall t: nat, u: nat :: t < |s.st| && u < |s.st| ==> PidOk(s, t, u))
    && (forall t: nat :: t < |s.st| ==> HistoryOk(s, t))
    && ListsOk(s)
  }

  // ---- ptable.lock ----

  /** What a step leaves alone, but for a wakeup, is as good as it was. */
  lemma Untouched(s: State, s': State, u: nat)
    requires Shape(s) && Shape(s') && |s'.st| == |s.st| && u < |s.st| && LockOk(s, u)
    requires s'.pc[u] == s.pc[u] && s'.chan[u] == s.chan[u] && (s'.lock == u <==> s.lock == u)
    requires s'.st[u] == s.st[u] || (s.st[u] == Sleeping && s'.st[u] == Runnable)
    ensures LockOk(s', u)
  {}

  lemma LockKeptExit(s: State, t: nat, u: nat)
    requires Shape(s) && t < |s.st| && u < |s.st| && InExit(s.pc[t]) && LockOk(s, t) && LockOk(s, u)
    ensures Shape(DoExit(s, t)) && u < |DoExit(s, t).st| && LockOk(DoExit(s, t), u)
  {
    if u != t {
      Untouched(s, DoExit(s, t), u);
    } else {
      LockExiting(s, t);
    }
  }

  lemma LockExiting(s: State, t: nat)
    requires Shape(s) && t < |s.st| && InExit(s.pc[t]) && LockOk(s, t)
    ensures Shape(DoExit(s, t)) && t < |DoExit(s, t).st| && LockOk(DoExit(s, t), t)
  {
    var s' := DoExit(s, t);
    match s.pc[t]
    case ExitWake(_) => assert LockOk(s', t);
    case ExitPass(_) => assert LockOk(s', t);
    case ExitWakeInit(_, _) => assert LockOk(s', t);
    case ExitZombie => assert LockOk(s', t);
    case _ =>
  }

  lemma LockKeptSwitch(s: State, t: nat, u: nat)
    requires Shape(s) && t < |s.st| && u < |s.st| && (s.pc[t].Leave? || s.pc[t].Back?) && LockOk(s, t) && LockOk(s, u)
    ensures Shape(DoSwitch(s, t)) && u < |DoSwitch(s, t).st| && LockOk(DoSwitch(s, t), u)
  {
    var s' := DoSwitch(s, t);
    if u != t {
      Untouched(s, s', u);
      return;
    }
    match s.pc[t]
    case Leave(_) => assert LockOk(s', u);
    case Back(_) => assert LockOk(s', u);
    case _ =>
  }

  lemma LockKeptWait(s: State, t: nat, u: nat)
    requires Shape(s) && t < |s.st| && u < |s.st| && s.pc[t].WaitScan? && LockOk(s, t) && LockOk(s, u)
    requires s.pc[t].i < |s.st| ==> LockOk(s, s.pc[t].i)
    ensures Shape(DoWait(s, t)) && u < |DoWait(s, t).st| && LockOk(DoWait(s, t), u)
  {
    var i, s' := s.pc[t].i, DoWait(s, t);
    if i < |s.st| {
      assert LockOk(s', u);
    } else {
      assert LockOk(s', u);
    }
  }

  lemma AllocateLock(s: State, t: nat, i: nat, u: nat)
    requires Shape(s) && t < |s.st| && i < |s.st| && u < |s.st| && LockOk(s, t) && LockOk(s, i) && LockOk(s, u)
    requires s.pc[t].ForkScan? && s.st[i] == Unused && MakerOk(s, t)
    ensures Shape(Allocate(s, t, i)) && u < |Allocate(s, t, i).st| && LockOk(Allocate(s, t, i), u)
  {}

  lemma AbandonLock(s: State, t: nat, np: nat, u: nat)
    requires Shape(s) && t < |s.st| && np < |s.st| && u < |s.st| && LockOk(s, t) && LockOk(s, np) && LockOk(s, u)
    requires (s.pc[t] == ForkStack(np) || s.pc[t] == ForkCopy(np)) && MakerOk(s, t)
    ensures Shape(Abandon(s, t, np)) && u < |Abandon(s, t, np).st| && LockOk(Abandon(s, t, np), u)
  {}

  lemma AdoptLock(s: State, t: nat, np: nat, u: nat)
    requires Shape(s) && t < |s.st| && np < |s.st| && u < |s.st| && LockOk(s, t) && LockOk(s, np) && LockOk(s, u)
    requires s.pc[t] == ForkParent(np) && MakerOk(s, t)
    ensures Shape(Adopt(s, t, np)) && u < |Adopt(s, t, np).st| && LockOk(Adopt(s, t, np), u)
  {}

  lemma StartLock(s: State, t: nat, np: nat, u: nat)
    requires Shape(s) && t < |s.st| && np < |s.st| && u < |s.st| && LockOk(s, t) && LockOk(s, np) && LockOk(s, u)
    requires s.pc[t] == ForkReady(np) && MakerOk(s, t)
    ensures Shape(Start(s, t, np)) && u < |Start(s, t, np).st| && LockOk(Start(s, t, np), u)
  {}

  /** The caller goes on with the same locks and run state. */
  lemma MoveLock(s: State, t: nat, p: Pc, u: nat)
    requires Shape(s) && t < |s.st| && u < |s.st| && LockOk(s, t) && LockOk(s, u) && InFork(s.pc[t]) && InFork(p)
    requires HoldsLock(p) <==> HoldsLock(s.pc[t])
    ensures LockOk(At(s, t, p), u)
  {}

  lemma ScanEndLock(s: State, t: nat, u: nat)
    requires Shape(s) && t < |s.st| && u < |s.st| && LockOk(s, t) && LockOk(s, u) && s.pc[t].ForkScan?
    ensures LockOk(At(s, t, Pc.Free).(lock := FREE), u)
  {}

  lemma RelockLock(s: State, t: nat, np: nat, u: nat)
    requires Shape(s) && t < |s.st| && u < |s.st| && LockOk(s, t) && LockOk(s, u)
    requires s.pc[t] == ForkLock(np) && s.lock == FREE
    ensures LockOk(At(s, t, ForkReady(np)).(lock := t), u)
  {}

  lemma LockKeptFork(s: State, t: nat, ok: bool, u: nat)
    requires Shape(s) && t < |s.st| && u < |s.st| && InFork(s.pc[t]) && (Makes(s.pc[t]) ==> s.pc[t].np < |s.st|)
    requires LockOk(s, t) && LockOk(s, u) && (s.pc[t].ForkLock? ==> s.lock == FREE) && MakerOk(s, t)
    requires Makes(s.pc[t]) ==> LockOk(s, s.pc[t].np)
    requires s.pc[t].ForkScan? && s.pc[t].i < |s.st| ==> LockOk(s, s.pc[t].i)
    ensures Shape(DoFork(s, t, ok)) && u < |DoFork(s, t, ok).st| && LockOk(DoFork(s, t, ok), u)
  {
    hide Allocate, Abandon, Adopt, Start, LockOk, MakerOk;
    var s' := DoFork(s, t, ok);
    match s.pc[t]
    case ForkScan(i) =>
      if i < |s.st| && s.st[i] == Unused {
        AllocateLock(s, t, i, u);
      } else if i < |s.st| {
        MoveLock(s, t, ForkScan(i + 1), u);
      } else {
        ScanEndLock(s, t, u);
      }
    case ForkStack(np) =>
      if ok {
        MoveLock(s, t, ForkCopy(np), u);
      } else {
        AbandonLock(s, t, np, u);
      }
    case ForkCopy(np) =>
      if ok {
        MoveLock(s, t, ForkParent(np), u);
      } else {
        AbandonLock(s, t, np, u);
      }
    case ForkParent(np) => AdoptLock(s, t, np, u);
    case ForkLock(np) => RelockLock(s, t, np, u);
    case ForkReady(np) => StartLock(s, t, np, u);
    case _ =>
  }

  lemma LockKeptOther(s: State, e: Event, u: nat)
    requires Enabled(s, e) && !e.Go? && u < |s.st| && LockOk(s, u)
    requires (e.Exit? || e.Wait? || e.Fork? || e.Yield? || e.Sleep? || e.Kill? || e.Dispatch?) ==> LockOk(s, e.t)
    ensures Shape(Do(s, e)) && u < |Do(s, e).st| && LockOk(Do(s, e), u)
  {
    var s' := Do(s, e);
    if e.Wakeup? || e.TakeLock? || e.DropLock? || u != e.t {
      Untouched(s, s', u);
      return;
    }
    match e
    case Exit(_) => assert LockOk(s', u);
    case Wait(_) => assert LockOk(s', u);
    case Fork(_) => assert LockOk(s', u);
    case Yield(_) => assert LockOk(s', u);
    case Sleep(_, _) => assert LockOk(s', u);
    case Kill(_) => assert LockOk(s', u);
    case Dispatch(_) => assert LockOk(s', u);
    case _ =>
  }

  // ---- steps that make, start, pass on, end or remove no process ----

  predicate Quiet(s: State, e: Event)
    requires Enabled(s, e)
  {
    e.Go? ==>
      var t := e.t;
      match s.pc[t]
      case ExitPass(i) => i < |s.st| ==> s.parent[i] != t
      case ExitZombie => false
      case WaitScan(i, _) => i < |s.st| && s.parent[i] == t ==> s.st[i] != Zombie
      case ForkScan(i) => i < |s.st| ==> s.st[i] != Unused
      case ForkStack(_) => e.ok
      case ForkCopy(_) => e.ok
      case ForkParent(_) => false
      case ForkReady(_) => false
      case _ => true
  }

  /** What the pc of a maker says about its embryo: the slot, and whether the parent is set. */
  datatype Craft = NoCraft | Craft(np: nat, adopted: bool)

  function CraftOf(p: Pc): Craft {
    if Makes(p) then Craft(p.np, p.ForkLock? || p.ForkReady?) else NoCraft
  }

  predicate SameKind(a: RunState, b: RunState) {
    a == b || (Live(a) && Live(b))
  }

  /** Nothing that identifies processes changed. */
  ghost predicate SameTable(s: State, s': State) {
    && Shape(s) && Shape(s') && |s'.st| == |s.st|
    && s'.parent == s.parent && s'.pid == s.pid && s'.maker == s.maker && s'.nextpid == s.nextpid
    && s'.exited == s.exited && s'.reaped == s.reaped
    && (forall u: nat :: u < |s.st| ==> SameKind(s.st[u], s'.st[u]) && CraftOf(s'.pc[u]) == CraftOf(s.pc[u]))
  }

  lemma QuietIs(s: State, e: Event)
    requires Enabled(s, e) && Quiet(s, e)
    requires !e.Wakeup? && !e.TakeLock? && !e.DropLock? ==> LockOk(s, e.t)
    ensures SameTable(s, Do(s, e))
  {
    if e.Go? {
      if InExit(s.pc[e.t]) {
        QuietExit(s, e.t, e.ok);
      } else if s.pc[e.t].WaitScan? {
        QuietWait(s, e.t, e.ok);
      } else if InFork(s.pc[e.t]) {
        QuietFork(s, e.t, e.ok);
      } else {
        QuietSwitch(s, e.t, e.ok);
      }
    } else {
      QuietOther(s, e);
    }
  }

  lemma QuietExit(s: State, t: nat, ok: bool)
    requires Enabled(s, Go(t, ok)) && Quiet(s, Go(t, ok)) && LockOk(s, t) && InExit(s.pc[t])
    ensures SameTable(s, DoExit(s, t))
  {
    var s' := DoExit(s, t);
    match s.pc[t]
    case ExitWake(_) => assert SameTable(s, s');
    case ExitPass(_) => assert SameTable(s, s');
    case ExitWakeInit(_, _) => assert SameTable(s, s');
    case _ =>
  }

  lemma QuietWait(s: State, t: nat, ok: bool)
    requires Enabled(s, Go(t, ok)) && Quiet(s, Go(t, ok)) && LockOk(s, t) && s.pc[t].WaitScan?
    ensures SameTable(s, DoWait(s, t))
  {}

  lemma QuietFork(s: State, t: nat, ok: bool)
    requires Enabled(s, Go(t, ok)) && Quiet(s, Go(t, ok)) && LockOk(s, t) && InFork(s.pc[t])
    ensures SameTable(s, DoFork(s, t, ok))
  {
    var s' := DoFork(s, t, ok);
    match s.pc[t]
    case ForkScan(_) => assert SameTable(s, s');
    case ForkStack(_) => assert SameTable(s, s');
    case ForkCopy(_) => assert SameTable(s, s');
    case ForkLock(_) => assert SameTable(s, s');
    case _ =>
  }

  lemma QuietSwitch(s: State, t: nat, ok: bool)
    requires Enabled(s, Go(t, ok)) && LockOk(s, t) && (s.pc[t].Leave? || s.pc[t].Back?)
    ensures SameTable(s, DoSwitch(s, t))
  {}

  lemma QuietOther(s: State, e: Event)
    requires Enabled(s, e) && !e.Go?
    requires !e.Wakeup? && !e.TakeLock? && !e.DropLock? ==> LockOk(s, e.t)
    ensures SameTable(s, Do(s, e))
  {
    var s' := Do(s, e);
    match e
    case Exit(_) | Wait(_) | Fork(_) => assert SameTable(s, s');
    case Yield(_) | Sleep(_, _) => assert SameTable(s, s');
    case Wakeup(_) => assert SameTable(s, s');
    case Kill(_) => assert SameTable(s, s');
    case Dispatch(_) => assert SameTable(s, s');
    case TakeLock | DropLock => assert SameTable(s, s');
    case Go(_, _) =>
  }

  lemma QuietKeeps(s: State, s': State, u: nat)
    requires SameTable(s, s') && u < |s.st| && ForkOk(s, u) && ParentOk(s, u) && HistoryOk(s, u)
    ensures ForkOk(s', u) && ParentOk(s', u) && HistoryOk(s', u)
  {}

  lemma QuietPids(s: State, s': State, t: nat, u: nat)
    requires SameTable(s, s') && t < |s.st| && u < |s.st| && PidOk(s, t, u)
    ensures PidOk(s', t, u)
  {}

  lemma QuietLists(s: State, s': State)
    requires SameTable(s, s') && ListsOk(s)
    ensures ListsOk(s')
  {
    forall k | k in s'.exited ensures k < s'.nextpid && (k in s'.reaped || exists z: nat :: IsZombie(s', k, z)) {
      if k !in s.reaped {
        var z: nat :| IsZombie(s, k, z);
        assert SameKind(s.st[z], s'.st[z]);
        assert IsZombie(s', k, z);
      }
    }
  }

  // ---- each of the other steps ----

  predicate SlotOk(s: State, u: nat)
    requires Shape(s) && u < |s.st|
  {
    ForkOk(s, u) && ParentOk(s, u) && HistoryOk(s, u)
  }

  lemma AllocateKeeps(s: State, t: nat, i: nat, u: nat)
    requires Shape(s) && t < |s.st| && i < |s.st| && u < |s.st| && s.pc[t].ForkScan? && s.st[i] == Unused
    requires SlotOk(s, u) && SlotOk(s, t) && SlotOk(s, i) && Live(s.st[t]) && s.nextpid !in s.exited
    requires s.parent[u] != i
    ensures SlotOk(Allocate(s, t, i), u)
  {}

  lemma AbandonKeeps(s: State, t: nat, np: nat, u: nat)
    requires Shape(s) && t < |s.st| && np < |s.st| && u < |s.st|
              && (s.pc[t] == ForkStack(np) || s.pc[t] == ForkCopy(np))
    requires SlotOk(s, u) && SlotOk(s, t) && SlotOk(s, np)
    requires Makes(s.pc[u]) && s.pc[u].np == np ==> u == t
    requires s.parent[u] != np
    ensures SlotOk(Abandon(s, t, np), u)
  {}

  lemma AdoptKeeps(s: State, t: nat, np: nat, u: nat)
    requires Shape(s) && t < |s.st| && np < |s.st| && u < |s.st| && s.pc[t] == ForkParent(np)
    requires SlotOk(s, u) && SlotOk(s, t) && SlotOk(s, np) && Live(s.st[t])
    requires Makes(s.pc[u]) && s.pc[u].np == np ==> u == t
    ensures SlotOk(Adopt(s, t, np), u)
  {}

  lemma StartKeeps(s: State, t: nat, np: nat, u: nat)
    requires Shape(s) && t < |s.st| && np < |s.st| && u < |s.st| && s.pc[t] == ForkReady(np)
    requires SlotOk(s, u) && SlotOk(s, t) && SlotOk(s, np) && s.pc[np] == Vacant
    requires Makes(s.pc[u]) && s.pc[u].np == np ==> u == t
    ensures SlotOk(Start(s, t, np), u)
  {}

  lemma PassOnKeeps(s: State, t: nat, i: nat, u: nat)
    requires Shape(s) && t < |s.st| && i < |s.st| && u < |s.st| && InExit(s.pc[t]) && s.parent[i] == t
    requires SlotOk(s, u) && SlotOk(s, t) && SlotOk(s, i) && Live(s.st[INIT])
    requires s.st[i] == Embryo ==> false
    requires Makes(s.pc[u]) && s.pc[u].np < |s.st| ==> s.pc[u].np != i
    ensures SlotOk(PassOn(s, t, i), u)
  {}

  lemma DieKeeps(s: State, t: nat, u: nat)
    requires Shape(s) && t < |s.st| && u < |s.st| && s.pc[t].ExitZombie? && s.st[t] == Running && t != INIT
    requires SlotOk(s, u) && SlotOk(s, t) && s.parent[u] != t && s.pid[t] !in s.reaped
    requires u != t && s.st[u] != Unused ==> s.pid[u] != s.pid[t]
    ensures SlotOk(Die(s, t), u)
  {}

  lemma ReapKeeps(s: State, t: nat, i: nat, u: nat)
    requires Shape(s) && t < |s.st| && i < |s.st| && u < |s.st| && s.pc[t].WaitScan? && s.st[i] == Zombie && i != INIT
    requires SlotOk(s, u) && SlotOk(s, t) && SlotOk(s, i) && t != i && !Makes(s.pc[i])
    requires s.parent[u] != i
    requires u != i && s.st[u] != Unused ==> s.pid[u] != s.pid[i]
    ensures SlotOk(Reap(s, t, i), u)
  {}

  lemma PidsKeep(s: State, e: Event, t: nat, u: nat)
    requires Enabled(s, e) && !Quiet(s, e) && t < |s.st| && u < |s.st|
    requires PidOk(s, t, u) && PidOk(s, u, t) && MakerOk(s, e.t) && StateOk(s.pc[e.t], s.st[e.t])
    requires s.pid[t] < s.nextpid && s.pid[u] < s.nextpid
    requires s.nextpid > 0
    ensures Shape(Do(s, e)) && t < |Do(s, e).st| && u < |Do(s, e).st| && PidOk(Do(s, e), t, u) && Do(s, e).nextpid > 0
  {
    var s' := Do(s, e);
    match s.pc[e.t]
    case ExitPass(_) => assert PidOk(s', t, u);
    case ExitZombie => assert PidOk(s', t, u);
    case WaitScan(_, _) => assert PidOk(s', t, u);
    case ForkScan(_) => assert PidOk(s', t, u);
    case ForkStack(_) | ForkCopy(_) => assert PidOk(s', t, u);
    case ForkParent(_) => assert PidOk(s', t, u);
    case ForkReady(_) => assert PidOk(s', t, u);
    case _ =>
  }

  /** The lists only change when a process dies or is reaped. */
  lemma ListsSame(s: State, s': State)
    requires Shape(s) && Shape(s') && |s'.st| == |s.st| && ListsOk(s)
    requires s'.exited == s.exited && s'.reaped == s.reaped && s'.nextpid >= s.nextpid
    requires forall z: nat :: z < |s.st| && s.st[z] == Zombie ==> s'.st[z] == Zombie && s'.pid[z] == s.pid[z]
    ensures ListsOk(s')
  {
    forall k | k in s'.exited ensures k < s'.nextpid && (k in s'.reaped || exists z: nat :: IsZombie(s', k, z)) {
      if k !in s.reaped {
        var z: nat :| IsZombie(s, k, z);
        assert IsZombie(s', k, z);
      }
    }
  }

  lemma OtherLists(s: State, e: Event)
    requires Enabled(s, e) && !Quiet(s, e) && !s.pc[e.t].ExitZombie? && !s.pc[e.t].WaitScan?
    requires MakerOk(s, e.t) && ListsOk(s)
    ensures ListsOk(Do(s, e))
  {
    hide ListsOk;
    match s.pc[e.t]
    case ExitPass(_) => ListsSame(s, Do(s, e));
    case ForkScan(_) => ListsSame(s, Do(s, e));
    case ForkStack(_) | ForkCopy(_) => ListsSame(s, Do(s, e));
    case ForkParent(_) | ForkReady(_) => ListsSame(s, Do(s, e));
    case _ =>
  }

  lemma DieLists(s: State, t: nat)
    requires Shape(s) && t < |s.st| && ListsOk(s) && s.pid[t] !in s.exited && s.pid[t] < s.nextpid && s.st[t] == Running
    ensures ListsOk(Die(s, t))
  {
    var s' := Die(s, t);
    forall k | k in s'.exited ensures k < s'.nextpid && (k in s'.reaped || exists z: nat :: IsZombie(s', k, z)) {
      if k == s.pid[t] {
        assert IsZombie(s', k, t);
      } else if k !in s.reaped {
        var z: nat :| IsZombie(s, k, z);
        assert IsZombie(s', k, z);
      }
    }
  }

  lemma ReapLists(s: State, t: nat, i: nat)
    requires Shape(s) && t < |s.st| && i < |s.st| && ListsOk(s) && s.st[i] == Zombie && HistoryOk(s, i)
    ensures ListsOk(Reap(s, t, i))
  {
    var s' := Reap(s, t, i);
    forall k | k in s'.exited ensures k < s'.nextpid && (k in s'.reaped || exists z: nat :: IsZombie(s', k, z)) {
      if k == s.pid[i] {
        assert s'.reaped[|s.reaped|] == k;
      } else if k !in s.reaped {
        var z: nat :| IsZombie(s, k, z);
        assert IsZombie(s', k, z);
      } else {
        var j :| 0 <= j < |s.reaped| && s.reaped[j] == k;
        assert s'.reaped[j] == k;
      }
    }
  }

  // ---- waiting and waking ----

  lemma InitStays(s: State, a: nat)
    requires Shape(s) && a < |s.st| && LockOk(s, a)
    ensures a != INIT || !InExit(s.pc[a])
  {}

  lemma PassedKeptExit(s: State, t: nat, a: nat, b: nat)
    requires Shape(s) && t < |s.st| && a < |s.st| && b < |s.st| && PassedOk(s, a, b)
    requires a != INIT || !InExit(s.pc[a])
    requires InExit(s.pc[t])
    ensures Shape(DoExit(s, t)) && |DoExit(s, t).st| == |s.st| && PassedOk(DoExit(s, t), a, b)
  {
    var s' := DoExit(s, t);
    match s.pc[t]
    case ExitWake(_) => assert PassedOk(s', a, b);
    case ExitPass(_) => assert PassedOk(s', a, b);
    case ExitWakeInit(_, _) => assert PassedOk(s', a, b);
    case ExitZombie => assert PassedOk(s', a, b);
    case _ =>
  }

  lemma WaitKeptExitWake(s: State, t: nat, a: nat, b: nat)
    requires Shape(s) && t < |s.st| && a < |s.st| && b < |s.st| && WaitOk(s, a, b) && AwakeOk(s, b, a)
    requires LockOk(s, t) && LockOk(s, a) && LockOk(s, b)
    requires 0 <= s.lock < |s.st| ==> LockOk(s, s.lock)
    requires InExit(s.pc[t])
    requires s.pc[t].ExitWake? || s.pc[t].ExitWakeInit?
    ensures Shape(DoExit(s, t)) && |DoExit(s, t).st| == |s.st| && WaitOk(DoExit(s, t), a, b)
  {
    var s' := DoExit(s, t);
    match s.pc[t]
    case ExitWake(_) => assert WaitOk(s', a, b);
    case ExitWakeInit(_, _) => assert WaitOk(s', a, b);
    case _ =>
  }

  lemma WaitKeptExitPass(s: State, t: nat, a: nat, b: nat)
    requires Shape(s) && t < |s.st| && a < |s.st| && b < |s.st| && WaitOk(s, a, b) && AwakeOk(s, b, a)
    requires LockOk(s, t) && LockOk(s, a) && LockOk(s, b)
    requires 0 <= s.lock < |s.st| ==> LockOk(s, s.lock)
    requires InExit(s.pc[t])
    requires s.pc[t].ExitPass? || s.pc[t].ExitZombie?
    ensures Shape(DoExit(s, t)) && |DoExit(s, t).st| == |s.st| && WaitOk(DoExit(s, t), a, b)
  {
    var s' := DoExit(s, t);
    match s.pc[t]
    case ExitPass(_) => assert WaitOk(s', a, b);
    case ExitZombie => assert WaitOk(s', a, b);
    case _ =>
  }

  lemma WaitKeptExit(s: State, t: nat, a: nat, b: nat)
    requires Shape(s) && t < |s.st| && a < |s.st| && b < |s.st| && WaitOk(s, a, b) && AwakeOk(s, b, a)
    requires LockOk(s, t) && LockOk(s, a) && LockOk(s, b)
    requires 0 <= s.lock < |s.st| ==> LockOk(s, s.lock)
    requires InExit(s.pc[t])
    ensures Shape(DoExit(s, t)) && |DoExit(s, t).st| == |s.st| && WaitOk(DoExit(s, t), a, b)
  {
    hide DoExit, LockOk, PairOk, ParentOk, WaitOk;
    if s.pc[t].ExitWake? || s.pc[t].ExitWakeInit? {
      WaitKeptExitWake(s, t, a, b);
    } else {
      WaitKeptExitPass(s, t, a, b);
    }
  }

  lemma AwakeKeptExitWake(s: State, t: nat, a: nat, b: nat)
    requires Shape(s) && t < |s.st| && a < |s.st| && b < |s.st| && AwakeOk(s, a, b)
    requires LockOk(s, t) && LockOk(s, a) && LockOk(s, b)
    requires ParentOk(s, a)
    requires InExit(s.pc[t])
    requires s.pc[t].ExitWake? || s.pc[t].ExitWakeInit?
    ensures Shape(DoExit(s, t)) && |DoExit(s, t).st| == |s.st| && AwakeOk(DoExit(s, t), a, b)
  {
    var s' := DoExit(s, t);
    match s.pc[t]
    case ExitWake(_) => assert AwakeOk(s', a, b);
    case ExitWakeInit(_, _) => assert AwakeOk(s', a, b);
    case _ =>
  }

  lemma AwakeKeptExitPass(s: State, t: nat, a: nat, b: nat)
    requires Shape(s) && t < |s.st| && a < |s.st| && b < |s.st| && AwakeOk(s, a, b)
    requires LockOk(s, t) && LockOk(s, a) && LockOk(s, b)
    requires ParentOk(s, a)
    requires InExit(s.pc[t])
    requires s.pc[t].ExitPass? || s.pc[t].ExitZombie?
    ensures Shape(DoExit(s, t)) && |DoExit(s, t).st| == |s.st| && AwakeOk(DoExit(s, t), a, b)
  {
    var s' := DoExit(s, t);
    match s.pc[t]
    case ExitPass(_) => assert AwakeOk(s', a, b);
    case ExitZombie => assert AwakeOk(s', a, b);
    case _ =>
  }

  lemma AwakeKeptExit(s: State, t: nat, a: nat, b: nat)
    requires Shape(s) && t < |s.st| && a < |s.st| && b < |s.st| && AwakeOk(s, a, b)
    requires LockOk(s, t) && LockOk(s, a) && LockOk(s, b)
    requires ParentOk(s, a)
    requires InExit(s.pc[t])
    ensures Shape(DoExit(s, t)) && |DoExit(s, t).st| == |s.st| && AwakeOk(DoExit(s, t), a, b)
  {
    hide DoExit, LockOk, PairOk, ParentOk, AwakeOk;
    if s.pc[t].ExitWake? || s.pc[t].ExitWakeInit? {
      AwakeKeptExitWake(s, t, a, b);
    } else {
      AwakeKeptExitPass(s, t, a, b);
    }
  }

  lemma SeenKeptExit(s: State, t: nat, a: nat, b: nat)
    requires Shape(s) && t < |s.st| && a < |s.st| && b < |s.st| && SeenOk(s, a, b)
    requires LockOk(s, t) && LockOk(s, a) && LockOk(s, b)
    requires InExit(s.pc[t])
    ensures Shape(DoExit(s, t)) && |DoExit(s, t).st| == |s.st| && SeenOk(DoExit(s, t), a, b)
  {
    var s' := DoExit(s, t);
    match s.pc[t]
    case ExitWake(_) => assert SeenOk(s', a, b);
    case ExitPass(_) => assert SeenOk(s', a, b);
    case ExitWakeInit(_, _) => assert SeenOk(s', a, b);
    case ExitZombie => assert SeenOk(s', a, b);
    case _ =>
  }

  lemma PassedKeptWait(s: State, t: nat, a: nat, b: nat)
    requires Shape(s) && t < |s.st| && a < |s.st| && b < |s.st| && PassedOk(s, a, b)
    requires LockOk(s, t) && LockOk(s, a) && LockOk(s, b)
    requires 0 <= s.lock < |s.st| ==> LockOk(s, s.lock)
    requires s.pc[t].WaitScan? && (s.pc[t].i < |s.st| ==> LockOk(s, s.pc[t].i))
    ensures Shape(DoWait(s, t)) && |DoWait(s, t).st| == |s.st| && PassedOk(DoWait(s, t), a, b)
  {
    var i, s' := s.pc[t].i, DoWait(s, t);
    if i < |s.st| {
      assert PassedOk(s', a, b);
    } else {
      assert PassedOk(s', a, b);
    }
  }

  lemma WaitKeptWait(s: State, t: nat, a: nat, b: nat)
    requires Shape(s) && t < |s.st| && a < |s.st| && b < |s.st| && WaitOk(s, a, b) && SeenOk(s, a, b)
    requires LockOk(s, t) && LockOk(s, a) && LockOk(s, b)
    requires 0 <= s.lock < |s.st| ==> LockOk(s, s.lock)
    requires s.pc[t].WaitScan? && (s.pc[t].i < |s.st| ==> LockOk(s, s.pc[t].i))
    ensures Shape(DoWait(s, t)) && |DoWait(s, t).st| == |s.st| && WaitOk(DoWait(s, t), a, b)
  {
    var i, s' := s.pc[t].i, DoWait(s, t);
    if i < |s.st| {
      assert WaitOk(s', a, b);
    } else {
      assert WaitOk(s', a, b);
    }
  }

  lemma AwakeKeptWait(s: State, t: nat, a: nat, b: nat)
    requires Shape(s) && t < |s.st| && a < |s.st| && b < |s.st| && AwakeOk(s, a, b)
    requires LockOk(s, t) && LockOk(s, a) && LockOk(s, b)
    requires 0 <= s.lock < |s.st| ==> LockOk(s, s.lock)
    requires s.pc[t].WaitScan? && (s.pc[t].i < |s.st| ==> LockOk(s, s.pc[t].i))
    ensures Shape(DoWait(s, t)) && |DoWait(s, t).st| == |s.st| && AwakeOk(DoWait(s, t), a, b)
  {
    var i, s' := s.pc[t].i, DoWait(s, t);
    if i < |s.st| {
      assert AwakeOk(s', a, b);
    } else {
      assert AwakeOk(s', a, b);
    }
  }

  lemma SeenKeptWait(s: State, t: nat, a: nat, b: nat)
    requires Shape(s) && t < |s.st| && a < |s.st| && b < |s.st| && SeenOk(s, a, b)
    requires LockOk(s, t) && LockOk(s, a) && LockOk(s, b)
    requires 0 <= s.lock < |s.st| ==> LockOk(s, s.lock)
    requires s.pc[t].WaitScan? && (s.pc[t].i < |s.st| ==> LockOk(s, s.pc[t].i))
    ensures Shape(DoWait(s, t)) && |DoWait(s, t).st| == |s.st| && SeenOk(DoWait(s, t), a, b)
  {
    var i, s' := s.pc[t].i, DoWait(s, t);
    if i < |s.st| {
      assert SeenOk(s', a, b);
    } else {
      assert SeenOk(s', a, b);
    }
  }

  /** The part of a program counter that the pair conditions speak of. */
  function Phase(p: Pc): Pc {
    if InExit(p) || p.WaitScan? then p else Pc.Free
  }

  /** A step that moves slot u into no scan midway, puts it to sleep in no wait and makes it no zombie. */
  ghost predicate SamePhase(s: State, s': State, u: nat) {
    && Shape(s) && Shape(s') && |s'.st| == |s.st| && u < |s.st|
    && (Phase(s'.pc[u]) == Phase(s.pc[u]) || s'.pc[u] == ExitWake(0) || s'.pc[u] == WaitScan(0, false))
    && (AsleepInWait(s', u) ==> AsleepInWait(s, u))
    && (s'.st[u] == Zombie ==> s.st[u] == Zombie)
    && (s'.parent[u] == s.parent[u]
        || (s'.st[u] == Embryo && 0 <= s'.parent[u] < |s.st| && Phase(s'.pc[s'.parent[u]]) == Pc.Free
            && Phase(s'.pc[u]) == Pc.Free))
    && (WakingInit(s) ==> WakingInit(s'))
  }

  lemma PairKeptPhase(s: State, s': State, a: nat, b: nat)
    requires SamePhase(s, s', a) && SamePhase(s, s', b) && PairOk(s, a, b)
    ensures PairOk(s', a, b)
  {}

  lemma AllocatePhase(s: State, t: nat, i: nat, u: nat)
    requires Shape(s) && t < |s.st| && i < |s.st| && u < |s.st| && LockOk(s, t) && LockOk(s, i) && LockOk(s, u)
    requires s.pc[t].ForkScan? && s.st[i] == Unused && MakerOk(s, t)
    ensures SamePhase(s, Allocate(s, t, i), u)
  {}

  lemma AbandonPhase(s: State, t: nat, np: nat, u: nat)
    requires Shape(s) && t < |s.st| && np < |s.st| && u < |s.st| && LockOk(s, t) && LockOk(s, np) && LockOk(s, u)
    requires (s.pc[t] == ForkStack(np) || s.pc[t] == ForkCopy(np)) && MakerOk(s, t)
    ensures SamePhase(s, Abandon(s, t, np), u)
  {}

  lemma AdoptPhase(s: State, t: nat, np: nat, u: nat)
    requires Shape(s) && t < |s.st| && np < |s.st| && u < |s.st| && LockOk(s, t) && LockOk(s, np) && LockOk(s, u)
    requires s.pc[t] == ForkParent(np) && MakerOk(s, t)
    ensures SamePhase(s, Adopt(s, t, np), u)
  {}

  lemma StartPhase(s: State, t: nat, np: nat, u: nat)
    requires Shape(s) && t < |s.st| && np < |s.st| && u < |s.st| && LockOk(s, t) && LockOk(s, np) && LockOk(s, u)
    requires s.pc[t] == ForkReady(np) && MakerOk(s, t)
    ensures SamePhase(s, Start(s, t, np), u)
  {}

  lemma MovePhase(s: State, t: nat, p: Pc, u: nat)
    requires Shape(s) && t < |s.st| && u < |s.st| && LockOk(s, t) && LockOk(s, u) && InFork(s.pc[t]) && InFork(p)
    ensures SamePhase(s, At(s, t, p), u)
  {}

  lemma ScanEndPhase(s: State, t: nat, u: nat)
    requires Shape(s) && t < |s.st| && u < |s.st| && LockOk(s, t) && LockOk(s, u) && s.pc[t].ForkScan?
    ensures SamePhase(s, At(s, t, Pc.Free).(lock := FREE), u)
  {}

  lemma RelockPhase(s: State, t: nat, np: nat, u: nat)
    requires Shape(s) && t < |s.st| && u < |s.st| && LockOk(s, t) && LockOk(s, u)
    requires s.pc[t] == ForkLock(np) && s.lock == FREE
    ensures SamePhase(s, At(s, t, ForkReady(np)).(lock := t), u)
  {}

  lemma PhaseFork(s: State, t: nat, ok: bool, u: nat)
    requires Shape(s) && t < |s.st| && u < |s.st| && InFork(s.pc[t]) && (Makes(s.pc[t]) ==> s.pc[t].np < |s.st|)
    requires LockOk(s, t) && LockOk(s, u) && (s.pc[t].ForkLock? ==> s.lock == FREE) && MakerOk(s, t)
    requires Makes(s.pc[t]) ==> LockOk(s, s.pc[t].np)
    requires s.pc[t].ForkScan? && s.pc[t].i < |s.st| ==> LockOk(s, s.pc[t].i)
    ensures SamePhase(s, DoFork(s, t, ok), u)
  {
    hide Allocate, Abandon, Adopt, Start, LockOk, MakerOk, SamePhase;
    var s' := DoFork(s, t, ok);
    match s.pc[t]
    case ForkScan(i) =>
      if i < |s.st| && s.st[i] == Unused {
        AllocatePhase(s, t, i, u);
      } else if i < |s.st| {
        MovePhase(s, t, ForkScan(i + 1), u);
      } else {
        ScanEndPhase(s, t, u);
      }
    case ForkStack(np) =>
      if ok {
        MovePhase(s, t, ForkCopy(np), u);
      } else {
        AbandonPhase(s, t, np, u);
      }
    case ForkCopy(np) =>
      if ok {
        MovePhase(s, t, ForkParent(np), u);
      } else {
        AbandonPhase(s, t, np, u);
      }
    case ForkParent(np) => AdoptPhase(s, t, np, u);
    case ForkLock(np) => RelockPhase(s, t, np, u);
    case ForkReady(np) => StartPhase(s, t, np, u);
    case _ =>
  }

  lemma PhaseSwitch(s: State, t: nat, u: nat)
    requires Shape(s) && t < |s.st| && u < |s.st| && LockOk(s, t) && LockOk(s, u)
    requires s.pc[t].Leave? || s.pc[t].Back?
    ensures SamePhase(s, DoSwitch(s, t), u)
  {
    var s' := DoSwitch(s, t);
    match s.pc[t]
    case Leave(_) => assert SamePhase(s, s', u);
    case Back(_) => assert SamePhase(s, s', u);
    case _ =>
  }

  /** A slot the step leaves alone, but for a wakeup. */
  lemma PhaseUntouched(s: State, s': State, u: nat)
    requires Shape(s) && Shape(s') && |s'.st| == |s.st| && u < |s.st| && !WakingInit(s)
    requires s'.pc[u] == s.pc[u] && s'.parent[u] == s.parent[u]
    requires s'.st[u] == s.st[u] || (s.st[u] == Sleeping && s'.st[u] == Runnable)
    ensures SamePhase(s, s', u)
  {}

  lemma PhaseOther(s: State, e: Event, u: nat)
    requires Enabled(s, e) && !e.Go? && u < |s.st| && LockOk(s, u)
    ensures SamePhase(s, Do(s, e), u)
  {
    assert !WakingInit(s);
    hide WakingInit, LockOk, SamePhase;
    if e.Wakeup? || e.TakeLock? || e.DropLock? || u != e.t {
      PhaseUntouched(s, Do(s, e), u);
    } else {
      PhaseCaller(s, e);
    }
  }

  /** The slot of the process that makes the step. */
  lemma PhaseCaller(s: State, e: Event)
    requires Enabled(s, e) && !e.Go? && !e.Wakeup? && !e.TakeLock? && !e.DropLock? && LockOk(s, e.t) && !WakingInit(s)
    ensures SamePhase(s, Do(s, e), e.t)
  {
    hide WakingInit;
    var s' := Do(s, e);
    match e
    case Exit(_) | Wait(_) | Fork(_) => assert SamePhase(s, s', e.t);
    case Yield(_) | Sleep(_, _) => assert SamePhase(s, s', e.t);
    case Kill(_) => assert SamePhase(s, s', e.t);
    case Dispatch(_) => assert SamePhase(s, s', e.t);
    case _ =>
  }

  // ---- every step ----

  lemma StepLock(s: State, e: Event, u: nat)
    requires Inv(s) && Enabled(s, e) && u < |s.st|
    ensures Shape(Do(s, e)) && |Do(s, e).st| == |s.st| && LockOk(Do(s, e), u)
  {
    hide LockOk, ForkOk, ParentOk, PairOk, PidOk, HistoryOk, ListsOk;
    if e.Go? {
      var t := e.t;
      if InExit(s.pc[t]) {
        LockKeptExit(s, t, u);
      } else if s.pc[t].WaitScan? {
        LockKeptWait(s, t, u);
      } else if InFork(s.pc[t]) {
        assert MakerOk(s, t) by {
          MakerOf(s, t);
        }
        LockKeptFork(s, t, e.ok, u);
      } else {
        LockKeptSwitch(s, t, u);
      }
    } else {
      LockKeptOther(s, e, u);
    }
  }

  lemma MakerOf(s: State, t: nat)
    requires Shape(s) && t < |s.st| && ForkOk(s, t)
    ensures MakerOk(s, t)
  {}

  lemma StepLockRange(s: State, e: Event)
    requires Inv(s) && Enabled(s, e)
    ensures var l := Do(s, e).lock; l == FREE || l == SCHEDULER || 0 <= l < |s.st|
  {
    hide LockOk, ForkOk, ParentOk, PairOk, PidOk, HistoryOk, ListsOk;
  }

  lemma StepPair(s: State, e: Event, a: nat, b: nat)
    requires Inv(s) && Enabled(s, e) && a < |s.st| && b < |s.st|
    ensures Shape(Do(s, e)) && |Do(s, e).st| == |s.st| && PairOk(Do(s, e), a, b)
  {
    assert PairOk(s, a, b) && PairOk(s, b, a);
    hide LockOk, ForkOk, ParentOk, PassedOk, WaitOk, AwakeOk, SeenOk, PidOk, HistoryOk, ListsOk, SamePhase;
    if e.Go? {
      var t := e.t;
      if InExit(s.pc[t]) {
        InitStays(s, a);
        PassedKeptExit(s, t, a, b);
        WaitKeptExit(s, t, a, b);
        AwakeKeptExit(s, t, a, b);
        SeenKeptExit(s, t, a, b);
      } else if s.pc[t].WaitScan? {
        PassedKeptWait(s, t, a, b);
        WaitKeptWait(s, t, a, b);
        AwakeKeptWait(s, t, a, b);
        SeenKeptWait(s, t, a, b);
      } else {
        if InFork(s.pc[t]) {
          MakerOf(s, t);
          PhaseFork(s, t, e.ok, a);
          PhaseFork(s, t, e.ok, b);
        } else {
          PhaseSwitch(s, t, a);
          PhaseSwitch(s, t, b);
        }
        PhaseShape(s, Do(s, e), a);
        PairKeptPhase(s, Do(s, e), a, b);
      }
    } else {
      PhaseOther(s, e, a);
      PhaseOther(s, e, b);
      PhaseShape(s, Do(s, e), a);
      PairKeptPhase(s, Do(s, e), a, b);
    }
  }

  lemma PhaseShape(s: State, s': State, u: nat)
    requires SamePhase(s, s', u)
    ensures Shape(s') && |s'.st| == |s.st|
  {}

  lemma AllocateSlot(s: State, t: nat, i: nat, u: nat)
    requires Inv(s) && t < |s.st| && i < |s.st| && u < |s.st| && s.pc[t].ForkScan? && s.st[i] == Unused
    ensures SlotOk(Allocate(s, t, i), u)
  {
    hide PairOk;
    assert LockOk(s, t) && SlotOk(s, u) && SlotOk(s, t) && SlotOk(s, i);
    AllocateKeeps(s, t, i, u);
  }

  lemma AbandonSlot(s: State, t: nat, np: nat, u: nat)
    requires Inv(s) && t < |s.st| && np < |s.st| && u < |s.st| && (s.pc[t] == ForkStack(np) || s.pc[t] == ForkCopy(np))
    ensures SlotOk(Abandon(s, t, np), u)
  {
    hide PairOk;
    assert LockOk(s, t) && SlotOk(s, u) && SlotOk(s, t) && SlotOk(s, np);
    AbandonKeeps(s, t, np, u);
  }

  lemma AdoptSlot(s: State, t: nat, np: nat, u: nat)
    requires Inv(s) && t < |s.st| && np < |s.st| && u < |s.st| && s.pc[t] == ForkParent(np)
    ensures SlotOk(Adopt(s, t, np), u)
  {
    hide PairOk;
    assert LockOk(s, t) && SlotOk(s, u) && SlotOk(s, t) && SlotOk(s, np);
    AdoptKeeps(s, t, np, u);
  }

  lemma StartSlot(s: State, t: nat, np: nat, u: nat)
    requires Inv(s) && t < |s.st| && np < |s.st| && u < |s.st| && s.pc[t] == ForkReady(np)
    ensures SlotOk(Start(s, t, np), u)
  {
    hide PairOk;
    assert LockOk(s, t) && LockOk(s, np) && SlotOk(s, u) && SlotOk(s, t) && SlotOk(s, np);
    StartKeeps(s, t, np, u);
  }

  lemma PassOnSlot(s: State, t: nat, i: nat, u: nat)
    requires Inv(s) && t < |s.st| && i < |s.st| && u < |s.st| && InExit(s.pc[t]) && s.parent[i] == t
    ensures SlotOk(PassOn(s, t, i), u)
  {
    hide PairOk;
    assert LockOk(s, t) && LockOk(s, INIT) && SlotOk(s, u) && SlotOk(s, t) && SlotOk(s, i) && SlotOk(s, INIT);
    EmbryoParent(s, i);
    PassOnKeeps(s, t, i, u);
  }

  /** The parent of an embryo is in fork. */
  lemma EmbryoParent(s: State, i: nat)
    requires Inv(s) && i < |s.st|
    ensures s.st[i] == Embryo && s.parent[i] != NONE ==> 0 <= s.parent[i] < |s.st| && Makes(s.pc[s.parent[i]])
  {
    hide PairOk, PidOk;
    assert ForkOk(s, i);
    if s.st[i] == Embryo {
      var m: nat := s.maker[i];
      assert ForkOk(s, m);
    }
  }

  lemma DieSlot(s: State, t: nat, u: nat)
    requires Inv(s) && t < |s.st| && u < |s.st| && s.pc[t].ExitZombie?
    ensures SlotOk(Die(s, t), u)
  {
    assert LockOk(s, t) && SlotOk(s, u) && SlotOk(s, t) && PairOk(s, t, u) && PidOk(s, u, t);
    hide WaitOk, AwakeOk, SeenOk;
    DieKeeps(s, t, u);
  }

  lemma ReapSlot(s: State, t: nat, i: nat, u: nat)
    requires Inv(s) && t < |s.st| && i < |s.st| && u < |s.st| && s.pc[t].WaitScan? && s.st[i] == Zombie
    ensures SlotOk(Reap(s, t, i), u)
  {
    hide PairOk;
    assert LockOk(s, t) && LockOk(s, i) && SlotOk(s, u) && SlotOk(s, t) && SlotOk(s, i) && PidOk(s, u, i);
    ReapKeeps(s, t, i, u);
  }

  lemma StepSlot(s: State, e: Event, u: nat)
    requires Inv(s) && Enabled(s, e) && u < |s.st|
    ensures Shape(Do(s, e)) && |Do(s, e).st| == |s.st| && SlotOk(Do(s, e), u)
  {
    StepLock(s, e, u);
    hide LockOk, ForkOk, ParentOk, PairOk, PidOk, HistoryOk, ListsOk, SameTable;
    if Quiet(s, e) {
      QuietIs(s, e);
      QuietKeeps(s, Do(s, e), u);
    } else {
      var t := e.t;
      match s.pc[t]
      case ExitPass(i) => PassOnSlot(s, t, i, u);
      case ExitZombie => DieSlot(s, t, u);
      case WaitScan(i, _) => ReapSlot(s, t, i, u);
      case ForkScan(i) => AllocateSlot(s, t, i, u);
      case ForkStack(np) => AbandonSlot(s, t, np, u);
      case ForkCopy(np) => AbandonSlot(s, t, np, u);
      case ForkParent(np) => AdoptSlot(s, t, np, u);
      case ForkReady(np) => StartSlot(s, t, np, u);
      case _ =>
    }
  }

  lemma StepPids(s: State, e: Event, a: nat, b: nat)
    requires Inv(s) && Enabled(s, e) && a < |s.st| && b < |s.st|
    ensures Shape(Do(s, e)) && |Do(s, e).st| == |s.st| && PidOk(Do(s, e), a, b)
  {
    StepLock(s, e, a);
    hide ForkOk, ParentOk, PairOk, HistoryOk, ListsOk, SameTable;
    if Quiet(s, e) {
      QuietIs(s, e);
      QuietPids(s, Do(s, e), a, b);
    } else {
      MakerOf(s, e.t);
      assert LockOk(s, e.t) && PidOk(s, a, b) && PidOk(s, b, a);
      PidsKeep(s, e, a, b);
    }
  }

  lemma StepLists(s: State, e: Event)
    requires Inv(s) && Enabled(s, e)
    ensures ListsOk(Do(s, e))
  {
    if Quiet(s, e) {
      hide LockOk, ForkOk, ParentOk, PairOk, PidOk, HistoryOk, ListsOk, SameTable;
      QuietIs(s, e);
      QuietLists(s, Do(s, e));
    } else {
      var t := e.t;
      assert LockOk(s, t) && PidOk(s, t, t) && HistoryOk(s, t) && ForkOk(s, t);
      hide PairOk, ParentOk, ListsOk, Do, Quiet;
      match s.pc[t]
      case ExitZombie => DieLists(s, t);
      case WaitScan(i, _) => ReapLists(s, t, i);
      case _ => OtherLists(s, e);
    }
  }

  lemma StepKeeps(s: State, e: Event)
    requires Inv(s) && Enabled(s, e)
    ensures Inv(Do(s, e))
  {
    hide LockOk, ForkOk, ParentOk, PairOk, PidOk, HistoryOk, ListsOk, Do, Enabled;
    var s' := Do(s, e);
    StepLock(s, e, INIT);
    StepLockRange(s, e);
    forall u: nat | u < |s'.st| ensures LockOk(s', u) {
      StepLock(s, e, u);
    }
    forall u: nat | u < |s'.st| ensures ForkOk(s', u) && ParentOk(s', u) && HistoryOk(s', u) {
      StepSlot(s, e, u);
    }
    forall a: nat, b: nat | a < |s'.st| && b < |s'.st| ensures PairOk(s', a, b) && PidOk(s', a, b) {
      StepPair(s, e, a, b);
      StepPids(s, e, a, b);
    }
    StepLists(s, e);
  }

  // ---- whole runs ----

  lemma Starts(s: State)
    requires Init(s)
    ensures Inv(s)
  {
    assert forall t: nat :: t < |s.st| ==> LockOk(s, t) && ForkOk(s, t) && ParentOk(s, t) && HistoryOk(s, t);
  }

  lemma {:induction false} RunKeeps(run: seq<State>, events: seq<Event>, i: nat)
    requires Run(run, events) && i < |run|
    ensures Inv(run[i])
  {
    hide Inv, Do, Enabled;
    if i == 0 {
      Starts(run[0]);
    } else {
      RunKeeps(run, events, i - 1);
      assert StepAt(run, events, i - 1);
      StepKeeps(run[i - 1], events[i - 1]);
    }
  }

  /** Whenever no process has ptable.lock, none that sleeps on its own address, as wait does, has a zombie child. */
  lemma NoZombieLeftWaiting(run: seq<State>, events: seq<Event>, i: nat, p: nat, z: nat)
    requires Run(run, events) && i < |run| && Shape(run[i]) && p < |run[i].st| && z < |run[i].st|
    requires run[i].lock == FREE || run[i].lock == SCHEDULER
    requires run[i].st[p] == Sleeping && run[i].chan[p] == p && run[i].parent[z] == p
    ensures run[i].st[z] != Zombie
  {
    RunKeeps(run, events, i);
    hide Do, Enabled;
    assert LockOk(run[i], p) && PairOk(run[i], p, z);
  }

  /** No pid becomes a zombie twice or is returned by wait twice, only zombies' pids are returned, and a pid that
      became a zombie has either been returned or still has its one slot. */
  lemma ReapedOnce(run: seq<State>, events: seq<Event>, n: nat)
    requires Run(run, events) && n < |run|
    ensures var s := run[n];
            && (forall i, j :: 0 <= i < j < |s.exited| ==> s.exited[i] != s.exited[j])
            && (forall i, j :: 0 <= i < j < |s.reaped| ==> s.reaped[i] != s.reaped[j])
            && (forall k :: k in s.reaped ==> k in s.exited)
            && (forall k :: k in s.exited ==> (k !in s.reaped <==> exists z: nat :: IsZombie(s, k, z)))
            && (forall k, y: nat, z: nat :: IsZombie(s, k, y) && IsZombie(s, k, z) ==> y == z)
  {
    RunKeeps(run, events, n);
    hide Do, Enabled;
    var s := run[n];
    forall k, z: nat | IsZombie(s, k, z) ensures k !in s.reaped {
      assert HistoryOk(s, z);
    }
    forall k, y: nat, z: nat | IsZombie(s, k, y) && IsZombie(s, k, z) ensures y == z {
      assert PidOk(s, y, z);
    }
  }

  /** At every moment: a process other than init, zombie or not, has a parent, and whoever has a parent, an embryo
      too, has one that is alive. */
  lemma ParentsAlive(run: seq<State>, events: seq<Event>, i: nat, q: nat)
    requires Run(run, events) && i < |run| && Shape(run[i]) && q < |run[i].st|
    ensures var s := run[i];
            && (q != INIT && s.st[q] != Unused && s.st[q] != Embryo ==> s.parent[q] != NONE)
            && (s.parent[q] != NONE ==> 0 <= s.parent[q] < |s.st| && s.parent[q] != q && Live(s.st[s.parent[q]]))
            && Live(s.st[INIT])
  {
    RunKeeps(run, events, i);
    hide Do, Enabled;
    assert ParentOk(run[i], q) && ForkOk(run[i], INIT) && LockOk(run[i], INIT);
  }

  /** Two processes never have ptable.lock, and live pids are distinct. */
  lemma OneHolder(run: seq<State>, events: seq<Event>, i: nat, t: nat, u: nat)
    requires Run(run, events) && i < |run| && Shape(run[i]) && t < |run[i].st| && u < |run[i].st|
    ensures var s := run[i];
            && (HoldsLock(s.pc[t]) && HoldsLock(s.pc[u]) ==> t == u && s.lock == t)
            && (s.st[t] != Unused && s.st[u] != Unused && s.pid[t] == s.pid[u] ==> t == u)
  {
    RunKeeps(run, events, i);
    hide Do, Enabled;
    assert LockOk(run[i], t) && LockOk(run[i], u) && PidOk(run[i], t, u);
  }
}
