/** rwlock.h: readers count themselves in and back off when they find a writer. Any number of threads. */
module Rwlock {
  datatype Pc =
    | Idle
    | Spin // RwLock_ReadLock, waiting for the writer flag to be clear
    | Add // about to count itself
    | Check // counted, about to look at the flag again
    | BackOff // saw the flag set, about to take itself out
    | Reading
    | Acquire // RwLock_WriteLock, spinning on the flag
    | Drain // has the flag, waiting for the count to be zero
    | Writing

  datatype State = State(locked: bool, count: int, pc: seq<Pc>)

  /** What one atomic operation of thread t leads to; a spin that finds its condition false stays where it is. An
      idle thread may want to write or to read. */
  function Do(s: State, t: nat, write: bool): State
    requires t < |s.pc|
  {
    match s.pc[t]
    case Idle => Goto(s, t, if write then Acquire else Spin)
    case Spin => if s.locked then s else Goto(s, t, Add)
    case Add => Goto(s, t, Check).(count := s.count + 1)
    case Check => Goto(s, t, if s.locked then BackOff else Reading)
    case BackOff => Goto(s, t, Spin).(count := s.count - 1)
    case Reading => Goto(s, t, Idle).(count := s.count - 1)
    case Acquire => if s.locked then s else Goto(s, t, Drain).(locked := true)
    case Drain => if s.count != 0 then s else Goto(s, t, Writing)
    case Writing => Goto(s, t, Idle).(locked := false)
  }

  function Goto(s: State, t: nat, p: Pc): State
    requires t < |s.pc|
  {
    s.(pc := s.pc[t := p])
  }

  ghost predicate Init(s: State) {
    !s.locked && s.count == 0 && forall t :: 0 <= t < |s.pc| ==> s.pc[t] == Idle
  }

  datatype Event = Event(t: nat, write: bool)

  predicate Run(s: State, events: seq<Event>, end: State)
    decreases |events|
  {
    if events == [] then end == s
    else events[0].t < |s.pc| && Run(Do(s, events[0].t, events[0].write), events[1..], end)
  }

  /** Has added itself to the count and not yet taken itself out. */
  predicate Counted(p: Pc) {
    p == Check || p == BackOff || p == Reading
  }

  function CountOf(pc: seq<Pc>): nat {
    if pc == [] then 0 else CountOf(pc[..|pc| - 1]) + if Counted(pc[|pc| - 1]) then 1 else 0
  }

  lemma {:induction false} CountUpdate(pc: seq<Pc>, t: nat, p: Pc)
    requires t < |pc|
    ensures CountOf(pc[t := p]) == CountOf(pc) - (if Counted(pc[t]) then 1 else 0) + (if Counted(p) then 1 else 0)
  {
    var n := |pc| - 1;
    if t == n {
      assert pc[t := p][..n] == pc[..n];
    } else {
      CountUpdate(pc[..n], t, p);
      assert pc[t := p][..n] == pc[..n][t := p];
    }
  }

  lemma {:induction false} CountZero(pc: seq<Pc>)
    ensures CountOf(pc) == 0 <==> forall t :: 0 <= t < |pc| ==> !Counted(pc[t])
  {
    if pc != [] {
      var front := pc[..|pc| - 1];
      CountZero(front);
      assert forall t :: 0 <= t < |front| ==> front[t] == pc[t];
    }
  }

  predicate HasFlag(p: Pc) {
    p == Drain || p == Writing
  }

  ghost predicate Inv(s: State) {
    s.count == CountOf(s.pc) && FlagOk(s) && ReadersOk(s)
  }

  ghost predicate FlagOk(s: State) {
    && (forall t, u :: 0 <= t < |s.pc| && 0 <= u < |s.pc| && HasFlag(s.pc[t]) && HasFlag(s.pc[u]) ==> t == u)
    && (s.locked <==> exists t :: 0 <= t < |s.pc| && HasFlag(s.pc[t]))
  }

  ghost predicate ReadersOk(s: State) {
    forall t, u :: 0 <= t < |s.pc| && 0 <= u < |s.pc| && s.pc[t] == Writing ==> s.pc[u] != Reading
  }

  lemma StepKeeps(s: State, t: nat, write: bool)
    requires Inv(s) && t < |s.pc|
    ensures Inv(Do(s, t, write))
  {
    var s' := Do(s, t, write);
    FlagKept(s, t, write);
    if s.pc[t] == Drain {
      CountZero(s.pc);
    }
    hide CountOf;
    if s' != s {
      CountUpdate(s.pc, t, s'.pc[t]);
    }
  }

  lemma FlagKept(s: State, t: nat, write: bool)
    requires FlagOk(s) && t < |s.pc|
    ensures FlagOk(Do(s, t, write))
  {
    var s' := Do(s, t, write);
    if s.locked {
      var w :| 0 <= w < |s.pc| && HasFlag(s.pc[w]);
      assert t != w ==> s'.pc[w] == s.pc[w];
      assert t == w ==> HasFlag(s'.pc[t]) || s.pc[t] == Writing;
    } else {
      assert HasFlag(s'.pc[t]) <==> s'.locked;
    }
  }

  lemma {:induction false} RunKeeps(s: State, events: seq<Event>, end: State)
    requires Inv(s) && Run(s, events, end)
    ensures Inv(end)
    decreases |events|
  {
    if events != [] {
      StepKeeps(s, events[0].t, events[0].write);
      RunKeeps(Do(s, events[0].t, events[0].write), events[1..], end);
    }
  }

  /** In every reachable state: one writer at most, no reader with a writer, and the count says how many threads have
      added themselves and not yet taken themselves out. */
  lemma Exclusion(s: State, events: seq<Event>, end: State)
    requires Init(s) && Run(s, events, end)
    ensures end.count == CountOf(end.pc)
    ensures forall t, u :: 0 <= t < |end.pc| && 0 <= u < |end.pc| && end.pc[t] == Writing && end.pc[u] == Writing ==>
              t == u
    ensures forall t, u :: 0 <= t < |end.pc| && 0 <= u < |end.pc| && end.pc[t] == Writing ==> end.pc[u] != Reading
  {
    CountZero(s.pc);
    RunKeeps(s, events, end);
  }

  /** A draining writer goes in exactly when every reader, passing or inside, has taken itself out. */
  lemma DrainedMeansNobody(s: State, events: seq<Event>, end: State, t: nat)
    requires Init(s) && Run(s, events, end) && t < |end.pc| && end.pc[t] == Drain
    ensures Do(end, t, true).pc[t] == Writing <==> forall u :: 0 <= u < |end.pc| ==> !Counted(end.pc[u])
  {
    CountZero(s.pc);
    RunKeeps(s, events, end);
    CountZero(end.pc);
  }

  // ---- every call comes to its end ----

  /** How many steps a thread of n can still take until its call is over, if the flag stays as it is; a writer pays for
      what the readers it held back do once it clears the flag. */
  function Rank(p: Pc, locked: bool, n: nat): nat {
    match p
    case Idle => 0
    case Spin => if locked then 0 else 7
    case Add => if locked then 3 else 6
    case Check => if locked then 2 else 5
    case BackOff => if locked then 1 else 8
    case Reading => 1
    case Acquire => 8 * n + 3
    case Drain => 8 * n + 2
    case Writing => 8 * n + 1
  }

  function Total(pc: seq<Pc>, locked: bool, n: nat): nat {
    if pc == [] then 0 else Total(pc[..|pc| - 1], locked, n) + Rank(pc[|pc| - 1], locked, n)
  }

  lemma {:induction false} TotalUpdate(pc: seq<Pc>, t: nat, p: Pc, locked: bool, n: nat)
    requires t < |pc|
    ensures Total(pc[t := p], locked, n) == Total(pc, locked, n) - Rank(pc[t], locked, n) + Rank(p, locked, n)
  {
    hide Rank;
    var k := |pc| - 1;
    if t == k {
      assert pc[t := p][..k] == pc[..k];
    } else {
      TotalUpdate(pc[..k], t, p, locked, n);
      assert pc[t := p][..k] == pc[..k][t := p];
    }
  }

  lemma {:induction false} TotalFlag(pc: seq<Pc>, n: nat)
    ensures Total(pc, true, n) <= Total(pc, false, n) <= Total(pc, true, n) + 7 * |pc|
  {
    if pc != [] {
      TotalFlag(pc[..|pc| - 1], n);
    }
  }

  function Work(s: State): nat {
    Total(s.pc, s.locked, |s.pc|)
  }

  lemma StepWorks(s: State, t: nat, write: bool)
    requires Inv(s) && t < |s.pc| && s.pc[t] != Idle && Do(s, t, write) != s
    ensures Work(Do(s, t, write)) < Work(s)
  {
    var s', n := Do(s, t, write), |s.pc|;
    assert HasFlag(s.pc[t]) ==> s.locked;
    hide Inv, Total;
    TotalUpdate(s.pc, t, s'.pc[t], s.locked, n);
    TotalFlag(s'.pc, n);
  }

  /** No thread starts a call. */
  predicate NoNewCalls(s: State, events: seq<Event>)
    decreases |events|
  {
    events == [] || (events[0].t < |s.pc| && s.pc[events[0].t] != Idle
                     && NoNewCalls(Do(s, events[0].t, events[0].write), events[1..]))
  }

  /** How many of the steps change anything. */
  function Moves(s: State, events: seq<Event>): nat
    requires NoNewCalls(s, events)
    decreases |events|
  {
    if events == [] then 0
    else
      var m := Do(s, events[0].t, events[0].write);
      (if m == s then 0 else 1) + Moves(m, events[1..])
  }

  lemma {:induction false} MovesBounded(s: State, events: seq<Event>, end: State)
    requires Inv(s) && Run(s, events, end) && NoNewCalls(s, events)
    ensures Moves(s, events) + Work(end) <= Work(s)
    decreases |events|
  {
    hide Inv, Work;
    if events != [] {
      var e := events[0];
      var m := Do(s, e.t, e.write);
      StepKeeps(s, e.t, e.write);
      MovesBounded(m, events[1..], end);
      if m != s {
        StepWorks(s, e.t, e.write);
      }
    }
  }

  lemma SomeoneCounted(pc: seq<Pc>)
    requires CountOf(pc) > 0
    ensures exists t :: 0 <= t < |pc| && Counted(pc[t])
  {
    CountZero(pc);
  }

  /** Nobody waits for ever: once no more calls start, the threads take no more than Work steps beside spinning, and
      when none can do anything but spin, every call is over. */
  lemma CallsEnd(s0: State, before: seq<Event>, s: State, events: seq<Event>, end: State)
    requires Init(s0) && Run(s0, before, s) && Run(s, events, end) && NoNewCalls(s, events)
    ensures Moves(s, events) <= Work(s)
    ensures (forall t :: 0 <= t < |end.pc| && end.pc[t] != Idle ==> Do(end, t, true) == end) ==>
              forall t :: 0 <= t < |end.pc| ==> end.pc[t] == Idle
  {
    CountZero(s0.pc);
    RunKeeps(s0, before, s);
    MovesBounded(s, events, end);
    RunKeeps(s, events, end);
    if u :| 0 <= u < |end.pc| && end.pc[u] != Idle {
      var t := Mover(end, u);
      assert Do(end, t, true) != end;
    }
  }

  /** Somebody can move as long as somebody is in a call. */
  lemma Mover(s: State, u: nat) returns (t: nat)
    requires Inv(s) && u < |s.pc| && s.pc[u] != Idle
    ensures t < |s.pc| && s.pc[t] != Idle && Do(s, t, true).pc[t] != s.pc[t]
  {
    if s.locked {
      t :| 0 <= t < |s.pc| && HasFlag(s.pc[t]);
      if s.pc[t] == Drain && s.count != 0 {
        SomeoneCounted(s.pc);
        t :| 0 <= t < |s.pc| && Counted(s.pc[t]);
      }
    } else {
      assert !HasFlag(s.pc[u]);
      t := u;
    }
  }

  /** Thread t is at p at some time. */
  predicate Reaches(s: State, events: seq<Event>, t: nat, p: Pc)
    requires t < |s.pc|
    decreases |events|
  {
    || s.pc[t] == p
    || (events != [] && events[0].t < |s.pc| && Reaches(Do(s, events[0].t, events[0].write), events[1..], t, p))
  }

  predicate Entering(p: Pc, write: bool) {
    if write then p == Acquire || p == Drain else p == Spin || p == Add || p == Check || p == BackOff
  }

  lemma {:induction false} Enters(s: State, events: seq<Event>, end: State, t: nat, write: bool)
    requires Run(s, events, end) && t < |s.pc| == |end.pc| && Entering(s.pc[t], write) && end.pc[t] == Idle
    ensures Reaches(s, events, t, if write then Writing else Reading)
    decreases |events|
  {
    var m := Do(s, events[0].t, events[0].write);
    if !Entering(m.pc[t], write) {
      assert Reaches(m, events[1..], t, if write then Writing else Reading);
    } else {
      Enters(m, events[1..], end, t, write);
    }
  }

  /** A thread comes back from its call having been inside, as a writer if it came to write and else as a reader. */
  lemma BeenInside(s: State, t: nat, write: bool, events: seq<Event>, end: State)
    requires t < |s.pc| == |end.pc| && s.pc[t] == Idle && Run(Do(s, t, write), events, end) && end.pc[t] == Idle
    ensures Reaches(Do(s, t, write), events, t, if write then Writing else Reading)
  {
    Enters(Do(s, t, write), events, end, t, write);
  }
}
