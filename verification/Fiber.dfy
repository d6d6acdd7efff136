/** fiber.c: cooperative fibers on a circular list. The queue starts with the fiber that runs. */
module FiberQueue {
  const MAIN: nat := 1

  /** Those of the fibers that have not finished. */
  function Unfinished(q: seq<nat>, finished: set<nat>): seq<nat> {
    if q == [] then [] else (if q[0] in finished then [] else [q[0]]) + Unfinished(q[1..], finished)
  }

  /** The others, in the order in which the walk over the list comes to them. */
  function Gone(q: seq<nat>, finished: set<nat>): seq<nat> {
    if q == [] then [] else (if q[0] in finished then [q[0]] else []) + Gone(q[1..], finished)
  }

  /** FreeFinishedFibers: all finished fibers but the running one go. */
  function Sweep(q: seq<nat>, finished: set<nat>): seq<nat>
    requires q != []
  {
    [q[0]] + Unfinished(q[1..], finished)
  }

  /** The running fiber goes to the end and the next one runs. */
  function Rotate(q: seq<nat>): seq<nat>
    requires q != []
  {
    q[1..] + [q[0]]
  }

  predicate Distinct(q: seq<nat>) {
    forall i, j :: 0 <= i < j < |q| ==> q[i] != q[j]
  }

  lemma {:induction false} UnfinishedShape(q: seq<nat>, finished: set<nat>)
    ensures forall f :: f in Unfinished(q, finished) <==> f in q && f !in finished
    ensures Distinct(q) ==> Distinct(Unfinished(q, finished))
  {
    if q != [] {
      UnfinishedShape(q[1..], finished);
      var r := Unfinished(q[1..], finished);
      assert q == [q[0]] + q[1..];
      if Distinct(q) {
        assert q[0] !in q[1..];
      }
    }
  }

  lemma {:induction false} GoneShape(q: seq<nat>, finished: set<nat>)
    ensures forall f :: f in Gone(q, finished) <==> f in q && f in finished
    ensures Distinct(q) ==> Distinct(Gone(q, finished))
  {
    if q != [] {
      GoneShape(q[1..], finished);
      assert q == [q[0]] + q[1..];
      if Distinct(q) {
        assert q[0] !in q[1..];
      }
    }
  }

  lemma DistinctJoin(a: seq<nat>, b: seq<nat>)
    requires Distinct(a) && Distinct(b) && forall f :: f in a ==> f !in b
    ensures Distinct(a + b)
  {
    forall i, j | 0 <= i < j < |a + b| ensures (a + b)[i] != (a + b)[j] {
      assert i < |a| ==> (a + b)[i] in a;
      assert j >= |a| ==> (a + b)[j] in b;
    }
  }

  // ---- runs ----

  /** freed: the fibers freed, in order. A fiber is one call of FiberSpawn: memory used again is another fiber. */
  datatype State = State(queue: seq<nat>, finished: set<nat>, freed: seq<nat>)

  /** What the running fiber does. Return: its function returns to FiberTrampoline. */
  datatype Event = Spawn(f: nat) | Yield | TryJoin | Return

  predicate Enabled(s: State, e: Event) {
    && s.queue != []
    && match e
       case Spawn(f) => f != MAIN && f !in s.queue && f !in s.freed && f !in s.finished
       case Return => s.queue[0] != MAIN
       case _ => true
  }

  function Swept(s: State): State
    requires s.queue != []
  {
    s.(queue := Sweep(s.queue, s.finished), freed := s.freed + Gone(s.queue[1..], s.finished))
  }

  function Yielded(s: State): State
    requires s.queue != []
  {
    var r := Swept(s);
    if |r.queue| == 1 then r else r.(queue := Rotate(r.queue))
  }

  function Do(s: State, e: Event): State
    requires Enabled(s, e)
  {
    match e
    case Spawn(f) => s.(queue := s.queue + [f])
    case Yield => Yielded(s)
    case TryJoin => Swept(s)
    case Return => Yielded(s.(finished := s.finished + {s.queue[0]}))
  }

  predicate Run(s: State, events: seq<Event>, end: State)
    decreases |events|
  {
    if events == [] then end == s else Enabled(s, events[0]) && Run(Do(s, events[0]), events[1..], end)
  }

  /** After the first call of InitMainFiber. */
  predicate Init(s: State) {
    s == State([MAIN], {}, [])
  }

  /** The running fiber has not finished; a finished one is in the queue or freed, not both, and none was freed
      twice. */
  ghost predicate Inv(s: State) {
    && s.queue != [] && Distinct(s.queue) && MAIN in s.queue && MAIN !in s.finished
    && s.queue[0] !in s.finished
    && Distinct(s.freed)
    && (forall f :: f in s.freed ==> f in s.finished && f !in s.queue)
    && (forall f :: f in s.finished ==> f in s.freed || f in s.queue)
  }

  lemma SweepShape(q: seq<nat>, finished: set<nat>)
    requires q != [] && Distinct(q)
    ensures var r := Sweep(q, finished);
            && Distinct(r) && r[0] == q[0]
            && (forall f :: f in r <==> f in q && (f == q[0] || f !in finished))
            && (forall i :: 1 <= i < |r| ==> r[i] !in finished)
  {
    UnfinishedShape(q[1..], finished);
    var r := Sweep(q, finished);
    assert q == [q[0]] + q[1..];
    assert forall i :: 1 <= i < |q| ==> q[i] != q[0];
    assert q[0] !in q[1..];
    assert forall i :: 1 <= i < |r| ==> r[i] == Unfinished(q[1..], finished)[i - 1];
  }

  lemma StepKeeps(s: State, e: Event)
    requires Inv(s) && Enabled(s, e)
    ensures Inv(Do(s, e))
  {
    match e
    case Spawn(f) =>
    case TryJoin => SweptKeeps(s);
    case Yield =>
      SweptKeeps(s);
      RotateKeeps(Swept(s));
    case Return =>
      var t := s.(finished := s.finished + {s.queue[0]});
      SweptKeeps(t);
      RotateKeeps(Swept(t));
  }

  /** What holds while the running fiber may just have finished. */
  ghost predicate Almost(s: State) {
    && s.queue != [] && Distinct(s.queue) && MAIN in s.queue && MAIN !in s.finished && Distinct(s.freed)
    && (forall f :: f in s.freed ==> f in s.finished && f !in s.queue)
    && (forall f :: f in s.finished ==> f in s.freed || f in s.queue)
  }

  lemma SweptKeeps(s: State)
    requires Almost(s)
    ensures Almost(Swept(s)) && Swept(s).queue[0] == s.queue[0] && Swept(s).finished == s.finished
    ensures forall i :: 1 <= i < |Swept(s).queue| ==> Swept(s).queue[i] !in s.finished
  {
    SweepShape(s.queue, s.finished);
    GoneShape(s.queue[1..], s.finished);
    assert s.queue == [s.queue[0]] + s.queue[1..];
    DistinctJoin(s.freed, Gone(s.queue[1..], s.finished));
    hide Sweep, Gone;
  }

  lemma RotateKeeps(s: State)
    requires Almost(s) && forall i :: 1 <= i < |s.queue| ==> s.queue[i] !in s.finished
    ensures |s.queue| > 1 ==> Inv(s.(queue := Rotate(s.queue)))
    ensures |s.queue| == 1 ==> Inv(s)
  {}

  lemma {:induction false} RunKeeps(s: State, events: seq<Event>, end: State)
    requires Inv(s) && Run(s, events, end)
    ensures Inv(end)
    decreases |events|
  {
    if events != [] {
      StepKeeps(s, events[0]);
      RunKeeps(Do(s, events[0]), events[1..], end);
    }
  }

  /** A fiber whose function has returned never runs again, so FiberTrampoline never gets past its FiberYield; it is
      freed once at most, and only after it finished; the main fiber stays. */
  lemma FinishedNeverRuns(s: State, events: seq<Event>, end: State)
    requires Init(s) && Run(s, events, end)
    ensures end.queue != [] && end.queue[0] !in end.finished
    ensures Distinct(end.freed) && forall f :: f in end.freed ==> f in end.finished && f !in end.queue
    ensures forall f :: f in end.finished ==> (f in end.freed <==> f !in end.queue)
    ensures MAIN in end.queue
  {
    RunKeeps(s, events, end);
  }

  /** FiberTryJoin's answer: only the running fiber is left exactly when all others have finished. */
  lemma AloneIff(q: seq<nat>, finished: set<nat>)
    requires q != [] && Distinct(q)
    ensures |Sweep(q, finished)| == 1 <==> forall f :: f in q && f != q[0] ==> f in finished
  {
    SweepShape(q, finished);
    var r := Sweep(q, finished);
    if |r| > 1 {
      assert r[1] in r && r[1] != r[0];
    }
    assert forall f :: f in q && f != q[0] && f !in finished ==> f in r && f != r[0];
    assert forall f :: f in r && f != r[0] ==> |r| > 1;
  }

  lemma {:induction false} UnfinishedNoLater(q: seq<nat>, finished: set<nat>, i: nat) returns (j: nat)
    requires i < |q| && q[i] !in finished
    ensures j <= i && j < |Unfinished(q, finished)| && Unfinished(q, finished)[j] == q[i]
  {
    if i == 0 {
      j := 0;
    } else {
      j := UnfinishedNoLater(q[1..], finished, i - 1);
      if q[0] !in finished {
        j := j + 1;
      }
    }
  }

  /** Round robin: each switch brings every other unfinished fiber nearer to the front, and a fiber that waits at
      place i runs after at most i switches, spawned fibers coming behind it. */
  lemma RoundRobin(s: State, e: Event, i: nat) returns (j: nat)
    requires Inv(s) && Enabled(s, e) && 0 < i < |s.queue| && s.queue[i] !in s.finished
    ensures j < |Do(s, e).queue| && Do(s, e).queue[j] == s.queue[i] && s.queue[i] !in Do(s, e).finished
    ensures (e.Yield? || e.Return?) ==> j < i
    ensures e.TryJoin? ==> 0 < j <= i
    ensures e.Spawn? ==> j == i
  {
    if e.Spawn? {
      return i;
    }
    var f := if e.Return? then s.finished + {s.queue[0]} else s.finished;
    var k := UnfinishedNoLater(s.queue[1..], f, i - 1);
    var r := Sweep(s.queue, f);
    assert r[k + 1] == s.queue[i];
    if e.TryJoin? {
      return k + 1;
    }
    assert Rotate(r)[k] == s.queue[i];
    return k;
  }
}

/** The list itself. */
module Fiber {
  import opened FiberQueue

  function Succ(ring: seq<nat>, i: nat): nat
    requires i < |ring|
  {
    if i + 1 < |ring| then ring[i + 1] else ring[0]
  }

  predicate LinkAt(next: map<nat, nat>, ring: seq<nat>, i: nat) {
    i < |ring| && ring[i] in next && next[ring[i]] == Succ(ring, i)
  }

  ghost predicate Circle(next: map<nat, nat>, ring: seq<nat>) {
    Distinct(ring) && forall i: nat :: i < |ring| ==> LinkAt(next, ring, i)
  }

  function Cut(ring: seq<nat>, k: nat): seq<nat>
    requires k < |ring|
  {
    ring[..k] + ring[k + 1..]
  }

  lemma CutKeeps(next: map<nat, nat>, ring: seq<nat>, k: nat)
    requires Circle(next, ring) && 0 < k < |ring|
    ensures ring[k] in next && Circle(next[ring[k - 1] := next[ring[k]]] - {ring[k]}, Cut(ring, k))
  {
    assert LinkAt(next, ring, k) && LinkAt(next, ring, k - 1);
    var r, next' := Cut(ring, k), next[ring[k - 1] := next[ring[k]]] - {ring[k]};
    forall i: nat | i < |r| ensures LinkAt(next', r, i) {
      assert LinkAt(next, ring, if i < k then i else i + 1);
    }
  }

  lemma AppendKeeps(next: map<nat, nat>, ring: seq<nat>, f: nat)
    requires Circle(next, ring) && ring != [] && f !in ring
    ensures Circle(next[f := ring[0]][ring[|ring| - 1] := f], ring + [f])
  {
    var r, next' := ring + [f], next[f := ring[0]][ring[|ring| - 1] := f];
    forall i: nat | i < |r| ensures LinkAt(next', r, i) {
      if i < |ring| {
        assert LinkAt(next, ring, i);
        assert r[i] == ring[i] != f;
      }
    }
  }

  lemma CircleRotates(next: map<nat, nat>, ring: seq<nat>)
    requires Circle(next, ring) && ring != []
    ensures Circle(next, Rotate(ring))
  {
    var r, n := Rotate(ring), |ring|;
    forall i: nat | i < n ensures LinkAt(next, r, i) {
      assert LinkAt(next, ring, if i + 1 < n then i + 1 else 0);
      assert r[i] == ring[if i + 1 < n then i + 1 else 0];
    }
  }

  /** The list of the fibers from the running one on: they are what is allocated. */
  ghost predicate ListOk(current: nat, next: map<nat, nat>, finished: map<nat, bool>, ring: seq<nat>) {
    && ring != [] && ring[0] == current && Circle(next, ring) && MAIN in ring && 0 !in ring
    && (forall f :: f in next <==> f in ring) && finished.Keys == next.Keys
  }

  lemma CutList(current: nat, next: map<nat, nat>, finished: map<nat, bool>, ring: seq<nat>, k: nat)
    requires ListOk(current, next, finished, ring) && 0 < k < |ring| && ring[k] != MAIN
    ensures ring[k] in next && ring[k - 1] in next
    ensures ListOk(current, next[ring[k - 1] := next[ring[k]]] - {ring[k]}, finished - {ring[k]}, Cut(ring, k))
  {
    CutKeeps(next, ring, k);
    CutShape(ring, k);
    hide Circle, Cut;
    assert ring[k] != ring[0];
    var next' := next[ring[k - 1] := next[ring[k]]] - {ring[k]};
    assert next'.Keys == next.Keys - {ring[k]};
    assert (finished - {ring[k]}).Keys == finished.Keys - {ring[k]};
  }

  lemma ListShape(current: nat, next: map<nat, nat>, finished: map<nat, bool>, ring: seq<nat>, k: nat)
    requires ListOk(current, next, finished, ring) && k < |ring|
    ensures ring[0] == current && Distinct(ring) && LinkAt(next, ring, k) && ring[k] in finished && Circle(next, ring)
    ensures MAIN in ring && finished.Keys == next.Keys && forall f :: f in ring <==> f in next
  {}

  /** A moment of FreeFinishedFibers: the list, prev and cur, cur's place k in the list; whether each fiber was finished
      at the start, those that were, and the list as it should end up. */
  datatype Walk = Walk(current: nat, next: map<nat, nat>, finished: map<nat, bool>, ring: seq<nat>, prev: nat, cur: nat,
                       k: nat, was: map<nat, bool>, done: set<nat>, target: seq<nat>) {
    ghost predicate List() {
      ListOk(current, next, finished, ring)
    }

    /** What is before cur stays. */
    ghost predicate Sweeping() {
      && current != 0 && List() && 1 <= k <= |ring|
      && prev == ring[k - 1] && cur == (if k < |ring| then ring[k] else current)
      && (forall f :: f in finished ==> f in was && finished[f] == was[f])
      && (forall f :: f in was ==> (was[f] <==> f in done)) && MAIN !in done
      && target == ring[..k] + Unfinished(ring[k..], done)
    }
  }

  lemma SweepAt(w: Walk)
    requires w.Sweeping() && w.cur != w.current
    ensures w.k < |w.ring| && w.ring[w.k] == w.cur && w.ring[w.k - 1] == w.prev && w.List()
    ensures w.cur in w.next && w.prev in w.next && w.cur in w.finished
  {
    ListShape(w.current, w.next, w.finished, w.ring, w.k);
    ListShape(w.current, w.next, w.finished, w.ring, w.k - 1);
  }

  /** The list without the finished fiber at cur. */
  lemma SweepCut(w: Walk)
    requires w.Sweeping() && w.cur != w.current && w.cur in w.finished && w.finished[w.cur]
    ensures w.cur != MAIN && w.cur in w.next && w.prev in w.next && w.k < |w.ring|
    ensures var n, r := w.next[w.prev := w.next[w.cur]] - {w.cur}, Cut(w.ring, w.k);
            && ListOk(w.current, n, w.finished - {w.cur}, r) && w.prev in n
            && |r| == |w.ring| - 1 && r[w.k - 1] == w.prev
            && n[w.prev] == (if w.k < |r| then r[w.k] else w.current)
  {
    hide ListOk, Cut, Unfinished, Circle, Distinct;
    SweepAt(w);
    CutList(w.current, w.next, w.finished, w.ring, w.k);
    ListShape(w.current, w.next, w.finished, w.ring, w.k);
    CutShape(w.ring, w.k);
    ListShape(w.current, w.next[w.prev := w.next[w.cur]] - {w.cur}, w.finished - {w.cur}, Cut(w.ring, w.k), w.k - 1);
  }

  /** It is not in the list aimed at. */
  lemma SweepTarget(w: Walk)
    requires w.Sweeping() && w.cur != w.current && w.cur in w.finished && w.finished[w.cur] && w.k < |w.ring|
    ensures w.target == Cut(w.ring, w.k)[..w.k] + Unfinished(Cut(w.ring, w.k)[w.k..], w.done)
  {
    hide ListOk, Cut, Unfinished, Circle, Distinct;
    SweepAt(w);
    ListShape(w.current, w.next, w.finished, w.ring, w.k);
    CutShape(w.ring, w.k);
    Passed(w.ring, w.k, w.done);
  }

  lemma SweepFrees(w: Walk)
    requires w.Sweeping() && w.cur != w.current && w.cur in w.finished && w.finished[w.cur]
    ensures w.cur != MAIN && w.cur in w.next && w.prev in w.next && w.k < |w.ring|
    ensures var n, r := w.next[w.prev := w.next[w.cur]] - {w.cur}, Cut(w.ring, w.k);
            && w.prev in n && |r| == |w.ring| - 1
            && w.(next := n, finished := w.finished - {w.cur}, ring := r, cur := n[w.prev]).Sweeping()
  {
    hide ListOk, Cut, Unfinished, Circle, Distinct;
    SweepCut(w);
    SweepTarget(w);
  }

  lemma SweepKeeps(w: Walk)
    requires w.Sweeping() && w.cur != w.current && w.cur in w.finished && !w.finished[w.cur]
    ensures w.cur in w.next && w.k < |w.ring|
    ensures w.(prev := w.cur, cur := w.next[w.cur], k := w.k + 1).Sweeping()
  {
    hide ListOk, Unfinished, Circle, Distinct;
    SweepAt(w);
    ListShape(w.current, w.next, w.finished, w.ring, w.k);
    Passed(w.ring, w.k, w.done);
    var v := w.(prev := w.cur, cur := w.next[w.cur], k := w.k + 1);
    assert v.target == v.ring[..v.k] + Unfinished(v.ring[v.k..], v.done);
    assert v.List();
  }

  lemma SweepStart(current: nat, next: map<nat, nat>, finished: map<nat, bool>, ring: seq<nat>, done: set<nat>)
    returns (w: Walk)
    requires ListOk(current, next, finished, ring) && current != 0 && MAIN !in done
    requires forall f :: f in finished ==> (finished[f] <==> f in done)
    ensures current in next && ring != [] && w.Sweeping()
    ensures w == Walk(current, next, finished, ring, current, next[current], 1, finished, done, Sweep(ring, done))
  {
    ListShape(current, next, finished, ring, 0);
    w := Walk(current, next, finished, ring, current, next[current], 1, finished, done, Sweep(ring, done));
  }

  /** One turn of the loop. */
  lemma SweepTurn(w: Walk) returns (v: Walk)
    requires w.Sweeping() && w.cur != w.current
    ensures w.cur in w.finished && w.cur in w.next && w.prev in w.next && v.Sweeping()
    ensures 0 < w.k < |w.ring| && w.ring[w.k - 1] == w.prev && w.ring[w.k] == w.cur && w.List()
    ensures w.finished[w.cur] ==>
              var n := w.next[w.prev := w.next[w.cur]] - {w.cur};
              && w.cur != MAIN && w.prev in n
              && v == w.(next := n, finished := w.finished - {w.cur}, ring := Cut(w.ring, w.k), cur := n[w.prev])
              && |v.ring| == |w.ring| - 1
    ensures !w.finished[w.cur] ==> v == w.(prev := w.cur, cur := w.next[w.cur], k := w.k + 1)
  {
    hide ListOk, Cut, Sweep;
    SweepAt(w);
    if w.finished[w.cur] {
      SweepFrees(w);
      var n := w.next[w.prev := w.next[w.cur]] - {w.cur};
      v := w.(next := n, finished := w.finished - {w.cur}, ring := Cut(w.ring, w.k), cur := n[w.prev]);
    } else {
      SweepKeeps(w);
      v := w.(prev := w.cur, cur := w.next[w.cur], k := w.k + 1);
    }
  }

  lemma SweepDone(w: Walk)
    requires w.Sweeping() && w.cur == w.current
    ensures w.ring == w.target && w.List()
    ensures forall f :: f in w.ring ==> f in w.was && f in w.finished && w.finished[f] == w.was[f]
  {
    ListShape(w.current, w.next, w.finished, w.ring, 0);
    AtStart(w.ring, w.k);
    assert w.ring[..w.k] == w.ring && w.ring[w.k..] == [];
  }

  lemma NextRuns(current: nat, next: map<nat, nat>, finished: map<nat, bool>, ring: seq<nat>)
    requires ListOk(current, next, finished, ring)
    ensures ring != [] && current in next && (next[current] == current <==> |ring| == 1)
    ensures next[current] != 0 && ListOk(next[current], next, finished, Rotate(ring))
  {
    assert LinkAt(next, ring, 0);
    CircleRotates(next, ring);
    RotateShape(ring);
    if next[current] == current {
      Single(ring);
    }
    assert next[current] in ring by {
      assert |ring| > 1 ==> next[current] == ring[1];
    }
    hide Circle;
  }

  /** Those of the fibers that are marked finished. */
  ghost predicate Marked(ring: seq<nat>, finished: map<nat, bool>, done: set<nat>) {
    forall f :: f in ring ==> f in finished && (finished[f] <==> f in done)
  }

  lemma StillMarked(ring: seq<nat>, was: map<nat, bool>, finished: map<nat, bool>, done: set<nat>)
    requires forall f :: f in was ==> (f in done <==> was[f])
    requires forall f :: f in ring ==> f in was && f in finished && finished[f] == was[f]
    ensures Marked(ring, finished, done) && (ring != [] ==> Marked(Rotate(ring), finished, done))
  {}

  class Scheduler {
    var current: nat // CurrentFiber, 0 for NULL
    var next: map<nat, nat> // what is not in its domain is not allocated
    var finished: map<nat, bool>
    ghost var ring: seq<nat>

    ghost function Done(): set<nat>
      reads this
    {
      set f | f in finished && finished[f]
    }

    ghost predicate Valid()
      reads this
    {
      if current == 0 then ring == [] && next == map[] && finished == map[]
      else ListOk(current, next, finished, ring)
    }

    constructor ()
      ensures Valid() && current == 0
    {
      current := 0;
      next, finished := map[], map[];
      ring := [];
    }

    method InitMainFiber()
      requires Valid()
      modifies this
      ensures Valid() && current != 0
      ensures old(current) == 0 ==> ring == [MAIN] && finished == map[MAIN := false]
      ensures old(current) != 0 ==> unchanged(this)
    {
      if current != 0 {
        return;
      }
      next := map[MAIN := MAIN];
      finished := map[MAIN := false];
      current := MAIN;
      ring := [MAIN];
    }

    /** A new fiber, at the address malloc gives, goes to the end of the queue. */
    method FiberSpawn(f: bool, fiber: nat)
      requires Valid() && fiber !in next && fiber != 0 && fiber != MAIN
      modifies this
      ensures Valid()
      ensures !f ==> unchanged(this)
      ensures f ==> ring == (if old(current) == 0 then [MAIN] else old(ring)) + [fiber]
      ensures f ==> finished == (if old(current) == 0 then map[MAIN := false] else old(finished))[fiber := false]
    {
      if !f {
        return;
      }
      InitMainFiber();
      ghost var n := |ring|;
      AppendKeeps(next, ring, fiber);
      var tail := current;
      ghost var i: nat := 0;
      assert LinkAt(next, ring, 0);
      ghost var next0, ring0 := next, ring;
      while next[tail] != current
        invariant next == next0 && ring == ring0 && current == ring[0]
        invariant i < n && tail == ring[i] && LinkAt(next, ring, i)
        decreases n - i
      {
        assert LinkAt(next, ring, i + 1);
        tail := next[tail];
        i := i + 1;
      }
      LastLink(next, ring, i);
      finished := finished[fiber := false];
      next := next[fiber := current];
      next := next[tail := fiber];
      ring := ring + [fiber];
    }

    /** This moment of the sweep, with cur at place k. */
    ghost function At(prev: nat, cur: nat, k: nat, was: map<nat, bool>, done: set<nat>, target: seq<nat>): Walk
      reads this
    {
      Walk(current, next, finished, ring, prev, cur, k, was, done, target)
    }

    /** The finished fibers but the running one leave the list and are freed; no freed memory is touched. */
    method FreeFinishedFibers()
      requires Valid() && current != 0 && MAIN !in Done()
      modifies this
      ensures Valid() && current == old(current) && ring == Sweep(old(ring), old(Done()))
      ensures forall f :: f in ring ==> f in old(finished) && f in finished && finished[f] == old(finished)[f]
    {
      ghost var w := SweepStart(current, next, finished, ring, Done());
      hide Walk.Sweeping, ListOk, Sweep, Cut, Done;
      var prev := current;
      var cur := next[prev];
      while cur != current
        invariant w == At(prev, cur, w.k, old(finished), old(Done()), Sweep(old(ring), old(Done())))
        invariant w.Sweeping() && current == old(current)
        decreases |ring| - w.k
      {
        prev, cur, w := SweepNext(prev, cur, w);
      }
      SweepDone(w);
    }

    /** One turn of the loop of FreeFinishedFibers. */
    method SweepNext(prev0: nat, cur0: nat, ghost w: Walk) returns (prev: nat, cur: nat, ghost v: Walk)
      requires w == At(prev0, cur0, w.k, w.was, w.done, w.target) && w.Sweeping() && cur0 != current
      modifies this`next, this`finished, this`ring
      ensures v == At(prev, cur, v.k, w.was, w.done, w.target) && v.Sweeping()
      ensures |ring| - v.k < old(|ring|) - w.k && w.k < old(|ring|)
    {
      hide Walk.Sweeping, ListOk, Cut, Sweep, Unfinished, Circle, Distinct;
      v := SweepTurn(w);
      prev, cur := prev0, cur0;
      if finished[cur] {
        FreeNext(prev, cur, w.k);
        cur := next[prev];
        assert next == v.next && finished == v.finished && ring == v.ring;
      } else {
        prev := cur;
        cur := next[cur];
        assert v.ring == ring;
      }
    }

    /** cur, which is not the running fiber, leaves the list behind prev. */
    method FreeNext(prev: nat, cur: nat, ghost k: nat)
      requires ListOk(current, next, finished, ring) && cur != MAIN && prev in next && cur in next
      requires 0 < k < |ring| && ring[k - 1] == prev && ring[k] == cur
      modifies this`next, this`finished, this`ring
      ensures ListOk(current, next, finished, ring) && ring == Cut(old(ring), k)
      ensures next == old(next)[prev := old(next)[cur]] - {cur} && finished == old(finished) - {cur}
    {
      CutList(current, next, finished, ring, k);
      hide ListOk, Cut;
      next := next[prev := next[cur]];
      next := next - {cur};
      finished := finished - {cur};
      ring := Cut(ring, k);
    }

    /** Sweeps, then lets the next fiber run, if there is one. */
    method FiberYield()
      requires Valid() && (current != 0 ==> MAIN !in Done())
      modifies this
      ensures Valid() && current != 0
      ensures var q := Sweep(if old(current) == 0 then [MAIN] else old(ring), old(Done()));
              ring == if |q| == 1 then q else Rotate(q)
      ensures Marked(ring, finished, old(Done()))
    {
      hide ListOk, Circle, Distinct, Sweep, Unfinished, Rotate, Marked;
      InitMainFiber();
      assert Done() == old(Done());
      ghost var was := finished;
      FreeFinishedFibers();
      StillMarked(ring, was, finished, old(Done()));
      NextRuns(current, next, finished, ring);
      var from := current;
      var to := next[current];
      if to == from {
        return;
      }
      current := to;
      ring := Rotate(ring);
    }

    /** FiberTrampoline once the fiber's function has returned. What runs next is another fiber: its assertion is
        not reached. */
    method FiberReturn()
      requires Valid() && current != 0 && current != MAIN && MAIN !in Done() && current !in Done()
      modifies this
      ensures Valid() && current != 0 && current != old(current)
      ensures var q := Sweep(old(ring), old(Done()) + {old(current)}); ring == Rotate(q) && |q| > 1
      ensures Marked(ring, finished, old(Done()) + {old(current)})
    {
      hide Circle, Unfinished;
      ListShape(current, next, finished, ring, 0);
      ghost var q := Sweep(ring, Done() + {current});
      NotAlone(ring, Done() + {current});
      finished := finished[current := true];
      assert Done() == old(Done()) + {current};
      FiberYield();
      assert ring[0] == q[1];
    }

    method FiberTryJoin() returns (r: int)
      requires Valid() && (current != 0 ==> MAIN !in Done())
      modifies this
      ensures Valid() && ring == Sweep(if old(current) == 0 then [MAIN] else old(ring), old(Done()))
      ensures r == if |ring| == 1 then 1 else 0
      ensures Marked(ring, finished, old(Done()))
    {
      InitMainFiber();
      assert Done() == old(Done());
      ghost var was := finished;
      FreeFinishedFibers();
      StillMarked(ring, was, finished, old(Done()));
      hide Marked;
      NextRuns(current, next, finished, ring);
      return if next[current] == current then 1 else 0;
    }
  }

  /** The sweep at place k: a finished fiber is left out, another kept. */
  lemma Passed(ring: seq<nat>, k: nat, done: set<nat>)
    requires k < |ring|
    ensures ring[..k] + Unfinished(ring[k..], done) ==
            if ring[k] in done then ring[..k] + Unfinished(ring[k + 1..], done)
            else ring[..k + 1] + Unfinished(ring[k + 1..], done)
  {
    assert ring[k..][1..] == ring[k + 1..];
    assert ring[..k + 1] == ring[..k] + [ring[k]];
  }

  /** The main fiber stays, so a fiber that is not the main one is never alone. */
  lemma NotAlone(ring: seq<nat>, done: set<nat>)
    requires ring != [] && ring[0] != MAIN && Distinct(ring) && MAIN in ring && MAIN !in done
    ensures |Sweep(ring, done)| > 1 && Sweep(ring, done)[1] != ring[0]
  {
    SweepShape(ring, done);
    assert MAIN in Sweep(ring, done);
  }

  lemma LastLink(next: map<nat, nat>, ring: seq<nat>, i: nat)
    requires Circle(next, ring) && LinkAt(next, ring, i) && next[ring[i]] == ring[0]
    ensures i == |ring| - 1
  {}

  lemma AtStart(ring: seq<nat>, k: nat)
    requires Distinct(ring) && 1 <= k <= |ring| && (if k < |ring| then ring[k] else ring[0]) == ring[0]
    ensures k == |ring|
  {}

  lemma Single(ring: seq<nat>)
    requires Distinct(ring) && ring != [] && Succ(ring, 0) == ring[0]
    ensures |ring| == 1
  {}

  lemma CutShape(ring: seq<nat>, k: nat)
    requires Distinct(ring) && 0 < k < |ring|
    ensures var r := Cut(ring, k);
            && |r| == |ring| - 1 && r[k - 1] == ring[k - 1] && r[..k] == ring[..k] && r[k..] == ring[k + 1..]
                && r[0] == ring[0]
            && (forall f :: f in r <==> f in ring && f != ring[k])
  {
    var r := Cut(ring, k);
    forall f | f in ring && f != ring[k] ensures f in r {
      var i :| 0 <= i < |ring| && ring[i] == f;
      assert f == if i < k then r[i] else r[i - 1];
    }
  }

  lemma RotateShape(ring: seq<nat>)
    requires ring != []
    ensures |Rotate(ring)| == |ring| && forall f :: f in Rotate(ring) <==> f in ring
  {
    var r := Rotate(ring);
    forall f | f in ring ensures f in r {
      var i :| 0 <= i < |ring| && ring[i] == f;
      assert r[if i == 0 then |ring| - 1 else i - 1] == f;
    }
  }

  // ---- the code follows the queue ----

  /** The list is the queue, and each fiber in it is marked as the queue has it. Before the first call there is only
      the main fiber. */
  ghost predicate Shows(d: Scheduler, s: State)
    reads d
  {
    && s.queue == (if d.current == 0 then [MAIN] else d.ring)
    && forall f :: f in s.queue ==> (f in s.finished <==> f in d.Done())
  }

  /** A call of the code is an event of the queue; r is what FiberTryJoin returns. A fiber is a call of FiberSpawn, so
      the address it gets is one not used before. The main fiber never gets to FiberTrampoline. */
  method Follow(d: Scheduler, e: Event, ghost s: State) returns (r: int)
    requires d.Valid() && Inv(s) && Shows(d, s)
    requires e.Spawn? ==> e.f != 0 && e.f != MAIN && e.f !in s.queue && e.f !in s.freed && e.f !in s.finished
    requires e.Return? ==> d.current != 0 && d.current != MAIN
    modifies d
    ensures Enabled(s, e) && d.Valid() && Inv(Do(s, e)) && Shows(d, Do(s, e))
    ensures e.TryJoin? ==> (r == 1 <==> |Do(s, e).queue| == 1)
  {
    MainOpen(d, s);
    assert Enabled(s, e);
    hide Inv, Do, Enabled, ListOk;
    StepKeeps(s, e);
    r := 0;
    match e
    case Spawn(f) => FollowSpawn(d, f, s);
    case Yield => FollowYield(d, s);
    case TryJoin => r := FollowJoin(d, s);
    case Return => FollowReturn(d, s);
  }

  method FollowSpawn(d: Scheduler, f: nat, ghost s: State)
    requires d.Valid() && Inv(s) && Enabled(s, Spawn(f)) && Shows(d, s) && f != 0
    modifies d
    ensures d.Valid() && Shows(d, Do(s, Spawn(f)))
  {
    NotInList(d, s, f);
    hide Inv, ListOk;
    d.FiberSpawn(true, f);
  }

  method FollowYield(d: Scheduler, ghost s: State)
    requires d.Valid() && Inv(s) && Enabled(s, Yield) && Shows(d, s)
    modifies d
    ensures d.Valid() && Shows(d, Do(s, Yield))
  {
    MainOpen(d, s);
    ghost var was := d.Done();
    SameSweep(s.queue, s.finished, was);
    DoIs(s, Yield);
    hide Inv, Do, ListOk, Sweep, Rotate, Enabled, Marked, Shows, Unfinished;
    assert s.queue == if d.current == 0 then [MAIN] else d.ring by { ShowsIs(d, s); }
    d.FiberYield();
    SweptShows(d, s, Do(s, Yield), s.finished, was);
  }

  method FollowJoin(d: Scheduler, ghost s: State) returns (r: int)
    requires d.Valid() && Inv(s) && Enabled(s, TryJoin) && Shows(d, s)
    modifies d
    ensures d.Valid() && Shows(d, Do(s, TryJoin)) && (r == 1 <==> |Do(s, TryJoin).queue| == 1)
  {
    MainOpen(d, s);
    ghost var was := d.Done();
    SameSweep(s.queue, s.finished, was);
    DoIs(s, TryJoin);
    hide Inv, Do, ListOk, Sweep, Rotate, Enabled, Marked, Shows, Unfinished;
    assert s.queue == if d.current == 0 then [MAIN] else d.ring by { ShowsIs(d, s); }
    r := d.FiberTryJoin();
    SweptShows(d, s, Do(s, TryJoin), s.finished, was);
  }

  method FollowReturn(d: Scheduler, ghost s: State)
    requires d.Valid() && Inv(s) && Enabled(s, Return) && Shows(d, s) && d.current != 0
    modifies d
    ensures d.Valid() && Shows(d, Do(s, Return))
  {
    MainOpen(d, s);
    ghost var fin, was := s.finished + {s.queue[0]}, d.Done() + {s.queue[0]};
    SameSweep(s.queue, fin, was);
    DoIs(s, Return);
    hide Inv, Do, ListOk, Sweep, Rotate, Enabled, Marked, Shows, Unfinished;
    assert s.queue == d.ring by { ShowsIs(d, s); }
    d.FiberReturn();
    SweptShows(d, s, Do(s, Return), fin, was);
  }

  lemma ShowsIs(d: Scheduler, s: State)
    requires Shows(d, s)
    ensures s.queue == if d.current == 0 then [MAIN] else d.ring
  {}

  /** After a sweep, rotated or not, the list still shows the queue. */
  lemma SweptShows(d: Scheduler, s: State, t: State, fin: set<nat>, was: set<nat>)
    requires s.queue != [] && (forall f :: f in s.queue ==> (f in fin <==> f in was))
    requires d.current != 0 && d.ring == t.queue && Marked(d.ring, d.finished, was) && t.finished == fin
    requires t.queue == Sweep(s.queue, fin) || t.queue == Rotate(Sweep(s.queue, fin))
    ensures Shows(d, t)
  {
    SameSweep(s.queue, fin, was);
    RotateMembers(Sweep(s.queue, fin));
    hide Sweep, Rotate;
  }

  lemma DoIs(s: State, e: Event)
    requires Enabled(s, e)
    ensures var t := Do(s, e);
            match e
            case Spawn(f) => t.queue == s.queue + [f] && t.finished == s.finished
            case Yield =>
              var q := Sweep(s.queue, s.finished);
              t.queue == (if |q| == 1 then q else Rotate(q)) && t.finished == s.finished
            case TryJoin => t.queue == Sweep(s.queue, s.finished) && t.finished == s.finished
            case Return =>
              var q := Sweep(s.queue, s.finished + {s.queue[0]});
              t.queue == (if |q| == 1 then q else Rotate(q)) && t.finished == s.finished + {s.queue[0]}
  {}

  lemma RotateMembers(q: seq<nat>)
    ensures q != [] ==> forall f :: f in Rotate(q) <==> f in q
  {
    if q != [] {
      assert q == [q[0]] + q[1..];
    }
  }

  lemma MainOpen(d: Scheduler, s: State)
    requires d.Valid() && Inv(s) && Shows(d, s)
    ensures d.current != 0 ==> MAIN !in d.Done() && d.current == s.queue[0] && d.current !in d.Done()
  {
    if d.current != 0 {
      ListShape(d.current, d.next, d.finished, d.ring, 0);
    }
  }

  lemma NotInList(d: Scheduler, s: State, f: nat)
    requires d.Valid() && Shows(d, s) && f !in s.queue
    ensures f !in d.next
  {
    if d.current != 0 {
      ListShape(d.current, d.next, d.finished, d.ring, 0);
    }
  }

  lemma SameSweep(q: seq<nat>, a: set<nat>, b: set<nat>)
    requires q != [] && forall f :: f in q ==> (f in a <==> f in b)
    ensures Sweep(q, a) == Sweep(q, b) && forall f :: f in Sweep(q, a) ==> f in q
  {
    SameUnfinished(q[1..], a, b);
    UnfinishedShape(q[1..], a);
  }

  lemma {:induction false} SameUnfinished(q: seq<nat>, a: set<nat>, b: set<nat>)
    requires forall f :: f in q ==> (f in a <==> f in b)
    ensures Unfinished(q, a) == Unfinished(q, b)
  {
    if q != [] {
      SameUnfinished(q[1..], a, b);
    }
  }
}
