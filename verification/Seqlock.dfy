/** seqlock.h: readers take no lock and check afterwards that no writer came by. Any number of threads and of
    protected words; the words are read and written one at a time, in any order; the counter is unbounded. */
module Seqlock {
  datatype Pc =
    | Idle
    | Locked // has the spinlock, first increment still to come
    | Writing // between the two increments
    | Leaving // past the second increment, spinlock still held
    | Reading(start: nat, got: seq<Seen>)
    | Returned(ok: bool, start: nat, got: seq<Seen>) // from SeqLock_ReadUnlock

  /** One read of a word: word k was v. */
  datatype Seen = Seen(k: nat, v: int)

  /** versions records what the words were each time the counter became even: nothing reads it. */
  datatype State = State(count: nat, locked: bool, words: seq<int>, pc: seq<Pc>, versions: seq<seq<int>>)

  datatype Act = Lock | Begin | Write(k: nat, v: int) | End | Unlock | ReadLock | Read(k: nat) | ReadUnlock | Again

  predicate Enabled(s: State, t: nat, a: Act) {
    && t < |s.pc|
    && match a
       case Lock => s.pc[t].Idle? && !s.locked
       case Begin => s.pc[t].Locked?
       case Write(k, v) => s.pc[t].Writing? && k < |s.words|
       case End => s.pc[t].Writing?
       case Unlock => s.pc[t].Leaving?
       case ReadLock => s.pc[t].Idle?
       case Read(k) => s.pc[t].Reading? && k < |s.words|
       case ReadUnlock => s.pc[t].Reading?
       case Again => s.pc[t].Returned?
  }

  function Do(s: State, t: nat, a: Act): State
    requires Enabled(s, t, a)
  {
    match a
    case Lock => s.(locked := true, pc := s.pc[t := Locked])
    case Begin => s.(count := s.count + 1, pc := s.pc[t := Writing])
    case Write(k, v) => s.(words := s.words[k := v])
    case End => s.(count := s.count + 1, pc := s.pc[t := Leaving], versions := s.versions + [s.words])
    case Unlock => s.(locked := false, pc := s.pc[t := Idle])
    case ReadLock => s.(pc := s.pc[t := Reading(s.count, [])])
    case Read(k) => s.(pc := s.pc[t := Reading(s.pc[t].start, s.pc[t].got + [Seen(k, s.words[k])])])
    case ReadUnlock =>
      var r := s.pc[t];
      s.(pc := s.pc[t := Returned(s.count == r.start && r.start % 2 == 0, r.start, r.got)])
    case Again => s.(pc := s.pc[t := Idle])
  }

  ghost predicate Init(s: State) {
    s.count == 0 && !s.locked && (forall t :: 0 <= t < |s.pc| ==> s.pc[t] == Idle) && s.versions == [s.words]
  }

  /** What happened: who did what. */
  datatype Event = Event(t: nat, a: Act)

  ghost predicate Run(s: State, events: seq<Event>, end: State)
    decreases |events|
  {
    if events == [] then end == s
    else Enabled(s, events[0].t, events[0].a) && Run(Do(s, events[0].t, events[0].a), events[1..], end)
  }

  predicate Writer(p: Pc) {
    p.Locked? || p.Writing? || p.Leaving?
  }

  /** The words read so far are those of the version the reader started in. */
  predicate Consistent(s: State, start: nat, got: seq<Seen>) {
    && start % 2 == 0 && start / 2 < |s.versions| && |s.versions[start / 2]| == |s.words|
    && forall i :: 0 <= i < |got| ==> got[i].k < |s.words| && got[i].v == s.versions[start / 2][got[i].k]
  }

  predicate ThreadOk(s: State, t: nat)
    requires t < |s.pc|
  {
    match s.pc[t]
    case Reading(start, got) => start <= s.count && (start == s.count && start % 2 == 0 ==> Consistent(s, start, got))
    case Returned(ok, start, got) => ok ==> Consistent(s, start, got)
    case _ => true
  }

  ghost predicate Inv(s: State) {
    && (forall t, u :: 0 <= t < |s.pc| && 0 <= u < |s.pc| && Writer(s.pc[t]) && Writer(s.pc[u]) ==> t == u)
    && (s.locked <==> exists t :: 0 <= t < |s.pc| && Writer(s.pc[t]))
    && (s.count % 2 == 1 <==> exists t :: 0 <= t < |s.pc| && s.pc[t].Writing?)
    && |s.versions| == s.count / 2 + 1
    && (forall n :: 0 <= n < |s.versions| ==> |s.versions[n]| == |s.words|)
    && (s.count % 2 == 0 ==> s.versions[s.count / 2] == s.words)
    && (forall t :: 0 <= t < |s.pc| ==> ThreadOk(s, t))
  }

  lemma StepKeeps(s: State, t: nat, a: Act)
    requires Inv(s) && Enabled(s, t, a)
    ensures Inv(Do(s, t, a))
  {
    OddOnlyWriting(s, t, a);
    LockedKept(s, t, a);
    OneWriter(s, t, a);
    ReadersKept(s, t, a);
    hide ThreadOk, Writer;
  }

  lemma OneWriter(s: State, t: nat, a: Act)
    requires Inv(s) && Enabled(s, t, a)
    ensures var pc := Do(s, t, a).pc;
            forall u, v :: 0 <= u < |pc| && 0 <= v < |pc| && Writer(pc[u]) && Writer(pc[v]) ==> u == v
  {
    hide ThreadOk;
  }

  lemma ReadersKept(s: State, t: nat, a: Act)
    requires Inv(s) && Enabled(s, t, a)
    ensures var s' := Do(s, t, a); forall u :: 0 <= u < |s'.pc| ==> ThreadOk(s', u)
  {
    var s' := Do(s, t, a);
    forall u | 0 <= u < |s'.pc| ensures ThreadOk(s', u) {
      assert ThreadOk(s, u);
    }
  }

  lemma LockedKept(s: State, t: nat, a: Act)
    requires Inv(s) && Enabled(s, t, a)
    ensures var s' := Do(s, t, a); s'.locked <==> exists u :: 0 <= u < |s'.pc| && Writer(s'.pc[u])
  {
    var s' := Do(s, t, a);
    if s.locked && !a.Unlock? {
      var w :| 0 <= w < |s.pc| && Writer(s.pc[w]);
      assert Writer(s'.pc[w]);
    }
    if a.Lock? {
      assert Writer(s'.pc[t]);
    }
  }

  lemma OddOnlyWriting(s: State, t: nat, a: Act)
    requires Inv(s) && Enabled(s, t, a)
    ensures var s' := Do(s, t, a); s'.count % 2 == 1 <==> exists u :: 0 <= u < |s'.pc| && s'.pc[u].Writing?
    ensures a.Write? ==> s.count % 2 == 1
  {
    var s' := Do(s, t, a);
    assert s.pc[t].Writing? ==> s.count % 2 == 1;
    if s.count % 2 == 1 && !a.End? {
      var w :| 0 <= w < |s.pc| && s.pc[w].Writing?;
      assert a.Begin? ==> t == w;
      assert s'.pc[w].Writing?;
    }
    if a.Begin? {
      assert s'.pc[t].Writing?;
    }
  }

  lemma {:induction false} RunKeeps(s: State, events: seq<Event>, end: State)
    requires Inv(s) && Run(s, events, end)
    ensures Inv(end)
    decreases |events|
  {
    if events != [] {
      StepKeeps(s, events[0].t, events[0].a);
      RunKeeps(Do(s, events[0].t, events[0].a), events[1..], end);
    }
  }

  /** Every read of a reader told true was of one committed version, the one in force when it started. */
  lemma Snapshot(s: State, events: seq<Event>, end: State, t: nat)
    requires Init(s) && Run(s, events, end) && t < |end.pc|
    requires end.pc[t].Returned? && end.pc[t].ok
    ensures exists n :: 0 <= n < |end.versions| && end.pc[t].start == 2 * n
                        && forall i :: 0 <= i < |end.pc[t].got| ==>
                             var seen := end.pc[t].got[i];
                             seen.k < |end.versions[n]| && seen.v == end.versions[n][seen.k]
  {
    RunKeeps(s, events, end);
    assert ThreadOk(end, t);
    assert end.pc[t].start == 2 * (end.pc[t].start / 2);
  }

  /** The counter is odd exactly while a writer is between its increments, there is one writer at most, and the spinlock
      is taken exactly while there is one. */
  lemma OddExactly(s: State, events: seq<Event>, end: State)
    requires Init(s) && Run(s, events, end)
    ensures end.count % 2 == 1 <==> exists t :: 0 <= t < |end.pc| && end.pc[t].Writing?
    ensures forall t, u :: 0 <= t < |end.pc| && 0 <= u < |end.pc| && Writer(end.pc[t]) && Writer(end.pc[u]) ==> t == u
    ensures end.locked <==> exists t :: 0 <= t < |end.pc| && Writer(end.pc[t])
  {
    RunKeeps(s, events, end);
  }

  /** Committed versions stay: a longer run has the same versions and perhaps more after them. */
  lemma {:induction false} VersionsGrow(s: State, events: seq<Event>, end: State)
    requires Run(s, events, end)
    ensures s.versions <= end.versions
    decreases |events|
  {
    if events != [] {
      VersionsGrow(Do(s, events[0].t, events[0].a), events[1..], end);
    }
  }

  /** Between ReadLock and ReadUnlock thread t only reads. */
  ghost predicate OnlyReads(events: seq<Event>, t: nat) {
    forall i :: 0 <= i < |events| && events[i].t == t ==> events[i].a.Read?
  }

  ghost predicate NoWriterBegins(events: seq<Event>) {
    forall i :: 0 <= i < |events| ==> !events[i].a.Begin?
  }

  lemma {:induction false} StillReading(s: State, events: seq<Event>, end: State, t: nat)
    requires Inv(s) && Run(s, events, end) && OnlyReads(events, t) && t < |s.pc| && s.pc[t].Reading?
    ensures |end.pc| == |s.pc| && end.pc[t].Reading? && end.pc[t].start == s.pc[t].start && end.count >= s.count
    ensures s.count % 2 == 0 ==> (end.count == s.count <==> NoWriterBegins(events))
    decreases |events|
  {
    if events != [] {
      var e, m := events[0], Do(s, events[0].t, events[0].a);
      StepKeeps(s, e.t, e.a);
      assert OnlyReads(events[1..], t);
      StillReading(m, events[1..], end, t);
      assert e.a.End? ==> s.pc[e.t].Writing?;
      assert NoWriterBegins(events) <==> !e.a.Begin? && NoWriterBegins(events[1..]) by {
        assert events == [e] + events[1..];
      }
    }
  }

  /** A reader is told true exactly when no writer was between its increments as it started and none began since. */
  lemma TrueExactly(s0: State, before: seq<Event>, s: State, events: seq<Event>, end: State, t: nat)
    requires Init(s0) && Run(s0, before, s)
    requires Enabled(s, t, ReadLock) && Run(Do(s, t, ReadLock), events, end) && OnlyReads(events, t)
    ensures Enabled(end, t, ReadUnlock)
    ensures Do(end, t, ReadUnlock).pc[t].ok <==>
              NoWriterBegins(events) && forall u :: 0 <= u < |s.pc| ==> !s.pc[u].Writing?
  {
    RunKeeps(s0, before, s);
    StepKeeps(s, t, ReadLock);
    StillReading(Do(s, t, ReadLock), events, end, t);
  }

  // ---- what is written and what is read ----

  /** The words after the writes among the events. */
  function Stored(words: seq<int>, events: seq<Event>): seq<int>
    decreases |events|
  {
    if events == [] then words
    else
      var a := events[0].a;
      Stored(if a.Write? && a.k < |words| then words[a.k := a.v] else words, events[1..])
  }

  /** Between its increments thread t only writes. */
  ghost predicate OnlyWrites(events: seq<Event>, t: nat) {
    forall i :: 0 <= i < |events| && events[i].t == t ==> events[i].a.Write?
  }

  lemma {:induction false} StillWriting(s: State, events: seq<Event>, end: State, t: nat)
    requires Inv(s) && Run(s, events, end) && OnlyWrites(events, t) && t < |s.pc| && s.pc[t].Writing?
    ensures Inv(end) && |end.pc| == |s.pc| && end.pc[t].Writing? && end.versions == s.versions
    ensures end.words == Stored(s.words, events)
    ensures forall i :: 0 <= i < |events| && events[i].a.Write? ==> events[i].t == t
    decreases |events|
  {
    if events != [] {
      var e, m := events[0], Do(s, events[0].t, events[0].a);
      StepKeeps(s, e.t, e.a);
      assert Writer(s.pc[t]) && (Writer(s.pc[e.t]) ==> e.t == t);
      assert OnlyWrites(events[1..], t);
      StillWriting(m, events[1..], end, t);
      assert events == [e] + events[1..];
    }
  }

  /** A writer commits the version before it with its own writes made to it in order, and nobody else's. */
  lemma Commits(s0: State, before: seq<Event>, s: State, events: seq<Event>, end: State, t: nat)
    requires Init(s0) && Run(s0, before, s)
    requires Enabled(s, t, Begin) && Run(Do(s, t, Begin), events, end) && OnlyWrites(events, t)
    ensures Enabled(end, t, End) && s.versions != [] && s.versions[|s.versions| - 1] == s.words
    ensures Do(end, t, End).versions == s.versions + [Stored(s.words, events)]
    ensures forall i :: 0 <= i < |events| && events[i].a.Write? ==> events[i].t == t
  {
    RunKeeps(s0, before, s);
    assert Writer(s.pc[t]);
    if s.count % 2 == 1 {
      var w :| 0 <= w < |s.pc| && s.pc[w].Writing?;
      assert Writer(s.pc[w]);
      assert false;
    }
    StepKeeps(s, t, Begin);
    StillWriting(Do(s, t, Begin), events, end, t);
  }

  /** The words thread t asks for. */
  function Asked(events: seq<Event>, t: nat): seq<nat>
    decreases |events|
  {
    if events == [] then []
    else (if events[0].t == t && events[0].a.Read? then [events[0].a.k] else []) + Asked(events[1..], t)
  }

  function Ks(got: seq<Seen>): (r: seq<nat>)
    ensures |r| == |got| && forall i :: 0 <= i < |got| ==> r[i] == got[i].k
  {
    seq(|got|, i requires 0 <= i < |got| => got[i].k)
  }

  lemma GotStep(s: State, e: Event, t: nat)
    requires Enabled(s, e.t, e.a) && t < |s.pc| && s.pc[t].Reading? && (e.t == t ==> e.a.Read?)
    ensures var m := Do(s, e.t, e.a);
            && |m.pc| == |s.pc| && m.pc[t].Reading?
            && Ks(m.pc[t].got) == Ks(s.pc[t].got) + if e.t == t then [e.a.k] else []
  {
    if e.t != t {
      assert Ks(s.pc[t].got) + [] == Ks(s.pc[t].got);
    }
  }

  lemma {:induction false} GotAsked(s: State, events: seq<Event>, end: State, t: nat)
    requires Run(s, events, end) && OnlyReads(events, t) && t < |s.pc| && s.pc[t].Reading?
    ensures |end.pc| == |s.pc| && end.pc[t].Reading? && Ks(end.pc[t].got) == Ks(s.pc[t].got) + Asked(events, t)
    decreases |events|
  {
    hide Do, Enabled, Ks;
    if events == [] {
      assert Ks(s.pc[t].got) + [] == Ks(s.pc[t].got);
    } else {
      assert OnlyReads(events[1..], t);
      GotStep(s, events[0], t);
      GotAsked(Do(s, events[0].t, events[0].a), events[1..], end, t);
      var head := if events[0].t == t then [events[0].a.k] else [];
      assert Ks(s.pc[t].got) + head + Asked(events[1..], t) == Ks(s.pc[t].got) + (head + Asked(events[1..], t));
    }
  }

  /** A reader has the words it asked for, in order. */
  lemma ReadsAsked(s: State, events: seq<Event>, end: State, t: nat)
    requires Enabled(s, t, ReadLock) && Run(Do(s, t, ReadLock), events, end) && OnlyReads(events, t)
    ensures Enabled(end, t, ReadUnlock) && Ks(Do(end, t, ReadUnlock).pc[t].got) == Asked(events, t)
  {
    GotAsked(Do(s, t, ReadLock), events, end, t);
    assert Ks([]) == [];
  }

  /** Where an act leaves its thread. */
  predicate Leaves(p: Pc, a: Act) {
    match a
    case Lock => p.Locked?
    case Begin => p.Writing?
    case Write(_, _) => p.Writing?
    case End => p.Leaving?
    case Unlock => p.Idle?
    case ReadLock => p.Reading?
    case Read(_) => p.Reading?
    case ReadUnlock => p.Returned?
    case Again => p.Idle?
  }

  ghost predicate Without(events: seq<Event>, t: nat) {
    forall i :: 0 <= i < |events| ==> events[i].t != t
  }

  lemma {:induction false} Untouched(s: State, events: seq<Event>, end: State, t: nat)
    requires Run(s, events, end) && Without(events, t) && t < |s.pc|
    ensures |end.pc| == |s.pc| && end.pc[t] == s.pc[t]
    decreases |events|
  {
    if events != [] {
      Untouched(Do(s, events[0].t, events[0].a), events[1..], end, t);
    }
  }

  /** A thread is where its own last act left it, whatever the others have done since. */
  lemma {:induction false} LastAct(s: State, events: seq<Event>, end: State, i: nat)
    requires Run(s, events, end) && i < |events| && Without(events[i + 1..], events[i].t)
    ensures events[i].t < |end.pc| && Leaves(end.pc[events[i].t], events[i].a)
    decreases i
  {
    var m := Do(s, events[0].t, events[0].a);
    if i == 0 {
      Untouched(m, events[1..], end, events[0].t);
    } else {
      assert events[1..][i..] == events[i + 1..];
      LastAct(m, events[1..], end, i - 1);
    }
  }
}
