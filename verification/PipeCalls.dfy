/** Whole calls of pipewrite and piperead, over all the sections they are cut into by sleeping. */
module PipeCalls {
  import opened PipeSpec

  /** Process t's own section. */
  predicate By(e: Event, t: nat) {
    (e.Write? || e.Read? || e.Resume?) && e.t == t
  }

  function KilledIn(e: Event): bool {
    (e.Write? || e.Read? || e.Resume?) && e.killed
  }

  function Grown(a: seq<byte>, b: seq<byte>): seq<byte> {
    if |a| <= |b| then b[|a|..] else []
  }

  /** The bytes that the sections of process t stored from state b to state n, in order. */
  function StoredBy(run: seq<State>, events: seq<Event>, b: nat, n: nat, t: nat): seq<byte>
    requires n < |run| && n <= |events|
  {
    if n <= b then []
    else StoredBy(run, events, b, n - 1, t)
         + if By(events[n - 1], t) then Grown(run[n - 1].p.stored, run[n].p.stored) else []
  }

  /** The bytes that they took out. */
  function TakenBy(run: seq<State>, events: seq<Event>, b: nat, n: nat, t: nat): seq<byte>
    requires n < |run| && n <= |events|
  {
    if n <= b then []
    else TakenBy(run, events, b, n - 1, t)
         + if By(events[n - 1], t) then Grown(run[n - 1].p.delivered, run[n].p.delivered) else []
  }

  /** Process t made a call at event b and has not returned before state n. */
  ghost predicate InCall(run: seq<State>, b: nat, n: nat, t: nat) {
    b < n < |run| && forall j: nat :: b < j < n && t < |run[j].pc| ==> !run[j].pc[t].Idle?
  }

  // ---- one section ----

  lemma WriteOnce(s: State, t: nat, src: seq<byte>, i: nat, killed: bool)
    requires Inv(s.p) && t < |s.pc| == |s.ret| && i <= |src|
    ensures var s' := DoWrite(s, t, src, i, killed);
            var j := i + |Grown(s.p.stored, s'.p.stored)|;
            && |s'.pc| == |s'.ret| == |s.pc| && j <= |src| && s'.p.stored == s.p.stored + src[i..j]
            && s'.p.delivered == s.p.delivered && s'.p.readopen == s.p.readopen
            && (s'.pc[t] == if s'.ret[t].Asleep? then Writing(src, j) else Idle)
            && (s'.ret[t].Done? <==> j == |src|) && (s'.ret[t].Done? ==> s'.ret[t].n == |src|)
            && (s'.ret[t].Failed? <==> j < |src| && (killed || !s'.p.readopen))
            && (j < |src| ==> Full(s'.p))
  {
    hide Inv, Fill, Full;
    SleepersFull(s.p);
    FillKeeps(s.p, src, i);
    var (q, j) := Fill(s.p, src, i);
    var s' := DoWrite(s, t, src, i, killed);
    assert s'.p.stored == q.stored && s'.p.delivered == q.delivered && s'.p.readopen == q.readopen;
    FullIs(q, s'.p);
  }

  lemma SleepersFull(p: Pipe)
    requires Inv(p)
    ensures (p.writers == {} || Full(p)) && |p.data| == PIPESIZE
  {
    Counters(p);
  }

  lemma FullIs(q: Pipe, p: Pipe)
    requires p.nread == q.nread && p.nwrite == q.nwrite
    ensures Full(p) == Full(q)
  {}

  lemma ReadOnce(s: State, t: nat, m: nat, killed: bool)
    requires Inv(s.p) && t < |s.pc| == |s.ret|
    ensures var s' := DoRead(s, t, m, killed);
            var k, inside := |Grown(s.p.delivered, s'.p.delivered)|, |s.p.stored| - |s.p.delivered|;
            && |s'.pc| == |s'.ret| == |s.pc| && s'.p.stored == s.p.stored && s'.p.writeopen == s.p.writeopen
            && |s.p.delivered| + k <= |s.p.stored| && s'.p.delivered == s.p.stored[..|s.p.delivered| + k]
            && s.p.delivered == s.p.stored[..|s.p.delivered|]
            && (s'.pc[t] == if s'.ret[t].Asleep? then Reading(m) else Idle)
            && (s'.ret[t].Done? <==> inside > 0 || !s.p.writeopen)
            && (s'.ret[t].Done? ==> s'.ret[t].n == k == if m < inside then m else inside)
            && (!s'.ret[t].Done? ==> k == 0 && (s'.ret[t].Failed? <==> killed))
  {
    hide Drain;
    ReadKeeps(s.p, t, m, killed);
    DrainKeeps(s.p, m);
    Counters(s.p);
  }

  // ---- a whole pipewrite ----

  /** What is true of a pipewrite of src that has stored w and got as far as state s. */
  ghost predicate WriteStands(s: State, t: nat, src: seq<byte>, w: seq<byte>, killed: bool) {
    && t < |s.pc| == |s.ret| && |w| <= |src| && w == src[..|w|]
    && (s.pc[t] == if s.ret[t].Asleep? then Writing(src, |w|) else Idle)
    && (s.ret[t].Done? <==> |w| == |src|) && (s.ret[t].Done? ==> s.ret[t].n == |src|)
    && (s.ret[t].Failed? ==> Full(s.p) && (killed || !s.p.readopen))
  }

  lemma WriteBegins(s: State, t: nat, src: seq<byte>, killed: bool)
    requires Inv(s.p) && Enabled(s, Write(t, src, killed))
    ensures var s' := Do(s, Write(t, src, killed));
            WriteStands(s', t, src, [] + Grown(s.p.stored, s'.p.stored), killed)
  {
    WriteOnce(s, t, src, 0, killed);
  }

  lemma WriteGoesOn(s: State, e: Event, t: nat, src: seq<byte>, w: seq<byte>, killed: bool)
    requires Inv(s.p) && Enabled(s, e) && WriteStands(s, t, src, w, killed) && !s.pc[t].Idle?
    ensures var s' := Do(s, e);
            WriteStands(s', t, src, w + (if By(e, t) then Grown(s.p.stored, s'.p.stored) else []), KilledIn(e))
  {
    if By(e, t) {
      WriteOnce(s, t, src, |w|, e.killed);
      var s' := Do(s, e);
      var j := |w| + |Grown(s.p.stored, s'.p.stored)|;
      assert Grown(s.p.stored, s'.p.stored) == src[|w|..j];
      assert src[..|w|] + src[|w|..j] == src[..j];
    } else {
      assert w + [] == w;
    }
  }

  /** A whole pipewrite, however often it sleeps and whatever others do meanwhile: its sections store a prefix of src in
      order, without gap or repetition. It returns |src| exactly when that is all of src; it returns -1 only with the
      pipe full, and killed or without readers. */
  lemma {:induction false} WholeWrite(run: seq<State>, events: seq<Event>, b: nat, n: nat, t: nat)
    requires Run(run, events) && b < |events| && events[b].Write? && events[b].t == t && InCall(run, b, n, t)
    ensures WriteStands(run[n], t, events[b].src, StoredBy(run, events, b, n, t), KilledIn(events[n - 1]))
  {
    hide Inv, Do, Enabled, WriteStands;
    RunKeeps(run, events, n - 1);
    assert StepAt(run, events, n - 1);
    if n == b + 1 {
      assert StoredBy(run, events, b, b, t) == [];
      WriteBegins(run[b], t, events[b].src, events[b].killed);
    } else {
      WholeWrite(run, events, b, n - 1, t);
      StandsShape(run[n - 1], t, events[b].src, StoredBy(run, events, b, n - 1, t), KilledIn(events[n - 2]));
      WriteGoesOn(run[n - 1], events[n - 1], t, events[b].src, StoredBy(run, events, b, n - 1, t),
                  KilledIn(events[n - 2]));
    }
  }

  lemma StandsShape(s: State, t: nat, src: seq<byte>, w: seq<byte>, killed: bool)
    requires WriteStands(s, t, src, w, killed)
    ensures t < |s.pc| == |s.ret|
  {}

  // ---- a whole piperead ----

  /** What is true of a piperead of up to m bytes that has got as far as state s, having taken out g; before is the
      state its last section found. */
  ghost predicate ReadStands(before: State, s: State, t: nat, m: nat, g: seq<byte>, killed: bool) {
    && t < |s.pc| == |s.ret|
    && (s.pc[t] == if s.ret[t].Asleep? then Reading(m) else Idle)
    && (!s.ret[t].Done? ==> g == [])
    && (s.ret[t].Failed? ==> killed && before.p.stored == before.p.delivered && before.p.writeopen)
    && (s.ret[t].Done? ==>
          var r, w := |before.p.delivered|, |before.p.stored|;
          && r + |g| <= w && g == before.p.stored[r..r + |g|] && s.ret[t].n == |g| == (if m < w - r then m else w - r)
          && (g == [] && m > 0 ==> !before.p.writeopen))
  }

  lemma ReadBegins(s: State, t: nat, m: nat, killed: bool)
    requires Inv(s.p) && Enabled(s, Read(t, m, killed))
    ensures var s' := Do(s, Read(t, m, killed));
            ReadStands(s, s', t, m, [] + Grown(s.p.delivered, s'.p.delivered), killed)
  {
    ReadOnce(s, t, m, killed);
    Taken(s, Do(s, Read(t, m, killed)));
  }

  lemma Taken(s: State, s': State)
    requires |s.p.delivered| <= |s'.p.delivered| <= |s.p.stored|
    requires s'.p.delivered == s.p.stored[..|s'.p.delivered|] && s.p.delivered == s.p.stored[..|s.p.delivered|]
    ensures var k := |Grown(s.p.delivered, s'.p.delivered)|;
            Grown(s.p.delivered, s'.p.delivered) == s.p.stored[|s.p.delivered|..|s.p.delivered| + k]
    ensures |s.p.stored| == |s.p.delivered| ==> s.p.stored == s.p.delivered
  {}

  lemma ReadGoesOn(before: State, s: State, e: Event, t: nat, m: nat, killed: bool)
    requires Inv(s.p) && Enabled(s, e) && ReadStands(before, s, t, m, [], killed) && !s.pc[t].Idle?
    ensures var s' := Do(s, e);
            ReadStands(s, s', t, m, [] + (if By(e, t) then Grown(s.p.delivered, s'.p.delivered) else []), KilledIn(e))
  {
    if By(e, t) {
      ReadOnce(s, t, m, e.killed);
      Taken(s, Do(s, e));
    }
  }

  /** A whole piperead: it takes out nothing until the section that returns, and that returns the next bytes stored, as
      many as were asked for or are there; none only at the end of the writers, or when none were asked for. It returns
      -1 only killed, on an empty pipe. */
  lemma {:induction false} WholeRead(run: seq<State>, events: seq<Event>, b: nat, n: nat, t: nat)
    requires Run(run, events) && b < |events| && events[b].Read? && events[b].t == t && InCall(run, b, n, t)
    ensures ReadStands(run[n - 1], run[n], t, events[b].n, TakenBy(run, events, b, n, t), KilledIn(events[n - 1]))
  {
    hide Inv, Do, Enabled, ReadStands;
    RunKeeps(run, events, n - 1);
    assert StepAt(run, events, n - 1);
    if n == b + 1 {
      assert TakenBy(run, events, b, b, t) == [];
      ReadBegins(run[b], t, events[b].n, events[b].killed);
    } else {
      WholeRead(run, events, b, n - 1, t);
      NothingYet(run[n - 2], run[n - 1], t, events[b].n, TakenBy(run, events, b, n - 1, t), KilledIn(events[n - 2]));
      ReadGoesOn(run[n - 2], run[n - 1], events[n - 1], t, events[b].n, KilledIn(events[n - 2]));
    }
  }

  lemma NothingYet(before: State, s: State, t: nat, m: nat, g: seq<byte>, killed: bool)
    requires ReadStands(before, s, t, m, g, killed)
    ensures t < |s.pc| && (!s.pc[t].Idle? ==> g == [])
  {}

  /** Only the sections of a pipewrite store, and only those of a piperead take out. */
  lemma OnlyCallers(run: seq<State>, events: seq<Event>, i: nat)
    requires Run(run, events) && i < |events|
    ensures var s, s', e := run[i], run[i + 1], events[i];
            && (s'.p.stored != s.p.stored ==> e.Write? || (e.Resume? && e.t < |s.pc| && s.pc[e.t].Writing?))
            && (s'.p.delivered != s.p.delivered ==> e.Read? || (e.Resume? && e.t < |s.pc| && s.pc[e.t].Reading?))
  {
    RunKeeps(run, events, i);
    assert StepAt(run, events, i);
    var s, e := run[i], events[i];
    if e.Write? || (e.Resume? && s.pc[e.t].Writing?) {
      var src, k := if e.Write? then e.src else s.pc[e.t].src, if e.Write? then 0 else s.pc[e.t].i;
      WriteOnce(s, e.t, src, k, e.killed);
    } else if e.Read? || e.Resume? {
      ReadOnce(s, e.t, if e.Read? then e.n else s.pc[e.t].n, e.killed);
    }
  }

  // ---- closing and killing ----

  lemma EndsStay(s: State, e: Event)
    requires Inv(s.p) && Enabled(s, e)
    ensures var p := Do(s, e).p;
            && (p.readopen <==> s.p.readopen && e != Closed(false))
            && (p.writeopen <==> s.p.writeopen && e != Closed(true))
  {
    match e
    case Write(t, src, killed) => WriteEnds(s, t, src, 0, killed);
    case Read(t, m, killed) => ReadEnds(s, t, m, killed);
    case Resume(t, killed) =>
      if s.pc[t].Writing? {
        WriteEnds(s, t, s.pc[t].src, s.pc[t].i, killed);
      } else {
        ReadEnds(s, t, s.pc[t].n, killed);
      }
    case Closed(writable) =>
    case Killed(t) =>
  }

  lemma WriteEnds(s: State, t: nat, src: seq<byte>, i: nat, killed: bool)
    requires Inv(s.p) && t < |s.pc| == |s.ret| && i <= |src|
    ensures var p := DoWrite(s, t, src, i, killed).p; p.readopen == s.p.readopen && p.writeopen == s.p.writeopen
  {
    SleepersFull(s.p);
    FillKeeps(s.p, src, i);
  }

  lemma ReadEnds(s: State, t: nat, m: nat, killed: bool)
    requires Inv(s.p) && t < |s.pc| == |s.ret|
    ensures var p := DoRead(s, t, m, killed).p; p.readopen == s.p.readopen && p.writeopen == s.p.writeopen
  {
    DrainKeeps(s.p, m);
  }

  /** An end is open exactly until it is closed; from then on nobody sleeps waiting for it. */
  lemma {:induction false} ClosedForGood(run: seq<State>, events: seq<Event>, n: nat)
    requires Run(run, events) && n < |run|
    ensures var p := run[n].p;
            && (p.readopen <==> Closed(false) !in events[..n]) && (!p.readopen ==> p.writers == {})
            && (p.writeopen <==> Closed(true) !in events[..n]) && (!p.writeopen ==> p.readers == {})
  {
    hide Do, Enabled;
    RunKeeps(run, events, n);
    if n > 0 {
      ClosedForGood(run, events, n - 1);
      RunKeeps(run, events, n - 1);
      assert StepAt(run, events, n - 1);
      EndsStay(run[n - 1], events[n - 1]);
      assert events[..n] == events[..n - 1] + [events[n - 1]];
    }
  }

  /** A process that is killed asleep in the pipe wakes, and its next section returns. */
  lemma KilledReturns(run: seq<State>, events: seq<Event>, n: nat, t: nat)
    requires Run(run, events) && n < |run| && t < |run[n].pc| && !run[n].pc[t].Idle?
    ensures Enabled(run[n], Killed(t)) && Enabled(Do(run[n], Killed(t)), Resume(t, true))
    ensures Do(Do(run[n], Killed(t)), Resume(t, true)).pc[t].Idle?
  {
    RunKeeps(run, events, n);
    SleepersInCalls(run, events, n);
    var s := run[n];
    hide Run, StepAt, Fill, Drain, Inv;
    SleepersFull(s.p);
  }

  ghost predicate SleepersOk(s: State) {
    && |s.ret| == |s.pc|
    && (forall t: nat :: t < |s.pc| && s.pc[t].Writing? ==> s.pc[t].i <= |s.pc[t].src|)
    && (forall t :: t in s.p.readers ==> t < |s.pc| && s.pc[t].Reading?)
    && (forall t :: t in s.p.writers ==> t < |s.pc| && s.pc[t].Writing?)
  }

  lemma SleepersWrite(s: State, t: nat, src: seq<byte>, i: nat, killed: bool)
    requires Inv(s.p) && SleepersOk(s) && t < |s.pc| && i <= |src| && t !in s.p.readers + s.p.writers
    ensures SleepersOk(DoWrite(s, t, src, i, killed))
  {
    SleepersFull(s.p);
    hide Inv, Full;
    FillKeeps(s.p, src, i);
    hide Fill;
  }

  lemma SleepersRead(s: State, t: nat, m: nat, killed: bool)
    requires Inv(s.p) && SleepersOk(s) && t < |s.pc| && t !in s.p.readers + s.p.writers
    ensures SleepersOk(DoRead(s, t, m, killed))
  {
    DrainKeeps(s.p, m);
    hide Inv, Drain;
  }

  lemma SleepersStep(s: State, e: Event)
    requires Inv(s.p) && SleepersOk(s) && Enabled(s, e)
    ensures SleepersOk(Do(s, e))
  {
    hide Inv, DoWrite, DoRead;
    match e
    case Write(t, src, killed) => SleepersWrite(s, t, src, 0, killed);
    case Read(t, m, killed) => SleepersRead(s, t, m, killed);
    case Resume(t, killed) =>
      if s.pc[t].Writing? {
        SleepersWrite(s, t, s.pc[t].src, s.pc[t].i, killed);
      } else {
        SleepersRead(s, t, s.pc[t].n, killed);
      }
    case Closed(writable) =>
    case Killed(t) =>
  }

  /** Only processes in piperead sleep as readers and only those in pipewrite as writers, not past their buffers. */
  lemma {:induction false} SleepersInCalls(run: seq<State>, events: seq<Event>, n: nat)
    requires Run(run, events) && n < |run|
    ensures SleepersOk(run[n])
  {
    hide Inv, Do, Enabled;
    if n > 0 {
      SleepersInCalls(run, events, n - 1);
      RunKeeps(run, events, n - 1);
      assert StepAt(run, events, n - 1);
      SleepersStep(run[n - 1], events[n - 1]);
    }
  }

  /** A section that ends in sleep leaves the process asleep on its counter: it does not go on until it is woken. */
  lemma AsleepUntilWoken(run: seq<State>, events: seq<Event>, i: nat, t: nat, killed: bool)
    requires Run(run, events) && i < |events| && By(events[i], t) && t < |run[i + 1].pc| && !run[i + 1].pc[t].Idle?
    ensures t in (if run[i + 1].pc[t].Writing? then run[i + 1].p.writers else run[i + 1].p.readers)
    ensures !Enabled(run[i + 1], Resume(t, killed))
  {
    hide Inv, Fill, Drain, Close, Kill;
    assert StepAt(run, events, i);
  }
}
