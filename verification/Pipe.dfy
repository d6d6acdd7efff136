/** pipe.c. A process has p->lock from when it takes it until it sleeps or returns, and everything else in the pipe is
    touched with the lock held, so what happens in between is one step of a run: a section. sleep gives the lock up
    and marks the process asleep in one go. */
module PipeSpec {
  const PIPESIZE: nat := 512
  const W32: nat := 0x1_0000_0000

  type byte = x: int | 0 <= x < 256

  /** readers and writers: who sleeps on nread and on nwrite. stored and delivered: every byte that went in and that
      came out, in order; nothing reads them. */
  datatype Pipe = Pipe(data: seq<byte>, nread: nat, nwrite: nat, readopen: bool, writeopen: bool,
                       readers: set<nat>, writers: set<nat>, stored: seq<byte>, delivered: seq<byte>)

  datatype Outcome = Done(n: nat) | Failed | Asleep

  predicate Full(p: Pipe) {
    p.nwrite == (p.nread + PIPESIZE) % W32
  }

  function Put(p: Pipe, c: byte): Pipe
    requires |p.data| == PIPESIZE
  {
    p.(data := p.data[p.nwrite % PIPESIZE := c], nwrite := (p.nwrite + 1) % W32, stored := p.stored + [c])
  }

  function Get(p: Pipe): Pipe
    requires |p.data| == PIPESIZE
  {
    p.(nread := (p.nread + 1) % W32, delivered := p.delivered + [p.data[p.nread % PIPESIZE]])
  }

  /** The bytes of src from i on go in until the pipe is full. */
  function Fill(p: Pipe, src: seq<byte>, i: nat): (r: (Pipe, nat))
    requires |p.data| == PIPESIZE && i <= |src|
    ensures |r.0.data| == PIPESIZE && i <= r.1 <= |src|
    decreases |src| - i
  {
    if i == |src| || Full(p) then (p, i) else Fill(Put(p, src[i]), src, i + 1)
  }

  /** Up to n bytes come out. */
  function Drain(p: Pipe, n: nat): (q: Pipe)
    requires |p.data| == PIPESIZE
    ensures |q.data| == PIPESIZE && |p.delivered| <= |q.delivered|
    decreases n
  {
    if n == 0 || p.nread == p.nwrite then p else Drain(Get(p), n - 1)
  }

  /** pipewrite by process t, from byte i on. */
  function WriteSection(p: Pipe, t: nat, src: seq<byte>, i: nat, killed: bool): (r: (Pipe, nat, Outcome))
    requires |p.data| == PIPESIZE && i <= |src|
    ensures |r.0.data| == PIPESIZE && i <= r.1 <= |src|
  {
    var (q, j) := Fill(p, src, i);
    if j == |src| then (q.(readers := {}), j, Done(|src|))
    else if !q.readopen || killed then (q, j, Failed)
    else (q.(readers := {}, writers := q.writers + {t}), j, Asleep)
  }

  /** piperead of up to n bytes by process t. */
  function ReadSection(p: Pipe, t: nat, n: nat, killed: bool): (r: (Pipe, Outcome))
    requires |p.data| == PIPESIZE
    ensures |r.0.data| == PIPESIZE
  {
    if p.nread == p.nwrite && p.writeopen then
      if killed then (p, Failed) else (p.(readers := p.readers + {t}), Asleep)
    else
      var q := Drain(p, n);
      (q.(writers := {}), Done(|q.delivered| - |p.delivered|))
  }

  function Close(p: Pipe, writable: bool): Pipe {
    if writable then p.(writeopen := false, readers := {}) else p.(readopen := false, writers := {})
  }

  /** kill wakes a sleeper; its next section finds it killed. */
  function Kill(p: Pipe, t: nat): Pipe {
    p.(readers := p.readers - {t}, writers := p.writers - {t})
  }

  // ---- what every section keeps ----

  ghost predicate Inv(p: Pipe) {
    var r, w := |p.delivered|, |p.stored|;
    && |p.data| == PIPESIZE
    && r <= w <= r + PIPESIZE
    && p.nread == r % W32 && p.nwrite == w % W32
    && p.delivered == p.stored[..r]
    && (forall k: nat :: r <= k < w ==> p.data[k % PIPESIZE] == p.stored[k])
    && (p.writers != {} ==> w == r + PIPESIZE && p.readopen)
    && (p.readers != {} ==> p.writeopen)
  }

  /** A process asleep in piperead means there is nothing to read. */
  predicate NoLost(p: Pipe) {
    p.readers != {} ==> |p.stored| == |p.delivered|
  }

  lemma Counters(p: Pipe)
    requires Inv(p)
    ensures |p.data| == PIPESIZE && |p.delivered| <= |p.stored| <= |p.delivered| + PIPESIZE
    ensures Full(p) <==> |p.stored| == |p.delivered| + PIPESIZE
    ensures p.nread == p.nwrite <==> |p.stored| == |p.delivered|
    ensures (p.nwrite - p.nread) % W32 == |p.stored| - |p.delivered|
    ensures p.nwrite % PIPESIZE == |p.stored| % PIPESIZE && p.nread % PIPESIZE == |p.delivered| % PIPESIZE
  {
    var r, w := |p.delivered|, |p.stored|;
    var a, b := r / W32, w / W32;
    assert r == a * W32 + p.nread && w == b * W32 + p.nwrite;
    assert b == a || b == a + 1;
    WrapSlot(r);
    WrapSlot(w);
  }

  lemma WrapSlot(k: nat)
    ensures k % W32 % PIPESIZE == k % PIPESIZE
  {
    var q := k / W32;
    assert k == q * W32 + k % W32;
    assert W32 == 0x80_0000 * PIPESIZE;
    assert k == (q * 0x80_0000) * PIPESIZE + k % W32;
    ModShift(q * 0x80_0000, k % W32);
  }

  lemma ModShift(a: nat, b: nat)
    ensures (a * PIPESIZE + b) % PIPESIZE == b % PIPESIZE
  {}

  lemma NextCount(w: nat)
    ensures (w % W32 + 1) % W32 == (w + 1) % W32
  {}

  lemma PutKeeps(p: Pipe, c: byte)
    requires Inv(p) && !Full(p) && p.writers == {}
    ensures Inv(Put(p, c))
  {
    Counters(p);
    hide Full;
    var q, r, w := Put(p, c), |p.delivered|, |p.stored|;
    NextCount(w);
    assert q.stored[..r] == p.stored[..r];
    forall k: nat | r <= k < w + 1 ensures q.data[k % PIPESIZE] == q.stored[k] {
      if k < w {
        SlotsApart(k, w);
        assert p.data[k % PIPESIZE] == p.stored[k];
      }
    }
  }

  lemma SlotsApart(k: nat, w: nat)
    requires k < w < k + PIPESIZE
    ensures k % PIPESIZE != w % PIPESIZE
  {}

  lemma GetKeeps(p: Pipe)
    requires Inv(p) && p.nread != p.nwrite
    ensures Inv(Get(p).(writers := {})) && Get(p).delivered == p.stored[..|p.delivered| + 1]
  {
    Counters(p);
    hide Full;
    var r: nat := |p.delivered|;
    NextCount(r);
    assert p.data[r % PIPESIZE] == p.stored[r];
    assert p.stored[..r + 1] == p.stored[..r] + [p.stored[r]];
  }

  /** What goes in is src[i..j], as much as there is room for. */
  lemma {:induction false} FillKeeps(p: Pipe, src: seq<byte>, i: nat)
    requires Inv(p) && i <= |src| && (p.writers == {} || Full(p))
    ensures var (q, j) := Fill(p, src, i);
            && Inv(q) && q.stored == p.stored + src[i..j] && q.delivered == p.delivered
            && (j < |src| <==> |src| - i > PIPESIZE - (|p.stored| - |p.delivered|))
            && (j < |src| ==> Full(q))
            && q.readopen == p.readopen && q.writeopen == p.writeopen && q.readers == p.readers
                && q.writers == p.writers
    decreases |src| - i
  {
    hide Inv, Full, Put;
    Counters(p);
    if i == |src| || Full(p) {
      assert p.stored + src[i..i] == p.stored;
    } else {
      PutKeeps(p, src[i]);
      PutIs(p, src[i]);
      FillKeeps(Put(p, src[i]), src, i + 1);
      var (q, j) := Fill(p, src, i);
      assert p.stored + [src[i]] + src[i + 1..j] == p.stored + src[i..j];
    }
  }

  lemma PutIs(p: Pipe, c: byte)
    requires |p.data| == PIPESIZE
    ensures var q := Put(p, c);
            && q.stored == p.stored + [c] && q.delivered == p.delivered && q.readopen == p.readopen
            && q.writeopen == p.writeopen && q.readers == p.readers && q.writers == p.writers
  {}

  /** What comes out is what went in next. */
  lemma {:induction false} DrainKeeps(p: Pipe, n: nat)
    requires Inv(p)
    ensures var q := Drain(p, n);
            && Inv(q.(writers := {})) && q.stored == p.stored
            && |q.delivered|
               == |p.delivered| + (if n < |p.stored| - |p.delivered| then n else |p.stored| - |p.delivered|)
            && q.readopen == p.readopen && q.writeopen == p.writeopen && q.readers == p.readers
    decreases n
  {
    Counters(p);
    if n > 0 && p.nread != p.nwrite {
      GetKeeps(p);
      WritersAside(Get(p), n - 1);
      DrainKeeps(Get(p).(writers := {}), n - 1);
      hide Inv;
      assert Drain(p, n) == Drain(Get(p), n - 1);
    }
  }

  lemma {:induction false} WritersAside(p: Pipe, n: nat)
    requires |p.data| == PIPESIZE
    ensures Drain(p.(writers := {}), n) == Drain(p, n).(writers := {})
    decreases n
  {
    if n > 0 && p.nread != p.nwrite {
      WritersAside(Get(p), n - 1);
      assert Get(p.(writers := {})) == Get(p).(writers := {});
    }
  }

  lemma WriteKeeps(p: Pipe, t: nat, src: seq<byte>, i: nat, killed: bool)
    requires Inv(p) && i <= |src|
    ensures var (q, j, o) := WriteSection(p, t, src, i, killed);
            Inv(q) && q.stored == p.stored + src[i..j] && q.delivered == p.delivered
  {
    Counters(p);
    FillKeeps(p, src, i);
    Counters(Fill(p, src, i).0);
  }

  lemma ReadKeeps(p: Pipe, t: nat, n: nat, killed: bool)
    requires Inv(p)
    ensures var (q, o) := ReadSection(p, t, n, killed);
            && Inv(q) && q.stored == p.stored && |p.delivered| <= |q.delivered|
            && (o.Done? ==> o.n == |q.delivered| - |p.delivered| <= n)
  {
    Counters(p);
    DrainKeeps(p, n);
  }

  /** One section of pipewrite loses a wakeup exactly when it finds a sleeping reader, has more to store than the pipe
      holds, and gives up when full: readers closed, or the writer killed. */
  lemma LostExactly(p: Pipe, t: nat, src: seq<byte>, i: nat, killed: bool)
    requires Inv(p) && NoLost(p) && i <= |src|
    ensures NoLost(WriteSection(p, t, src, i, killed).0) <==>
            !(p.readers != {} && |src| - i > PIPESIZE && (killed || !p.readopen))
  {
    Counters(p);
    FillKeeps(p, src, i);
    var (q, j) := Fill(p, src, i);
    assert j > i ==> |src[i..j]| > 0;
  }

  // ---- runs ----

  /** Where each process is: in no call, or in one of the two with what it still has to do. */
  datatype Pc = Idle | Writing(src: seq<byte>, i: nat) | Reading(n: nat)

  /** ret: how each process's last section ended; nothing reads it. */
  datatype State = State(p: Pipe, pc: seq<Pc>, ret: seq<Outcome>)

  datatype Event =
    | Write(t: nat, src: seq<byte>, killed: bool)
    | Read(t: nat, n: nat, killed: bool)
    | Resume(t: nat, killed: bool) // woken, and has p->lock again
    | Closed(writable: bool)
    | Killed(t: nat)

  predicate Enabled(s: State, e: Event) {
    && |s.p.data| == PIPESIZE && |s.ret| == |s.pc|
    && match e
       case Write(t, _, _) => t < |s.pc| && s.pc[t].Idle?
       case Read(t, _, _) => t < |s.pc| && s.pc[t].Idle?
       case Resume(t, _) =>
         t < |s.pc| && !s.pc[t].Idle? && t !in s.p.readers && t !in s.p.writers
         && (s.pc[t].Writing? ==> s.pc[t].i <= |s.pc[t].src|)
       case _ => true
  }

  function DoWrite(s: State, t: nat, src: seq<byte>, i: nat, killed: bool): State
    requires t < |s.pc| == |s.ret| && |s.p.data| == PIPESIZE && i <= |src|
  {
    var (p, j, o) := WriteSection(s.p, t, src, i, killed);
    State(p, s.pc[t := if o.Asleep? then Writing(src, j) else Idle], s.ret[t := o])
  }

  function DoRead(s: State, t: nat, n: nat, killed: bool): State
    requires t < |s.pc| == |s.ret| && |s.p.data| == PIPESIZE
  {
    var (p, o) := ReadSection(s.p, t, n, killed);
    State(p, s.pc[t := if o.Asleep? then Reading(n) else Idle], s.ret[t := o])
  }

  function Do(s: State, e: Event): State
    requires Enabled(s, e)
  {
    match e
    case Write(t, src, killed) => DoWrite(s, t, src, 0, killed)
    case Read(t, n, killed) => DoRead(s, t, n, killed)
    case Resume(t, killed) =>
      if s.pc[t].Writing? then DoWrite(s, t, s.pc[t].src, s.pc[t].i, killed) else DoRead(s, t, s.pc[t].n, killed)
    case Closed(writable) => s.(p := Close(s.p, writable))
    case Killed(t) => s.(p := Kill(s.p, t))
  }

  /** The section of pipewrite that loses a wakeup. */
  predicate GivesUp(s: State, e: Event)
    requires Enabled(s, e)
  {
    s.p.readers != {} &&
    match e
    case Write(_, src, killed) => |src| > PIPESIZE && (killed || !s.p.readopen)
    case Resume(t, killed) =>
      s.pc[t].Writing? && |s.pc[t].src| - s.pc[t].i > PIPESIZE && (killed || !s.p.readopen)
    case _ => false
  }

  predicate StepAt(run: seq<State>, events: seq<Event>, i: nat) {
    i < |events| && i + 1 < |run| && Enabled(run[i], events[i]) && run[i + 1] == Do(run[i], events[i])
  }

  /** The states of a run, one before each event and one after the last. */
  ghost predicate Run(run: seq<State>, events: seq<Event>) {
    && |run| == |events| + 1 && Init(run[0])
    && (forall i: nat :: i < |events| ==> StepAt(run, events, i))
  }

  predicate GaveUpAt(run: seq<State>, events: seq<Event>, i: nat) {
    i < |events| && i < |run| && Enabled(run[i], events[i]) && GivesUp(run[i], events[i])
  }

  /** Up to state n no section gave up that way. */
  ghost predicate NoGivingUp(run: seq<State>, events: seq<Event>, n: nat) {
    forall i: nat :: i < n ==> !GaveUpAt(run, events, i)
  }

  predicate Init(s: State) {
    && |s.p.data| == PIPESIZE && s.p.nread == s.p.nwrite == 0 && s.p.stored == s.p.delivered == []
    && s.p.readopen && s.p.writeopen && s.p.readers == s.p.writers == {}
    && |s.ret| == |s.pc| && forall t :: 0 <= t < |s.pc| ==> s.pc[t].Idle?
  }

  lemma StepKeeps(s: State, e: Event)
    requires Inv(s.p) && Enabled(s, e)
    ensures Inv(Do(s, e).p) && s.p.stored <= Do(s, e).p.stored && |s.p.delivered| <= |Do(s, e).p.delivered|
    ensures NoLost(s.p) ==> (NoLost(Do(s, e).p) <==> !GivesUp(s, e))
  {
    match e
    case Write(t, src, killed) => WriteStep(s, t, src, 0, killed);
    case Read(t, n, killed) => ReadStep(s, t, n, killed);
    case Resume(t, killed) =>
      if s.pc[t].Writing? {
        WriteStep(s, t, s.pc[t].src, s.pc[t].i, killed);
      } else {
        ReadStep(s, t, s.pc[t].n, killed);
      }
    case Closed(writable) =>
    case Killed(t) =>
  }

  lemma WriteStep(s: State, t: nat, src: seq<byte>, i: nat, killed: bool)
    requires Inv(s.p) && t < |s.pc| == |s.ret| && i <= |src|
    ensures var s' := DoWrite(s, t, src, i, killed);
            && Inv(s'.p) && s.p.stored <= s'.p.stored && s'.p.delivered == s.p.delivered
            && (NoLost(s.p) ==> (NoLost(s'.p) <==>
                                 !(s.p.readers != {} && |src| - i > PIPESIZE && (killed || !s.p.readopen))))
  {
    WriteKeeps(s.p, t, src, i, killed);
    if NoLost(s.p) {
      LostExactly(s.p, t, src, i, killed);
    }
  }

  lemma ReadStep(s: State, t: nat, n: nat, killed: bool)
    requires Inv(s.p) && t < |s.pc| == |s.ret|
    ensures var s' := DoRead(s, t, n, killed);
            && Inv(s'.p) && s'.p.stored == s.p.stored && |s.p.delivered| <= |s'.p.delivered|
            && (NoLost(s.p) ==> NoLost(s'.p))
  {
    ReadKeeps(s.p, t, n, killed);
    Counters(s.p);
    DrainKeeps(s.p, n);
  }

  lemma {:induction false} RunKeeps(run: seq<State>, events: seq<Event>, n: nat)
    requires Run(run, events) && n < |run|
    ensures Inv(run[n].p) && (NoGivingUp(run, events, n) ==> NoLost(run[n].p))
  {
    if n > 0 {
      hide Inv, Do, Enabled, GivesUp;
      RunKeeps(run, events, n - 1);
      assert StepAt(run, events, n - 1);
      StepKeeps(run[n - 1], events[n - 1]);
      var m: nat := n - 1;
      assert NoGivingUp(run, events, n) ==> NoGivingUp(run, events, m) && !GaveUpAt(run, events, m);
    }
  }

  /** A queue in every run, however often the counters wrap: what came out is what went in first, in order, and what
      is still inside is at most 512 bytes and is what the counters say. */
  lemma Fifo(run: seq<State>, events: seq<Event>, n: nat)
    requires Run(run, events) && n < |run|
    ensures var p := run[n].p;
            && |p.delivered| <= |p.stored| && p.delivered == p.stored[..|p.delivered|]
            && (p.nwrite - p.nread) % W32 == |p.stored| - |p.delivered| <= PIPESIZE
  {
    hide Do, Enabled;
    RunKeeps(run, events, n);
    Counters(run[n].p);
  }

  /** Between sections a sleeping writer means a full pipe with a reader's end open, in every run; a sleeping reader
      means an empty one with a writer's end open, in every run where no killed writer, or writer without readers,
      gives up on more than a pipeful with that reader asleep. */
  lemma NoLostWakeup(run: seq<State>, events: seq<Event>, n: nat)
    requires Run(run, events) && n < |run|
    ensures var p := run[n].p;
            && (p.writers != {} ==> Full(p) && p.readopen)
            && (p.readers != {} && NoGivingUp(run, events, n) ==> p.nread == p.nwrite && p.writeopen)
  {
    hide Do, Enabled;
    RunKeeps(run, events, n);
    Counters(run[n].p);
  }

  /** A run that does lose one: the reader sleeps on with 512 bytes there to be read. */
  lemma LostWakeup(s: State)
    requires Init(s) && |s.pc| == 2
    ensures var events := [Read(0, 1, false), Write(1, seq(513, _ => 7), true)];
            exists run: seq<State> :: Run(run, events) && run[0] == s
                          && 0 in run[2].p.readers && |run[2].p.stored| == 512 && run[2].p.delivered == []
  {
    var first, second := Read(0, 1, false), Write(1, seq(513, _ => 7), true);
    var s1 := Do(s, first);
    StepKeeps(s, first);
    Overfills(s1);
    var run, events := [s, s1, Do(s1, second)], [first, second];
    hide Do, Enabled;
    assert StepAt(run, events, 0) && StepAt(run, events, 1);
    assert Run(run, events);
  }

  lemma Overfills(s: State)
    requires Inv(s.p) && |s.pc| == |s.ret| == 2 && s.pc[1].Idle? && s.p.readers == {0}
    requires s.p.stored == s.p.delivered == []
    ensures var e := Write(1, seq(513, _ => 7), true);
            Enabled(s, e) && var p := Do(s, e).p; 0 in p.readers && |p.stored| == 512 && p.delivered == []
  {
    hide Fill;
    var src: seq<byte> := seq(513, _ => 7);
    FillKeeps(s.p, src, 0);
    var (q, j) := Fill(s.p, src, 0);
    assert |q.stored| == j && j < 513;
    Counters(q);
  }
}

/** The pipe as the kernel keeps it. */
module PipeBuffer {
  import opened PipeSpec

  class Buffer {
    const data: array<byte>
    var nread: nat
    var nwrite: nat
    var readopen: bool
    var writeopen: bool
    var readers: set<nat>
    var writers: set<nat>
    ghost var stored: seq<byte>
    ghost var delivered: seq<byte>

    ghost function P(): Pipe
      reads this, data
    {
      Pipe(data[..], nread, nwrite, readopen, writeopen, readers, writers, stored, delivered)
    }

    constructor ()
      ensures fresh(data) && Init(State(P(), [], []))
    {
      data := new byte[PIPESIZE](_ => 0);
      nread, nwrite := 0, 0;
      readopen, writeopen := true, true;
      readers, writers := {}, {};
      stored, delivered := [], [];
    }

    method Pipewrite(t: nat, src: seq<byte>, i: nat, killed: bool) returns (j: nat, o: Outcome)
      requires data.Length == PIPESIZE && i <= |src|
      modifies this, data
      ensures (P(), j, o) == WriteSection(old(P()), t, src, i, killed)
    {
      j := i;
      while j < |src|
        invariant i <= j <= |src| && Fill(old(P()), src, i) == Fill(P(), src, j)
        invariant readopen == old(readopen)
      {
        if nwrite == (nread + PIPESIZE) % W32 {
          if !readopen || killed {
            return j, Failed;
          }
          readers := {};
          writers := writers + {t};
          return j, Asleep;
        }
        ghost var p := P();
        data[nwrite % PIPESIZE] := src[j];
        nwrite := (nwrite + 1) % W32;
        stored := stored + [src[j]];
        assert P() == Put(p, src[j]);
        j := j + 1;
      }
      readers := {};
      return j, Done(|src|);
    }

    method Piperead(t: nat, n: nat, killed: bool) returns (bytes: seq<byte>, o: Outcome)
      requires data.Length == PIPESIZE
      modifies this, data
      ensures (P(), o) == ReadSection(old(P()), t, n, killed)
      ensures delivered == old(delivered) + bytes
    {
      bytes := [];
      if nread == nwrite && writeopen {
        if killed {
          return bytes, Failed;
        }
        readers := readers + {t};
        return bytes, Asleep;
      }
      var i := 0;
      while i < n
        invariant i <= n && Drain(old(P()), n) == Drain(P(), n - i)
        invariant delivered == old(delivered) + bytes && |bytes| == i
        invariant data[..] == old(data[..])
      {
        if nread == nwrite {
          break;
        }
        ghost var p := P();
        bytes := bytes + [data[nread % PIPESIZE]];
        delivered := delivered + [data[nread % PIPESIZE]];
        nread := (nread + 1) % W32;
        assert P() == Get(p);
        i := i + 1;
      }
      writers := {};
      return bytes, Done(i);
    }

    /** freed: the page goes back to kfree. Nobody sleeps on it then. */
    method Pipeclose(writable: bool) returns (freed: bool)
      requires Inv(P())
      modifies this
      ensures Inv(P()) && P() == Close(old(P()), writable)
      ensures freed <==> !readopen && !writeopen
      ensures freed ==> readers == {} && writers == {}
    {
      if writable {
        writeopen := false;
        readers := {};
      } else {
        readopen := false;
        writers := {};
      }
      freed := !readopen && !writeopen;
    }
  }
}
