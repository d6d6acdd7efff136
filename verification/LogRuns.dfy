/** Whole runs of log.c: operations interleave, one of them commits, the machine may lose power between any two
    block writes, and recovery itself may be cut short. One step is one critical section or one block write. */
module LogRuns {
  import opened Bytes
  import opened LogSpec

  datatype Phase =
    | Running              // no commit in progress
    | Copying(i: nat)      // write_log has written i log blocks; at i == lh.n write_head is next
    | Installing(i: nat)   // the header is on disk and install_trans has written i home blocks
    | Closing              // commit has returned; end_op has yet to clear log.committing
    | Rebooted             // recover_from_log is about to read the header
    | Recovering(i: nat)   // recovery has written i home blocks

  /** One log_write of operation op, made while commit group number group was being filled. */
  datatype Event = Event(op: nat, group: nat, b: nat, v: Block)

  datatype State = State(
    g: Geometry,
    mem: Mem,
    disk: Disk,
    phase: Phase,
    active: set<nat>, // operations between their begin_op and end_op
    nextOp: nat,
    // history
    group: nat,         // the group being filled
    events: seq<Event>,
    durable: seq<nat>,  // the groups whose header write reached the disk, in order
    init: Disk,         // contents at the start
    base: Disk          // the disk when the current copying or installing loop began
  )

  datatype Step =
    | BeginOp
    | LogWrite(op: nat, b: nat, v: Block)
    | EndOp(op: nat)
    | DiskWrite // the next block write of commit or of recovery
    | Close
    | ReadHead
    | Crash

  predicate Up(s: State) {
    !s.phase.Rebooted? && !s.phase.Recovering?
  }

  predicate Enabled(s: State, st: Step) {
    match st
    case BeginOp => Up(s) && MayBegin(s.mem)
    case LogWrite(op, b, v) => op in s.active && s.g.Home(b) && !LogWritePanics(s.g, s.mem)
    case EndOp(op) => op in s.active && s.mem.outstanding > 0
    case DiskWrite =>
      && s.g.Valid() && |s.disk| == s.g.total && GoodBlocks(s.g, s.mem.lh)
      && (s.phase.Copying? || s.phase.Installing? || s.phase.Recovering?) && s.phase.i <= |s.mem.lh|
    case Close => s.phase.Closing?
    case ReadHead => s.phase.Rebooted? && s.g.start < |s.disk| && HeaderN(s.disk[s.g.start]) <= LOGSIZE
    case Crash => true
  }

  function Bread(s: State, b: nat): Block
    requires b < |s.disk|
  {
    if b in s.mem.dirty then s.mem.dirty[b] else s.disk[b]
  }

  function Do(s: State, st: Step): State
    requires Enabled(s, st)
  {
    match st
    case BeginOp =>
      s.(mem := s.mem.(outstanding := s.mem.outstanding + 1), active := s.active + {s.nextOp}, nextOp := s.nextOp + 1)
    case LogWrite(op, b, v) =>
      s.(mem := Logged(s.mem, b, v), events := s.events + [Event(op, s.group, b, v)])
    case EndOp(op) =>
      var m := Ended(s.mem);
      var t := s.(mem := m, active := s.active - {op});
      if !m.committing then t else if m.lh == [] then t.(phase := Closing) else t.(phase := Copying(0), base := s.disk)
    case DiskWrite =>
      var n := |s.mem.lh|;
      (match s.phase
       case Copying(i) =>
         if i < n then s.(disk := s.disk[s.g.start + 1 + i := Bread(s, s.mem.lh[i])], phase := Copying(i + 1))
         else
           var w := HeadWritten(s.g, s.disk, s.mem.lh);
           s.(disk := w, base := w, phase := Installing(0), durable := s.durable + [s.group])
       case Installing(i) =>
         if i < n then Installed(s, i).(phase := Installing(i + 1))
         else s.(disk := HeadWritten(s.g, s.disk, []), mem := s.mem.(lh := []), phase := Closing)
       case Recovering(i) =>
         if i < n then Installed(s, i).(phase := Recovering(i + 1))
         else s.(disk := HeadWritten(s.g, s.disk, []), mem := s.mem.(lh := []), phase := Running)
       case _ => s)
    case Close => s.(mem := s.mem.(committing := false), phase := Running, group := s.group + 1)
    case ReadHead =>
      s.(mem := s.mem.(lh := HeaderBlocks(s.disk[s.g.start])), phase := Recovering(0), base := s.disk)
    case Crash =>
      s.(mem := Mem([], map[], 0, false), active := {}, phase := Rebooted, group := s.group + 1)
  }

  /** The i-th turn of install_trans: the home block is written and its buffer is no longer dirty. */
  function Installed(s: State, i: nat): State
    requires s.g.Valid() && |s.disk| == s.g.total && GoodBlocks(s.g, s.mem.lh) && i < |s.mem.lh|
  {
    var b := s.mem.lh[i];
    s.(disk := s.disk[b := Bread(s, s.g.start + 1 + i)], mem := s.mem.(dirty := s.mem.dirty - {b}))
  }

  /** Boot from any well-formed disk; its contents are what recovery makes of it. */
  ghost predicate Init(s: State) {
    && GoodDisk(s.g, s.disk) && s.init == Recover(s.g, s.disk) && s.base == s.disk
    && s.mem == Mem([], map[], 0, false) && s.phase == Rebooted
    && s.active == {} && s.events == [] && s.durable == []
  }

  /** The state after the given steps, when each is enabled in turn. */
  ghost predicate Run(s: State, steps: seq<Step>, t: State)
    decreases |steps|
  {
    if steps == [] then s == t else Enabled(s, steps[0]) && Run(Do(s, steps[0]), steps[1..], t)
  }

  // ---- what the disk ought to hold ----

  /** The last value each block was given by the log_writes of one group. */
  function Replay(events: seq<Event>, group: nat): map<nat, Block> {
    if events == [] then map[] else
      var e := events[|events| - 1];
      var r := Replay(events[..|events| - 1], group);
      if e.group == group then r[e.b := e.v] else r
  }

  /** The contents after whole groups, in order. */
  function Contents(init: Disk, events: seq<Event>, groups: seq<nat>): (r: Disk)
    ensures |r| == |init|
  {
    if groups == [] then init else
      Applied(Contents(init, events, groups[..|groups| - 1]), Replay(events, groups[|groups| - 1]))
  }

  // ---- the invariant ----

  ghost predicate MemInv(s: State) {
    && s.g.Valid() && |s.disk| == |s.init| == |s.base| == s.g.total
    && GoodBlocks(s.g, s.mem.lh)
    && s.mem.outstanding == |s.active|
    && (forall op :: op in s.active ==> op < s.nextOp)
    && (s.mem.committing <==> s.phase.Copying? || s.phase.Installing? || s.phase.Closing?)
    && (s.mem.committing || !Up(s) ==> s.active == {})
  }

  predicate NoEvents(events: seq<Event>, group: nat) {
    forall i :: 0 <= i < |events| ==> events[i].group != group
  }

  ghost predicate HistoryInv(s: State) {
    && (forall i :: 0 <= i < |s.events| ==> s.events[i].op < s.nextOp && s.events[i].group <= s.group)
    && (forall i :: 0 <= i < |s.events| && s.events[i].op in s.active ==> s.events[i].group == s.group)
    && (forall i, j :: 0 <= i < j < |s.events| && s.events[i].op == s.events[j].op ==>
        s.events[i].group == s.events[j].group)
    && (forall i :: 0 <= i < |s.durable| ==> s.durable[i] <= s.group)
    && (s.phase.Running? || s.phase.Copying? ==> s.group !in s.durable)
    && (s.phase.Installing? || s.phase.Closing? ==> s.group in s.durable || NoEvents(s.events, s.group))
    && (s.phase.Rebooted? || s.phase.Recovering? ==>
          s.group !in s.durable && forall i :: 0 <= i < |s.events| ==> s.events[i].group < s.group)
  }

  ghost predicate Durable(s: State, d: Disk)
    requires |d| == s.g.total == |s.init|
  {
    SameHome(s.g, d, Contents(s.init, s.events, s.durable))
  }

  ghost predicate DiskInv(s: State)
    requires MemInv(s)
  {
    var g, lh, dirty := s.g, s.mem.lh, s.mem.dirty;
    var all := Replay(s.events, s.group);
    match s.phase
    case Running =>
      HeaderN(s.disk[g.start]) == 0 && Durable(s, s.disk) && dirty == all && dirty.Keys == Elems(lh)
    case Copying(i) =>
      && i <= |lh| && dirty == all && dirty.Keys == Elems(lh)
      && HeaderN(s.base[g.start]) == 0 && Durable(s, s.base)
      && s.disk == WriteLogK(g, s.base, lh, dirty, i)
    case Installing(i) =>
      && i <= |lh| && GoodDisk(g, s.base) && Durable(s, Recover(g, s.base)) && dirty.Keys <= Elems(lh[i..])
      && lh == HeaderBlocks(s.base[g.start]) && s.disk == InstallK(g, s.base, lh, i)
    case Closing => HeaderN(s.disk[g.start]) == 0 && Durable(s, s.disk) && dirty == map[] && lh == []
    case Rebooted => GoodDisk(g, s.disk) && Durable(s, Recover(g, s.disk)) && dirty == map[] && lh == []
    case Recovering(i) =>
      && GoodDisk(g, s.base) && Durable(s, Recover(g, s.base)) && dirty == map[]
      && lh == HeaderBlocks(s.base[g.start]) && i <= |lh| && s.disk == InstallK(g, s.base, lh, i)
  }

  ghost predicate Inv(s: State) {
    MemInv(s) && HistoryInv(s) && DiskInv(s)
  }

  // ---- the disk, whatever the phase, recovers to the durable groups ----

  lemma AppliedSameHome(g: Geometry, a: Disk, b: Disk, m: map<nat, Block>)
    requires |a| == |b| == g.total && SameHome(g, a, b)
    ensures SameHome(g, Applied(a, m), Applied(b, m))
  {}

  /** Lose power now, and let recovery complete: the disk holds exactly the durable groups. */
  lemma RecoversToDurable(s: State)
    requires Inv(s)
    ensures GoodDisk(s.g, s.disk) && Durable(s, Recover(s.g, s.disk))
  {
    var g, lh := s.g, s.mem.lh;
    var want := Contents(s.init, s.events, s.durable);
    match s.phase
    case Running => EmptyHeader(g, s.disk);
    case Closing => EmptyHeader(g, s.disk);
    case Rebooted =>
    case Copying(i) => CopyingRecovers(s);
    case Installing(i) => InstallingRecovers(s);
    case Recovering(i) => InstallingRecovers(s);
  }

  lemma CopyingRecovers(s: State)
    requires Inv(s) && s.phase.Copying?
    ensures GoodDisk(s.g, s.disk) && Durable(s, Recover(s.g, s.disk)) && Durable(s, s.disk)
    ensures HeaderN(s.disk[s.g.start]) == 0
  {
    var g, lh := s.g, s.mem.lh;
    forall b | 0 <= b < g.total && (g.Home(b) || b == g.start) ensures s.disk[b] == s.base[b] {
      WriteLogAt(g, s.base, lh, s.mem.dirty, s.phase.i, b);
    }
    EmptyHeader(g, s.disk);
  }

  lemma InstallingRecovers(s: State)
    requires Inv(s) && (s.phase.Installing? || s.phase.Recovering?)
    ensures GoodDisk(s.g, s.disk) && Durable(s, Recover(s.g, s.disk))
    ensures s.phase.i == |s.mem.lh| ==> Durable(s, s.disk)
  {
    RecoverHome(s.g, s.base, s.mem.lh);
    InstallTwice(s.g, s.base, s.mem.lh, s.phase.i);
    RecoverHome(s.g, s.disk, s.mem.lh);
  }

  // ---- replaying history ----

  lemma ReplayAppend(events: seq<Event>, e: Event, group: nat)
    ensures Replay(events + [e], group) ==
            if e.group == group then Replay(events, group)[e.b := e.v] else Replay(events, group)
  {}

  lemma {:induction false} ContentsAppend(init: Disk, events: seq<Event>, e: Event, groups: seq<nat>)
    requires e.group !in groups
    ensures Contents(init, events + [e], groups) == Contents(init, events, groups)
  {
    if groups != [] {
      ContentsAppend(init, events, e, groups[..|groups| - 1]);
      ReplayAppend(events, e, groups[|groups| - 1]);
    }
  }

  lemma {:induction false} ReplayUnused(events: seq<Event>, group: nat)
    requires forall i :: 0 <= i < |events| ==> events[i].group < group
    ensures Replay(events, group) == map[]
  {
    if events != [] {
      ReplayUnused(events[..|events| - 1], group);
    }
  }

  lemma {:induction false} ReplayKeys(events: seq<Event>, group: nat, i: nat)
    requires i < |events| && events[i].group == group
    ensures events[i].b in Replay(events, group)
  {
    var n := |events| - 1;
    if i < n {
      ReplayKeys(events[..n], group, i);
    }
  }

  lemma ReplayNothing(events: seq<Event>, group: nat)
    requires Replay(events, group) == map[]
    ensures NoEvents(events, group)
  {
    forall i | 0 <= i < |events| ensures events[i].group != group {
      if events[i].group == group {
        ReplayKeys(events, group, i);
      }
    }
  }

  // ---- every step keeps the invariant ----

  lemma BeginOpKeeps(s: State)
    requires Inv(s) && Enabled(s, BeginOp)
    ensures Inv(Do(s, BeginOp))
  {
    assert s.nextOp !in s.active;
    var t := Do(s, BeginOp);
    assert HistoryInv(t);
  }

  lemma LogWriteKeeps(s: State, op: nat, b: nat, v: Block)
    requires Inv(s) && Enabled(s, LogWrite(op, b, v))
    ensures Inv(Do(s, LogWrite(op, b, v)))
  {
    var t := Do(s, LogWrite(op, b, v));
    var e := Event(op, s.group, b, v);
    assert s.phase == Running;
    ReplayAppend(s.events, e, s.group);
    ContentsAppend(s.init, s.events, e, s.durable);
    assert t.mem.dirty.Keys == Elems(t.mem.lh);
    assert HistoryInv(t);
  }

  lemma EndOpKeeps(s: State, op: nat)
    requires Inv(s) && Enabled(s, EndOp(op))
    ensures Inv(Do(s, EndOp(op)))
  {
    var t := Do(s, EndOp(op));
    assert s.phase == Running;
    assert |t.active| == |s.active| - 1;
    assert t.active == {} ==> t.mem.committing;
    if t.phase.Closing? {
      assert t.mem.dirty.Keys == {};
      ReplayNothing(s.events, s.group);
    }
    assert MemInv(t);
    assert HistoryInv(t);
  }

  lemma WriteHistory(s: State)
    requires Inv(s) && Enabled(s, DiskWrite)
    ensures MemInv(Do(s, DiskWrite)) && HistoryInv(Do(s, DiskWrite))
  {
    hide Contents, Replay, Recover, InstallK, WriteLogK, HeaderBlocks, SameHome, Bread, HeadWritten, Elems, NoEvents;
  }

  lemma CopyOneKeeps(s: State)
    requires Inv(s) && Enabled(s, DiskWrite) && s.phase.Copying? && s.phase.i < |s.mem.lh|
    ensures Inv(Do(s, DiskWrite))
  {
    hide HistoryInv;
    WriteHistory(s);
    assert s.mem.lh[s.phase.i] in s.mem.lh;
  }

  lemma HistoryFresh(s: State)
    requires HistoryInv(s) && s.phase.Recovering?
    ensures forall i :: 0 <= i < |s.events| ==> s.events[i].group < s.group
  {}

  /** The header write is the commit point. */
  lemma HeaderKeeps(s: State)
    requires Inv(s) && Enabled(s, DiskWrite) && s.phase.Copying? && s.phase.i == |s.mem.lh|
    ensures Inv(Do(s, DiskWrite))
  {
    hide HistoryInv, Recover, WriteLogK, Replay;
    WriteHistory(s);
    var t := Do(s, DiskWrite);
    assert t.durable[..|t.durable| - 1] == s.durable;
    RecoverCommitted(s.g, s.base, s.mem.lh, s.mem.dirty);
    AppliedSameHome(s.g, s.base, Contents(s.init, s.events, s.durable), s.mem.dirty);
    assert s.mem.lh[0..] == s.mem.lh;
  }

  lemma InstallOneKeeps(s: State)
    requires Inv(s) && Enabled(s, DiskWrite) && (s.phase.Installing? || s.phase.Recovering?) && s.phase.i < |s.mem.lh|
    ensures Inv(Do(s, DiskWrite))
  {
    hide InstallK, Recover, Contents, Replay, HeaderBlocks, Elems, SameHome;
    var t := Do(s, DiskWrite);
    InstalledIsInstallK(s);
    assert MemInv(t) && HistoryInv(t);
  }

  lemma InstalledIsInstallK(s: State)
    requires Inv(s) && (s.phase.Installing? || s.phase.Recovering?) && s.phase.i < |s.mem.lh|
    ensures var u := Installed(s, s.phase.i);
            && u.disk == InstallK(s.g, s.base, s.mem.lh, s.phase.i + 1)
            && u.mem.dirty.Keys <= Elems(s.mem.lh[s.phase.i + 1..])
            && (s.mem.dirty == map[] ==> u.mem.dirty == map[])
  {
    hide InstallK, Recover, Contents, Replay, HeaderBlocks, SameHome, WriteLogK, HistoryInv;
    var lh, i := s.mem.lh, s.phase.i;
    assert s.g.start + 1 + i !in s.mem.dirty;
    InstallNext(s.g, s.base, lh, i);
    DirtyDrops(s.mem.dirty, lh, i);
  }

  lemma InstallNext(g: Geometry, d: Disk, bl: seq<nat>, i: nat)
    requires g.Valid() && |d| == g.total && GoodBlocks(g, bl) && i < |bl|
    ensures InstallK(g, d, bl, i + 1) == InstallK(g, d, bl, i)[bl[i] := InstallK(g, d, bl, i)[g.start + 1 + i]]
  {}

  lemma DirtyDrops(dirty: map<nat, Block>, lh: seq<nat>, i: nat)
    requires i < |lh| && (dirty.Keys <= Elems(lh[i..]) || dirty == map[])
    ensures (dirty - {lh[i]}).Keys <= Elems(lh[i + 1..])
    ensures dirty == map[] ==> dirty - {lh[i]} == map[]
  {}

  lemma InstallEndKeeps(s: State)
    requires Inv(s) && Enabled(s, DiskWrite) && (s.phase.Installing? || s.phase.Recovering?) && s.phase.i == |s.mem.lh|
    ensures Inv(Do(s, DiskWrite))
  {
    hide HistoryInv;
    WriteHistory(s);
    InstallingRecovers(s);
    ClearedHeader(s.g, s.disk);
    assert s.mem.dirty == map[];
    if s.phase.Recovering? {
      HistoryFresh(s);
      ReplayUnused(s.events, s.group);
    }
  }

  lemma CloseKeeps(s: State)
    requires Inv(s) && Enabled(s, Close)
    ensures Inv(Do(s, Close))
  {
    ReplayUnused(s.events, s.group + 1);
    assert HistoryInv(Do(s, Close));
  }

  lemma ReadHeadKeeps(s: State)
    requires Inv(s) && Enabled(s, ReadHead)
    ensures Inv(Do(s, ReadHead))
  {
    assert HistoryInv(Do(s, ReadHead));
  }

  lemma CrashKeeps(s: State)
    requires Inv(s)
    ensures Inv(Do(s, Crash))
  {
    RecoversToDurable(s);
    var t := Do(s, Crash);
    assert MemInv(t) && HistoryInv(t);
  }

  lemma StepKeeps(s: State, st: Step)
    requires Inv(s) && Enabled(s, st)
    ensures Inv(Do(s, st))
  {
    match st
    case BeginOp => BeginOpKeeps(s);
    case LogWrite(op, b, v) => LogWriteKeeps(s, op, b, v);
    case EndOp(op) => EndOpKeeps(s, op);
    case DiskWrite =>
      if s.phase.Copying? {
        if s.phase.i < |s.mem.lh| { CopyOneKeeps(s); } else { HeaderKeeps(s); }
      } else {
        if s.phase.i < |s.mem.lh| { InstallOneKeeps(s); } else { InstallEndKeeps(s); }
      }
    case Close => CloseKeeps(s);
    case ReadHead => ReadHeadKeeps(s);
    case Crash => CrashKeeps(s);
  }

  lemma {:induction false} RunKeeps(s: State, steps: seq<Step>, t: State)
    requires Inv(s) && Run(s, steps, t)
    ensures Inv(t)
    decreases |steps|
  {
    if steps != [] {
      StepKeeps(s, steps[0]);
      RunKeeps(Do(s, steps[0]), steps[1..], t);
    }
  }

  lemma InitInv(s: State)
    requires Init(s)
    ensures Inv(s)
  {}

  // ---- what holds in every run ----

  /** While a commit is in progress no operation is: begin_op cannot admit one, none can log a block, and
      end_op's "log.committing" panic is unreachable. */
  lemma CommitExcludesOperations(s0: State, steps: seq<Step>, s: State)
    requires Init(s0) && Run(s0, steps, s)
    ensures s.mem.committing ==> s.mem.outstanding == 0 && s.active == {} && !Enabled(s, BeginOp)
    ensures s.active != {} ==> s.phase == Running && !s.mem.committing
  {
    InitInv(s0);
    RunKeeps(s0, steps, s);
  }

  /** All log_writes of one begin_op/end_op pair fall in a single commit group, so a crash keeps all of an
      operation's writes or none of them. */
  lemma OneGroupPerOperation(s0: State, steps: seq<Step>, s: State, i: nat, j: nat)
    requires Init(s0) && Run(s0, steps, s)
    requires i < |s.events| && j < |s.events| && s.events[i].op == s.events[j].op
    ensures s.events[i].group == s.events[j].group
    ensures s.events[i].group in s.durable <==> s.events[j].group in s.durable
  {
    InitInv(s0);
    RunKeeps(s0, steps, s);
  }

  /** A crash at any point of any run recovers to exactly the groups whose header write reached the disk; and
      while no commit is in progress the disk holds those groups, and the cache the open group over them. */
  lemma CrashAnywhere(s0: State, steps: seq<Step>, s: State)
    requires Init(s0) && Run(s0, steps, s)
    ensures GoodDisk(s.g, s.disk) && |s.init| == s.g.total
    ensures SameHome(s.g, Recover(s.g, s.disk), Contents(s.init, s.events, s.durable))
    ensures s.phase == Running ==> SameHome(s.g, s.disk, Contents(s.init, s.events, s.durable))
    ensures s.phase == Running ==> forall b :: s.g.Home(b) ==>
              Bread(s, b) == Contents(s.init, s.events, s.durable + [s.group])[b]
  {
    InitInv(s0);
    RunKeeps(s0, steps, s);
    RecoversToDurable(s);
    if s.phase == Running {
      assert (s.durable + [s.group])[..|s.durable|] == s.durable;
    }
  }

  lemma DurableStep(s: State, st: Step, groups: seq<nat>)
    requires Inv(s) && Enabled(s, st) && groups <= s.durable
    ensures groups <= Do(s, st).durable && Do(s, st).init == s.init
    ensures Contents(s.init, Do(s, st).events, groups) == Contents(s.init, s.events, groups)
  {
    if st.LogWrite? {
      ContentsAppend(s.init, s.events, Event(st.op, s.group, st.b, st.v), groups);
    }
  }

  /** Once groups are durable no later step, crash or recovery undoes them, reorders them or adds to them. */
  lemma {:induction false} DurableIsForever(s: State, steps: seq<Step>, t: State, groups: seq<nat>)
    requires Inv(s) && Run(s, steps, t) && groups <= s.durable
    ensures groups <= t.durable && t.init == s.init
    ensures Contents(t.init, t.events, groups) == Contents(s.init, s.events, groups)
    decreases |steps|
  {
    if steps != [] {
      StepKeeps(s, steps[0]);
      DurableStep(s, steps[0], groups);
      DurableIsForever(Do(s, steps[0]), steps[1..], t, groups);
    }
  }

  /** Durability: once the last end_op of a group has returned, the group's writes are durable, if it made any, and
      no later step, crash or recovery undoes them. */
  lemma ReturnedIsDurable(s0: State, steps: seq<Step>, s: State, more: seq<Step>, t: State, i: nat)
    requires Init(s0) && Run(s0, steps, s) && Enabled(s, Close) && Run(Do(s, Close), more, t)
    requires i < |s.events| && s.events[i].group == s.group
    ensures s.group in s.durable && s.durable <= t.durable && s.group in t.durable
  {
    InitInv(s0);
    RunKeeps(s0, steps, s);
    StepKeeps(s, Close);
    DurableIsForever(Do(s, Close), more, t, s.durable);
  }

  /** Commit and recovery never meet a block number out of range or a malformed header. */
  lemma DiskLoopsNeverStick(s0: State, steps: seq<Step>, s: State)
    requires Init(s0) && Run(s0, steps, s)
    ensures s.phase.Copying? || s.phase.Installing? || s.phase.Recovering? ==> Enabled(s, DiskWrite)
    ensures s.phase == Rebooted ==> Enabled(s, ReadHead)
  {
    InitInv(s0);
    RunKeeps(s0, steps, s);
  }
}
