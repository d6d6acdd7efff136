/** File-system operations in transactions of the log: they share commit groups, and the machine may lose power
    between any two block writes. What recovery leaves is the file system after the durable operations. */
module FsCrash {
  import opened Bytes
  import opened LogSpec
  import opened LogRuns
  import opened FsSpec
  import opened FsSteps
  import opened Fs
  import R = FsRuns
  import Mkfs

  /** One file-system operation made by operation op of the log, and the contents around it. */
  datatype Txn = Txn(op: nat, group: nat, call: R.Op, before: Disk, after: Disk)

  datatype Machine = Machine(log: State, done: seq<Txn>)

  /** What happens next: a step of the log other than log_write, or a file-system operation inside op. */
  datatype Cmd = Log(st: Step) | Call(op: nat, call: R.Op)

  /** The log lies before the inodes, on the disk the superblock speaks of. */
  predicate Fits(sb: Superblock, g: Geometry) {
    sb.Valid() && g.Valid() && g.total == sb.size && g.start + g.size <= sb.inodestart
  }

  ghost predicate Sound(sb: Superblock, d: Disk) {
    exists own: map<nat, Slot> :: Quiet(sb, d, own)
  }

  ghost predicate Good(sb: Superblock, x: Txn) {
    exists own: map<nat, Slot>, o: map<nat, Slot> :: R.Did(sb, x.call, x.before, own, x.after, o)
  }

  /** The operations that belong to one of the groups, in order. */
  function Of(done: seq<Txn>, groups: seq<nat>): seq<Txn> {
    if done == [] then []
    else Of(done[..|done| - 1], groups) + if done[|done| - 1].group in groups then [done[|done| - 1]] else []
  }

  /** From a the operations, one after the other, lead to b. */
  ghost predicate Chain(g: Geometry, a: Disk, xs: seq<Txn>, b: Disk) {
    && |a| == |b| == g.total
    && if xs == [] then SameHome(g, a, b)
       else
         var x := xs[|xs| - 1];
         |x.before| == |x.after| == g.total && Chain(g, a, xs[..|xs| - 1], x.before) && SameHome(g, x.after, b)
  }

  /** The contents the cache shows while the current group is open. */
  function Open(s: State): Disk {
    Contents(s.init, s.events, if s.group in s.durable then s.durable else s.durable + [s.group])
  }

  /** The operations of one transaction are all in one group; those of an open transaction in the open one. */
  ghost predicate Grouped(m: Machine) {
    && (forall i :: 0 <= i < |m.done| ==>
          && m.done[i].op < m.log.nextOp && m.done[i].group <= m.log.group
          && (m.done[i].op in m.log.active ==> m.done[i].group == m.log.group))
    && (forall i, j :: 0 <= i < j < |m.done| && m.done[i].op == m.done[j].op ==> m.done[i].group == m.done[j].group)
    && (forall i, j :: 0 <= i < j < |m.done| ==> m.done[i].group <= m.done[j].group)
  }

  /** The part of the invariant that a panic in the middle of an operation does not break. */
  ghost predicate Base(sb: Superblock, m: Machine) {
    && Fits(sb, m.log.g) && Inv(m.log)
    && Sound(sb, Contents(m.log.init, m.log.events, m.log.durable))
    && Chain(m.log.g, m.log.init, Of(m.done, m.log.durable), Contents(m.log.init, m.log.events, m.log.durable))
    && (forall i :: 0 <= i < |m.done| ==> Good(sb, m.done[i]))
    && Grouped(m)
  }

  ghost predicate MInv(sb: Superblock, m: Machine) {
    && Base(sb, m) && Sound(sb, Open(m.log))
    && (m.log.group !in m.log.durable ==>
          Chain(m.log.g, Contents(m.log.init, m.log.events, m.log.durable), Of(m.done, [m.log.group]), Open(m.log)))
  }

  /** The theorem's conclusion. Lose power now and let recovery complete: the disk is a consistent file system
      without holes, and what the operations of the durable groups, in order, have made of the first one. The
      operations of one transaction are in one group, so they survive together or not at all. */
  ghost predicate Survives(sb: Superblock, m: Machine) {
    && GoodDisk(m.log.g, m.log.disk)
    && var r := Recover(m.log.g, m.log.disk);
       && Sound(sb, r)
       && Chain(m.log.g, m.log.init, Of(m.done, m.log.durable), r)
       && (forall i :: 0 <= i < |m.done| ==> Good(sb, m.done[i]))
       && forall i, j :: 0 <= i < j < |m.done| && m.done[i].op == m.done[j].op ==> m.done[i].group == m.done[j].group
  }

  // ---- the file system does not see the log area ----

  lemma QuietHome(sb: Superblock, g: Geometry, d: Disk, own: map<nat, Slot>, e: Disk)
    requires Fits(sb, g) && Quiet(sb, d, own) && |d| == |e| == g.total && SameHome(g, d, e)
    ensures Quiet(sb, e, own)
  {
    hide Bit, Ref, InodeAt, Mapped;
    var t := DiskTable(sb, d);
    forall x | sb.inodestart <= x < sb.size ensures e[x] == d[x] {
      assert g.Home(x);
    }
    InodesFrame(sb, d, e);
    assert DiskTable(sb, e) == t;
    forall i, k | 1 <= i < sb.ninodes && 0 <= k <= MAXFILE ensures Ref(e, t[i], k) == Ref(d, t[i], k) {
      RefIs(d, t[i], MAXFILE);
      OwnedRef(sb, d, t, own, i, MAXFILE);
      RefFrame(d, e, t[i], k);
    }
    SameRefs(sb, d, t, own, e);
    BitsFrame(sb, d, e, own);
    forall i | 1 <= i < sb.ninodes ensures Mapped(e, InodeAt(sb, e, i)) {
      assert Mapped(d, t[i]);
      SameMapped(d, e, t[i]);
    }
  }

  lemma SameMapped(d: Disk, e: Disk, di: Dinode)
    requires di.Valid() && Mapped(d, di) && forall k :: 0 <= k <= MAXFILE ==> Ref(e, di, k) == Ref(d, di, k)
    ensures Mapped(e, di)
  {}

  lemma SoundHome(sb: Superblock, g: Geometry, d: Disk, e: Disk)
    requires Fits(sb, g) && Sound(sb, d) && |d| == |e| == g.total && SameHome(g, d, e)
    ensures Sound(sb, e)
  {
    var own: map<nat, Slot> :| Quiet(sb, d, own);
    QuietHome(sb, g, d, own, e);
  }

  // ---- chains ----

  lemma {:induction false} ChainEnd(g: Geometry, a: Disk, xs: seq<Txn>, b: Disk, c: Disk)
    requires Chain(g, a, xs, b) && |c| == g.total && SameHome(g, b, c)
    ensures Chain(g, a, xs, c)
  {}

  lemma {:induction false} ChainJoin(g: Geometry, a: Disk, xs: seq<Txn>, b: Disk, ys: seq<Txn>, c: Disk)
    requires Chain(g, a, xs, b) && Chain(g, b, ys, c)
    ensures Chain(g, a, xs + ys, c)
  {
    if ys == [] {
      assert xs + ys == xs;
      ChainEnd(g, a, xs, b, c);
    } else {
      var y := ys[|ys| - 1];
      ChainJoin(g, a, xs, b, ys[..|ys| - 1], y.before);
      assert (xs + ys)[..|xs + ys| - 1] == xs + ys[..|ys| - 1];
    }
  }

  lemma {:induction false} NoneOf(done: seq<Txn>, groups: seq<nat>)
    requires forall i :: 0 <= i < |done| ==> done[i].group !in groups
    ensures Of(done, groups) == []
  {
    if done != [] {
      NoneOf(done[..|done| - 1], groups);
    }
  }

  /** The operations of the last group come after those of the groups before. */
  lemma {:induction false} OfMore(done: seq<Txn>, groups: seq<nat>, last: nat)
    requires last !in groups && (forall i :: 0 <= i < |done| ==> done[i].group <= last)
    requires forall i, j :: 0 <= i < j < |done| ==> done[i].group <= done[j].group
    ensures Of(done, groups + [last]) == Of(done, groups) + Of(done, [last])
  {
    if done != [] {
      var n := |done| - 1;
      OfMore(done[..n], groups, last);
      if done[n].group != last {
        NoneOf(done, [last]);
        NoneOf(done[..n], [last]);
      }
    }
  }

  // ---- steps of the log ----

  function Settled(s: State): Disk {
    Contents(s.init, s.events, s.durable)
  }

  lemma OpenIs(s: State)
    ensures s.group !in s.durable ==> Open(s) == Applied(Settled(s), Replay(s.events, s.group))
    ensures s.group in s.durable ==> Open(s) == Settled(s)
  {
    if s.group !in s.durable {
      assert (s.durable + [s.group])[..|s.durable|] == s.durable;
    }
  }

  lemma OpenLength(s: State)
    requires Inv(s)
    ensures |Open(s)| == |Settled(s)| == s.g.total
  {}

  /** A new group starts from the settled contents. */
  lemma NewGroup(sb: Superblock, m: Machine, t: State)
    requires Base(sb, m) && Inv(t) && t.g == m.log.g && t.init == m.log.init && t.events == m.log.events
    requires t.durable == m.log.durable && t.group == m.log.group + 1 && t.nextOp == m.log.nextOp && t.active == {}
    ensures MInv(sb, m.(log := t))
  {
    hide Inv, Sound, Chain, Good, Replay;
    var s := m.log;
    HistoryOld(s);
    ReplayUnused(t.events, t.group);
    OpenIs(t);
    assert Open(t) == Settled(s);
    NoneOf(m.done, [t.group]);
    OpenLength(t) by { InvIs(t); }
    assert Chain(t.g, Settled(t), [], Open(t)) by { ChainNone(t.g, Settled(t)); }
  }

  lemma InvIs(s: State)
    requires Inv(s)
    ensures MemInv(s) && HistoryInv(s)
  {}

  lemma ChainNone(g: Geometry, a: Disk)
    requires |a| == g.total
    ensures Chain(g, a, [], a)
  {}

  lemma HistoryOld(s: State)
    requires Inv(s)
    ensures forall i :: 0 <= i < |s.events| ==> s.events[i].group < s.group + 1
    ensures forall i :: 0 <= i < |s.durable| ==> s.durable[i] <= s.group
  {}

  /** The header write: the open group joins the durable ones. */
  lemma GroupSettles(sb: Superblock, m: Machine, t: State)
    requires MInv(sb, m) && Inv(t) && m.log.group !in m.log.durable
    requires t.g == m.log.g && t.init == m.log.init && t.events == m.log.events && t.group == m.log.group
    requires t.durable == m.log.durable + [m.log.group] && t.nextOp == m.log.nextOp && t.active == m.log.active
    ensures MInv(sb, m.(log := t))
  {
    hide Inv, Sound, Chain, Good, Contents;
    var s := m.log;
    assert Settled(t) == Open(s) && Open(t) == Open(s);
    OfMore(m.done, s.durable, s.group);
    ChainJoin(s.g, s.init, Of(m.done, s.durable), Settled(s), Of(m.done, [s.group]), Open(s));
  }

  lemma SameHistory(sb: Superblock, m: Machine, t: State)
    requires MInv(sb, m) && Inv(t) && t.g == m.log.g && t.init == m.log.init && t.events == m.log.events
    requires t.group == m.log.group && t.durable == m.log.durable
    requires t.nextOp >= m.log.nextOp && forall op :: op in t.active && op < m.log.nextOp ==> op in m.log.active
    ensures MInv(sb, m.(log := t))
  {
    hide Inv, Sound, Chain, Good, Contents;
    assert Open(t) == Open(m.log);
  }

  /** Every step of the log except log_write keeps the invariant. */
  lemma LogKeeps(sb: Superblock, m: Machine, st: Step)
    requires MInv(sb, m) && Enabled(m.log, st) && !st.LogWrite?
    ensures MInv(sb, m.(log := Do(m.log, st)))
  {
    var s, t := m.log, Do(m.log, st);
    hide Inv, Do, Enabled, Sound, Chain, Good, Contents;
    StepKeeps(s, st);
    StepHistory(s, st);
    if t.group != s.group {
      NewGroup(sb, m, t);
    } else if t.durable != s.durable {
      GroupSettles(sb, m, t);
    } else {
      SameHistory(sb, m, t);
    }
  }

  lemma StepHistory(s: State, st: Step)
    requires Inv(s) && Enabled(s, st) && !st.LogWrite?
    ensures var t := Do(s, st);
            && t.g == s.g && t.init == s.init && t.events == s.events
            && (t.group == s.group
                || (t.group == s.group + 1 && t.durable == s.durable && t.nextOp == s.nextOp && t.active == {}))
            && (t.durable == s.durable
                || (s.group !in s.durable && t.durable == s.durable + [s.group] && t.nextOp == s.nextOp
                    && t.active == s.active))
            && t.nextOp >= s.nextOp && forall op :: op in t.active && op < s.nextOp ==> op in s.active
  {}

  // ---- a file-system operation ----

  /** What bread shows of every block. */
  function Cached(s: State): (d: Disk)
    requires |s.disk| == s.g.total
    ensures |d| == s.g.total && forall b :: 0 <= b < s.g.total ==> d[b] == Bread(s, b)
  {
    seq(s.g.total, b requires 0 <= b < s.g.total => Bread(s, b))
  }

  lemma CachedIsOpen(s: State)
    requires Inv(s) && s.phase.Running?
    ensures |s.disk| == |Open(s)| == s.g.total && SameHome(s.g, Cached(s), Open(s)) && s.group !in s.durable
  {
    OpenIs(s);
  }

  /** One log_write. */
  lemma WriteOpens(s: State, op: nat, b: nat, v: Block)
    requires Inv(s) && Enabled(s, LogWrite(op, b, v))
    ensures var t := Do(s, LogWrite(op, b, v));
            && Inv(t) && Extends(s, t) && b < |Open(s)| && Open(t) == Open(s)[b := v]
            && t.events == s.events + [Event(op, s.group, b, v)]
  {
    hide Inv, Open, Settled, Contents, Replay;
    var t := Do(s, LogWrite(op, b, v));
    StepKeeps(s, LogWrite(op, b, v));
    ActiveRuns(s, op);
    OpenLength(s);
    assert b < s.g.total;
    OpenWrites(s, t, Event(op, s.group, b, v));
  }

  /** A log_write in the open group changes what is open and nothing settled. */
  lemma OpenWrites(s: State, t: State, e: Event)
    requires s.group !in s.durable && e.group == s.group && e.b < |Open(s)|
    requires t.init == s.init && t.group == s.group && t.durable == s.durable && t.events == s.events + [e]
    ensures Settled(t) == Settled(s) && Open(t) == Open(s)[e.b := e.v]
  {
    ContentsAppend(s.init, s.events, e, s.durable);
    ReplayAppend(s.events, e, s.group);
    OpenIs(s);
    OpenIs(t);
    AppliedWrite(Settled(s), Replay(s.events, s.group), e.b, e.v);
  }

  lemma AppliedWrite(d: Disk, m: map<nat, Block>, b: nat, v: Block)
    requires b < |d|
    ensures Applied(d, m[b := v]) == Applied(d, m)[b := v]
  {}

  /** Only the open group has changed. */
  ghost predicate Extends(s: State, t: State) {
    && t.g == s.g && t.init == s.init && t.disk == s.disk && t.group == s.group && t.durable == s.durable
    && t.active == s.active && t.nextOp == s.nextOp && t.phase == s.phase && Settled(t) == Settled(s)
  }

  /** The log_writes since s are all of operation op. */
  ghost predicate LoggedBy(s: State, t: State, op: nat) {
    s.events <= t.events && forall i :: |s.events| <= i < |t.events| ==> t.events[i].op == op
  }

  /** The log_writes of operation op: block b of bs becomes d[b]. ok == false: log_write panicked on the log s. */
  method WriteAll(s0: State, op: nat, bs: set<nat>, d: Disk) returns (s: State, ok: bool)
    requires Inv(s0) && op in s0.active && |d| == s0.g.total && forall b :: b in bs ==> s0.g.Home(b)
    ensures Inv(s) && Extends(s0, s) && LoggedBy(s0, s, op)
    ensures !ok ==> LogWritePanics(s.g, s.mem) && bs != {}
    ensures ok ==> |Open(s)| == |Open(s0)| == s0.g.total
    ensures ok ==> forall b :: 0 <= b < s0.g.total ==> Open(s)[b] == if b in bs then d[b] else Open(s0)[b]
  {
    hide Inv, Settled, Do, Open;
    OpenLength(s0);
    s, ok := s0, true;
    var left := bs;
    while left != {}
      invariant left <= bs && ok && Inv(s) && Extends(s0, s) && LoggedBy(s0, s, op) && |Open(s)| == s0.g.total
      invariant forall b :: 0 <= b < s0.g.total ==> Open(s)[b] == if b in bs && b !in left then d[b] else Open(s0)[b]
    {
      var b :| b in left;
      if LogWritePanics(s.g, s.mem) {
        return s, false;
      }
      WriteOpens(s, op, b, d[b]);
      s := Do(s, LogWrite(op, b, d[b]));
      left := left - {b};
    }
  }

  lemma BaseKept(sb: Superblock, m: Machine, t: State)
    requires Base(sb, m) && Inv(t) && Extends(m.log, t)
    ensures Base(sb, m.(log := t))
  {
    hide Inv, Sound, Chain, Good, Contents;
  }

  lemma CallKeeps(sb: Superblock, m: Machine, t: State, x: Txn)
    requires MInv(sb, m) && Inv(t) && Extends(m.log, t) && m.log.group !in m.log.durable && Good(sb, x)
    requires x.op in m.log.active && x.op < m.log.nextOp && x.group == m.log.group
    requires |x.before| == |x.after| == m.log.g.total == |Open(t)| == |Open(m.log)|
    requires SameHome(m.log.g, Open(m.log), x.before) && SameHome(m.log.g, x.after, Open(t))
    ensures MInv(sb, Machine(t, m.done + [x]))
  {
    hide Inv, Sound, Good, Contents, Open, Chain, Of, SameHome, Settled;
    var s := m.log;
    SettledIs(s);
    SettledIs(t);
    CallBase(sb, m, t, x);
    OfOne(m.done, x, [s.group]);
    ChainEnd(s.g, Settled(s), Of(m.done, [s.group]), Open(s), x.before);
    ChainOne(s.g, Settled(s), Of(m.done, [s.group]), x, Open(t));
    GoodSound(sb, x);
    SoundHome(sb, s.g, x.after, Open(t));
  }

  lemma SettledIs(s: State)
    ensures Settled(s) == Contents(s.init, s.events, s.durable)
  {}

  lemma CallBase(sb: Superblock, m: Machine, t: State, x: Txn)
    requires Base(sb, m) && Inv(t) && Extends(m.log, t) && m.log.group !in m.log.durable && Good(sb, x)
    requires x.op in m.log.active && x.op < m.log.nextOp && x.group == m.log.group
    ensures Base(sb, Machine(t, m.done + [x]))
  {
    hide Inv, Sound, Good, Contents, Chain, Of;
    BaseKept(sb, m, t);
    OfOne(m.done, x, t.durable);
    assert Grouped(Machine(t, m.done + [x]));
  }

  lemma OfOne(done: seq<Txn>, x: Txn, groups: seq<nat>)
    ensures Of(done + [x], groups) == if x.group in groups then Of(done, groups) + [x] else Of(done, groups)
  {
    assert (done + [x])[..|done|] == done;
  }

  lemma ChainOne(g: Geometry, a: Disk, xs: seq<Txn>, x: Txn, b: Disk)
    requires |x.before| == |x.after| == |b| == g.total && Chain(g, a, xs, x.before) && SameHome(g, x.after, b)
    ensures Chain(g, a, xs + [x], b)
  {
    assert (xs + [x])[..|xs|] == xs;
  }

  lemma GoodSound(sb: Superblock, x: Txn)
    requires Good(sb, x)
    ensures Sound(sb, x.after)
  {}

  /** The call was made inside operation op: it found what the cache shows, did its work, and the cache shows that. */
  ghost predicate Called(sb: Superblock, m: Machine, op: nat, call: R.Op, t: Machine) {
    && |t.done| == |m.done| + 1 && t.done[..|m.done|] == m.done
    && Extends(m.log, t.log) && LoggedBy(m.log, t.log, op)
    && sb.Valid() && |m.log.disk| == m.log.g.total == sb.size && R.WellFormed(sb, call)
    && !R.Panics(sb, call, Cached(m.log))
    && var x := t.done[|m.done|];
       && x.op == op && x.group == m.log.group && x.call == call && Good(sb, x)
       && x.before == Cached(m.log) && |x.after| == m.log.g.total && SameHome(m.log.g, x.after, Cached(t.log))
  }

  /** The call panicked on what it found, or log_write did on a log that some of its blocks were in. */
  ghost predicate Halted(sb: Superblock, m: Machine, op: nat, call: R.Op, t: Machine) {
    && t.done == m.done && Extends(m.log, t.log) && LoggedBy(m.log, t.log, op)
    && sb.Valid() && |m.log.disk| == m.log.g.total == sb.size && R.WellFormed(sb, call)
    && (R.Panics(sb, call, Cached(m.log)) || (!call.Read? && LogWritePanics(t.log.g, t.log.mem)))
  }

  /** A file-system operation inside operation op of the log. ok == false: a panic. */
  method Operate(sb: Superblock, m: Machine, op: nat, call: R.Op) returns (t: Machine, ok: bool)
    requires MInv(sb, m) && op in m.log.active && R.WellFormed(sb, call)
    ensures Base(sb, t) && (ok ==> MInv(sb, t))
    ensures ok ==> Called(sb, m, op, call, t)
    ensures !ok ==> Halted(sb, m, op, call, t)
  {
    hide Inv, Sound, Chain, Good, Contents, Settled, Open, R.Did, LoggedOnly, Consistent, InodeAt, Mapped, R.Panics;
    var s := m.log;
    ActiveRuns(s, op);
    CachedIsOpen(s);
    var image := Cached(s);
    OpenSound(sb, m, image);
    ghost var own := SomeOwner(sb, image);
    var fs := new FileSystem(sb, image, own);
    ok := R.RunOp(fs, call);
    if !ok {
      return m, false;
    }
    LoggedHome(sb, s.g, image, fs.blocks, fs.logged);
    var log;
    log, ok := WriteAll(s, op, fs.logged, fs.blocks);
    BaseKept(sb, m, log);
    t := m.(log := log);
    if ok {
      var x := Txn(op, s.group, call, image, fs.blocks);
      CalledIsGood(sb, x, own, fs.own);
      LoggedShows(sb, s.g, Open(s), image, fs.blocks, fs.logged, Open(log));
      CallKeeps(sb, m, log, x);
      CachedIsOpen(log);
      t := Machine(log, m.done + [x]);
    }
  }

  lemma ActiveRuns(s: State, op: nat)
    requires Inv(s) && op in s.active
    ensures s.phase.Running? && s.group !in s.durable && op < s.nextOp && |s.disk| == s.g.total
  {}

  lemma OpenSound(sb: Superblock, m: Machine, image: Disk)
    requires MInv(sb, m) && |image| == |Open(m.log)| == m.log.g.total && SameHome(m.log.g, image, Open(m.log))
    ensures Sound(sb, image) && Fits(sb, m.log.g) && SameHome(m.log.g, Open(m.log), image)
  {
    hide Inv, Chain, Good, Contents, Open, Sound;
    SoundHome(sb, m.log.g, Open(m.log), image);
  }

  ghost function SomeOwner(sb: Superblock, d: Disk): (own: map<nat, Slot>)
    requires Sound(sb, d)
    ensures Quiet(sb, d, own)
  {
    var own: map<nat, Slot> :| Quiet(sb, d, own);
    own
  }

  lemma CalledIsGood(sb: Superblock, x: Txn, own: map<nat, Slot>, o: map<nat, Slot>)
    requires R.Did(sb, x.call, x.before, own, x.after, o)
    ensures Good(sb, x)
  {}

  lemma LoggedHome(sb: Superblock, g: Geometry, d: Disk, e: Disk, bs: set<nat>)
    requires Fits(sb, g) && LoggedOnly(sb, d, {}, e, bs)
    ensures |e| == g.total && forall b :: b in bs ==> g.Home(b)
  {}

  /** Logging the blocks the operation changed shows its result through the cache. */
  lemma LoggedShows(sb: Superblock, g: Geometry, a: Disk, d: Disk, e: Disk, bs: set<nat>, b: Disk)
    requires Fits(sb, g) && LoggedOnly(sb, d, {}, e, bs) && |a| == |b| == |d| == g.total && SameHome(g, d, a)
    requires forall x :: 0 <= x < g.total ==> b[x] == if x in bs then e[x] else a[x]
    ensures |e| == g.total && SameHome(g, e, b)
  {}

  // ---- whole runs ----

  lemma SurvivesIf(sb: Superblock, m: Machine)
    requires Base(sb, m)
    ensures Survives(sb, m)
  {
    hide Inv, Contents, Sound, Chain, Good;
    var s := m.log;
    RecoversToDurable(s);
    var r := Recover(s.g, s.disk);
    OpenLength(s);
    SoundHome(sb, s.g, Settled(s), r);
    ChainEnd(s.g, s.init, Of(m.done, s.durable), Settled(s), r);
  }

  lemma Boots(sb: Superblock, s: State)
    requires Fits(sb, s.g) && Init(s) && Sound(sb, s.init)
    ensures MInv(sb, Machine(s, []))
  {
    hide Sound;
    InitInv(s);
    OpenIs(s);
    assert Open(s) == s.init == Settled(s);
    ChainNone(s.g, s.init);
  }

  predicate Allowed(sb: Superblock, c: Cmd) {
    match c
    case Log(st) => !st.LogWrite?
    case Call(_, call) => R.WellFormed(sb, call)
  }

  /** The machine is started again: what was in memory is lost. */
  function Restarted(m: Machine): Machine {
    m.(log := Do(m.log, Crash))
  }

  /** The command cmd leads from m to t. One that is not possible when its turn comes is passed over. A panic halts
      the machine, and it is started again. */
  ghost predicate Stepped(sb: Superblock, cmd: Cmd, m: Machine, t: Machine) {
    match cmd
    case Log(st) => t == if Enabled(m.log, st) then m.(log := Do(m.log, st)) else m
    case Call(op, call) =>
      if op !in m.log.active then t == m
      else
        || Called(sb, m, op, call, t)
        || exists h: Machine :: Halted(sb, m, op, call, h) && t == Restarted(h)
  }

  /** The states a schedule goes through, and recovery from each of them. */
  ghost predicate History(sb: Superblock, cmds: seq<Cmd>, ms: seq<Machine>) {
    && 0 < |ms| <= |cmds| + 1
    && (forall i :: 0 <= i < |ms| - 1 ==> Stepped(sb, cmds[i], ms[i], ms[i + 1]))
    && (forall i :: 0 <= i < |ms| ==> Survives(sb, ms[i]))
  }

  lemma HistoryMore(sb: Superblock, cmds: seq<Cmd>, ms: seq<Machine>, t: Machine)
    requires History(sb, cmds, ms) && |ms| <= |cmds| && Survives(sb, t)
    requires Stepped(sb, cmds[|ms| - 1], ms[|ms| - 1], t)
    ensures History(sb, cmds, ms + [t])
  {
    hide Stepped, Survives;
  }

  /** Any schedule, from any disk that recovery makes a consistent file system of: transactions begin and end,
      operations run inside them, blocks are written, power fails, operations panic, recoveries run and fail again. */
  method Run(sb: Superblock, s0: State, cmds: seq<Cmd>) returns (m: Machine, ghost ms: seq<Machine>)
    requires Fits(sb, s0.g) && Init(s0) && Sound(sb, s0.init)
    requires forall i :: 0 <= i < |cmds| ==> Allowed(sb, cmds[i])
    ensures History(sb, cmds, ms) && |ms| == |cmds| + 1 && ms[0] == Machine(s0, []) && ms[|cmds|] == m
    ensures Survives(sb, m) && m.log.init == s0.init && m.log.g == s0.g
  {
    hide MInv, Init, Sound, Survives, Inv, Base, Do, Stepped, History;
    Boots(sb, s0);
    m, ms := Machine(s0, []), [Machine(s0, [])];
    InvBase(sb, m);
    SurvivesIf(sb, m);
    HistoryOne(sb, cmds, m);
    var n := 0;
    while n < |cmds|
      invariant n <= |cmds| && MInv(sb, m) && m.log.init == s0.init && m.log.g == s0.g
      invariant |ms| == n + 1 && ms[0] == Machine(s0, []) && ms[n] == m && History(sb, cmds, ms)
    {
      m := Perform(sb, m, cmds[n]);
      InvBase(sb, m);
      SurvivesIf(sb, m);
      HistoryMore(sb, cmds, ms, m);
      ms := ms + [m];
      n := n + 1;
    }
    InvBase(sb, m);
    SurvivesIf(sb, m);
  }

  lemma HistoryOne(sb: Superblock, cmds: seq<Cmd>, m: Machine)
    requires Survives(sb, m)
    ensures History(sb, cmds, [m])
  {
    hide Survives;
  }

  /** One command. */
  method Perform(sb: Superblock, m: Machine, cmd: Cmd) returns (t: Machine)
    requires MInv(sb, m) && Allowed(sb, cmd)
    ensures MInv(sb, t) && Stepped(sb, cmd, m, t) && t.log.init == m.log.init && t.log.g == m.log.g
  {
    hide MInv, Inv, Base, Do, Called, Halted;
    t := m;
    match cmd
    case Log(st) =>
      if Enabled(m.log, st) {
        LogKeeps(sb, m, st);
        SameDisk(m.log, st);
        t := m.(log := Do(m.log, st));
      }
    case Call(op, call) =>
      if op in m.log.active {
        var ok;
        t, ok := Operate(sb, m, op, call);
        if ok {
          CalledSame(sb, m, op, call, t);
        } else {
          HaltedSame(sb, m, op, call, t);
          Restarts(sb, t);
          SameDisk(t.log, Crash);
          t := Restarted(t);
        }
      }
  }

  lemma CalledSame(sb: Superblock, m: Machine, op: nat, call: R.Op, t: Machine)
    requires Called(sb, m, op, call, t)
    ensures t.log.init == m.log.init && t.log.g == m.log.g
  {}

  lemma HaltedSame(sb: Superblock, m: Machine, op: nat, call: R.Op, t: Machine)
    requires Halted(sb, m, op, call, t)
    ensures t.log.init == m.log.init && t.log.g == m.log.g
  {}

  lemma Restarts(sb: Superblock, m: Machine)
    requires Base(sb, m)
    ensures MInv(sb, Restarted(m))
  {
    hide Inv, Sound, Chain, Good, Contents;
    StepKeeps(m.log, Crash);
    NewGroup(sb, m, Do(m.log, Crash));
  }

  lemma InvBase(sb: Superblock, m: Machine)
    requires MInv(sb, m)
    ensures Base(sb, m)
  {}

  lemma SameDisk(s: State, st: Step)
    requires Enabled(s, st)
    ensures Do(s, st).init == s.init && Do(s, st).g == s.g
  {}

  /** The same from the image mkfs makes, whose log is empty and which holds the files. */
  method FromMkfs(files: seq<Mkfs.Source>, cmds: seq<Cmd>) returns (m: Machine, made: bool, ghost ms: seq<Machine>)
    requires (|files| + 2) % 32 != 0
    requires forall i :: 0 <= i < |cmds| ==> Allowed(Mkfs.SB, cmds[i])
    ensures made <==> Mkfs.Fits(files)
    ensures made ==> History(Mkfs.SB, cmds, ms) && |ms| == |cmds| + 1 && ms[|cmds|] == m
    ensures made ==> Mkfs.Holds(ms[0].log.disk, files) && ms[0] == Machine(Boot(ms[0].log.disk), [])
  {
    hide History, Quiet, Consistent, InodeAt, Content, Mapped, Mkfs.SuperBlock, Mkfs.RootPadded, Mkfs.Fits, Mkfs.Holds;
    var image;
    ghost var own;
    image, own, made := Mkfs.MakeFs(files);
    var s0 := Boot(image);
    ms := [];
    if !made {
      return Machine(s0, []), false, [];
    }
    EmptyLog(image, own);
    m, ms := Run(Mkfs.SB, s0, cmds);
  }

  /** The machine about to read the log of an image. */
  function Boot(image: Disk): State {
    var init := if GoodDisk(Mkfs.LOG, image) then Recover(Mkfs.LOG, image) else image;
    State(Mkfs.LOG, Mem([], map[], 0, false), image, Rebooted, {}, 0, 0, [], [], init, image)
  }

  lemma EmptyLog(image: Disk, own: map<nat, Slot>)
    requires Mkfs.Front(image) && Quiet(Mkfs.SB, image, own)
    ensures Fits(Mkfs.SB, Mkfs.LOG) && Init(Boot(image)) && Sound(Mkfs.SB, Boot(image).init)
  {
    hide Quiet, Recover, Mkfs.SuperBlock;
    ZeroWord(0);
    EmptyHeader(Mkfs.LOG, image);
    QuietHome(Mkfs.SB, Mkfs.LOG, image, own, Recover(Mkfs.LOG, image));
  }
}
