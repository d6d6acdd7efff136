/** The code of log.c takes the steps of LogRuns: each call moves the log as a run of steps does, write by write. */
module LogFollows {
  import opened Bytes
  import opened LogSpec
  import opened LogRuns
  import L = Log

  /** From s to t by block writes; disks is the disk after each. */
  ghost predicate WriteRun(s: State, disks: seq<Disk>, t: State)
    decreases |disks|
  {
    if disks == [] then s == t else
      Enabled(s, DiskWrite) && Do(s, DiskWrite).disk == disks[0] && WriteRun(Do(s, DiskWrite), disks[1..], t)
  }

  function Writes(n: nat): (steps: seq<Step>)
    ensures |steps| == n
  {
    seq(n, _ => DiskWrite)
  }

  lemma {:induction false} WriteMore(s: State, disks: seq<Disk>, m: State)
    requires WriteRun(s, disks, m) && Enabled(m, DiskWrite)
    ensures WriteRun(s, disks + [Do(m, DiskWrite).disk], Do(m, DiskWrite))
    decreases |disks|
  {
    var d, t := Do(m, DiskWrite).disk, Do(m, DiskWrite);
    if disks == [] {
      assert WriteRun(t, [d][1..], t);
    } else {
      WriteMore(Do(s, DiskWrite), disks[1..], m);
      assert (disks + [d])[1..] == disks[1..] + [d];
    }
  }

  lemma {:induction false} WritesRun(s: State, disks: seq<Disk>, t: State)
    requires WriteRun(s, disks, t)
    ensures Run(s, Writes(|disks|), t)
    decreases |disks|
  {
    if disks != [] {
      WritesRun(Do(s, DiskWrite), disks[1..], t);
      assert Writes(|disks|)[1..] == Writes(|disks| - 1);
    }
  }

  lemma {:induction false} RunThen(s: State, a: seq<Step>, m: State, b: seq<Step>, t: State)
    requires Run(s, a, m) && Run(m, b, t)
    ensures Run(s, a + b, t)
    decreases |a|
  {
    if a == [] {
      assert a + b == b;
    } else {
      RunThen(Do(s, a[0]), a[1..], m, b, t);
      assert (a + b)[1..] == a[1..] + b;
    }
  }

  /** write_log: k of its writes. */
  lemma {:induction false} Copies(s: State, k: nat) returns (t: State)
    requires Inv(s) && s.phase == Copying(0) && k <= |s.mem.lh| && |s.disk| == s.g.total && s.disk == s.base
    requires s.g.Valid() && GoodBlocks(s.g, s.mem.lh) && s.mem.dirty.Keys == Elems(s.mem.lh)
    ensures WriteRun(s, WriteLogTrace(s.g, s.disk, s.mem.lh, s.mem.dirty, k), t) && Inv(t)
    ensures t == s.(disk := WriteLogK(s.g, s.disk, s.mem.lh, s.mem.dirty, k), phase := Copying(k))
  {
    hide Inv, WriteRun, WriteLogTrace, WriteLogK, GoodBlocks, Do, Enabled, Elems;
    WriteLogNone(s.g, s.disk, s.mem.lh, s.mem.dirty);
    if k == 0 {
      t := s;
      WriteNone(s);
    } else {
      var m := Copies(s, k - 1);
      CopyGoes(m, k);
      WriteMore(s, WriteLogTrace(s.g, s.disk, s.mem.lh, s.mem.dirty, k - 1), m);
      t := Do(m, DiskWrite);
      CopyIs(m, k);
      WriteLogNext(s.g, s.disk, s.mem.lh, s.mem.dirty, k - 1);
      WriteLogTraceNext(s.g, s.disk, s.mem.lh, s.mem.dirty, k - 1);
    }
  }

  lemma CopyGoes(m: State, k: nat)
    requires 0 < k <= |m.mem.lh| && Inv(m) && m.phase == Copying(k - 1)
    ensures Enabled(m, DiskWrite) && Inv(Do(m, DiskWrite))
  {
    StepKeeps(m, DiskWrite);
    hide Do;
  }

  lemma CopyIs(m: State, k: nat)
    requires 0 < k <= |m.mem.lh| && m.phase == Copying(k - 1) && Enabled(m, DiskWrite)
    requires m.mem.dirty.Keys == Elems(m.mem.lh)
    ensures Do(m, DiskWrite)
            == m.(disk := m.disk[m.g.start + k := m.mem.dirty[m.mem.lh[k - 1]]], phase := Copying(k))
  {
    assert m.mem.lh[k - 1] in m.mem.dirty;
  }

  /** install_trans: k of its writes, in a commit or in a recovery. */
  lemma {:induction false} Installs(s: State, k: nat) returns (t: State)
    requires Inv(s) && (s.phase == Installing(0) || s.phase == Recovering(0)) && k <= |s.mem.lh|
    requires s.g.Valid() && |s.disk| == s.g.total && GoodBlocks(s.g, s.mem.lh) && s.disk == s.base
    ensures WriteRun(s, InstallTrace(s.g, s.disk, s.mem.lh, k), t) && Inv(t)
    ensures t.g == s.g && t.mem == s.mem.(dirty := t.mem.dirty) && t.disk == InstallK(s.g, s.disk, s.mem.lh, k)
    ensures t.phase == if s.phase.Installing? then Installing(k) else Recovering(k)
    ensures t.base == s.base
  {
    hide Inv, Do, Enabled, GoodBlocks, InstallK;
    if k == 0 {
      t := s;
      assert InstallK(s.g, s.disk, s.mem.lh, 0) == s.disk by { InstallNone(s.g, s.disk, s.mem.lh); }
    } else {
      var m := Installs(s, k - 1);
      InstallOne(m, k);
      WriteMore(s, InstallTrace(s.g, s.disk, s.mem.lh, k - 1), m);
      t := Do(m, DiskWrite);
    }
  }

  lemma InstallMoves(m: State, k: nat)
    requires 0 < k <= |m.mem.lh| && Inv(m) && (m.phase == Installing(k - 1) || m.phase == Recovering(k - 1))
    ensures Enabled(m, DiskWrite) && m.g.Valid() && |m.base| == m.g.total && GoodBlocks(m.g, m.mem.lh)
    ensures var t := Do(m, DiskWrite);
            && t.g == m.g && t.base == m.base && t.mem == m.mem.(dirty := t.mem.dirty)
            && t.phase == if m.phase.Installing? then Installing(k) else Recovering(k)
  {}

  lemma InstallOne(m: State, k: nat)
    requires 0 < k <= |m.mem.lh| && Inv(m) && (m.phase == Installing(k - 1) || m.phase == Recovering(k - 1))
    ensures Enabled(m, DiskWrite) && Inv(Do(m, DiskWrite))
    ensures m.g.Valid() && |m.base| == m.g.total && GoodBlocks(m.g, m.mem.lh)
    ensures var t := Do(m, DiskWrite);
            && t.g == m.g && t.base == m.base && t.mem == m.mem.(dirty := t.mem.dirty)
            && t.disk == InstallK(m.g, m.base, m.mem.lh, k)
            && t.phase == if m.phase.Installing? then Installing(k) else Recovering(k)
  {
    hide Inv, Do, Enabled, GoodBlocks, InstallK;
    InstallMoves(m, k);
    StepKeeps(m, DiskWrite);
    InstalledDisk(Do(m, DiskWrite), k);
  }

  lemma InstalledDisk(t: State, k: nat)
    requires Inv(t) && (t.phase == Installing(k) || t.phase == Recovering(k))
    ensures t.g.Valid() && |t.base| == t.g.total && GoodBlocks(t.g, t.mem.lh) && k <= |t.mem.lh|
    ensures t.disk == InstallK(t.g, t.base, t.mem.lh, k)
  {}

  /** The last end_op: it is EndOp, block writes that take the disk through ds, and Close. */
  ghost predicate Commits(s: State, op: nat, ds: seq<Disk>, steps: seq<Step>, t: State) {
    && steps == [EndOp(op)] + Writes(|ds|) + [Close] && Enabled(s, EndOp(op))
    && exists v: State :: WriteRun(Do(s, EndOp(op)), ds, v) && v.phase.Closing? && t == Do(v, Close)
  }

  /** A recovery: it is ReadHead and block writes that take the disk through ds. */
  ghost predicate Recovers(s: State, ds: seq<Disk>, steps: seq<Step>, t: State) {
    steps == [ReadHead] + Writes(|ds|) && Enabled(s, ReadHead) && WriteRun(Do(s, ReadHead), ds, t)
  }

  /** The last operation out: the block writes are those of commit, in order, and the log ends empty. */
  lemma CommitFollows(s: State, op: nat) returns (t: State)
    requires Inv(s) && s.phase.Running? && s.active == {op}
    ensures s.g.Valid() && |s.disk| == s.g.total && GoodBlocks(s.g, s.mem.lh) && s.mem.dirty.Keys == Elems(s.mem.lh)
    ensures var trace := CommitTrace(s.g, s.disk, s.mem.lh, s.mem.dirty);
            var steps := [EndOp(op)] + Writes(|trace|) + [Close];
            Commits(s, op, trace, steps, t) && Run(s, steps, t)
    ensures t.phase.Running? && t.g == s.g && t.mem == Mem([], map[], 0, false)
    ensures t.disk == CommitResult(s.g, s.disk, s.mem.lh, s.mem.dirty)
  {
    hide Run, WriteRun, WriteLogTrace, InstallTrace, WriteLogK, InstallK, HeadWritten, GoodBlocks;
    var g, d, lh, dirty := s.g, s.disk, s.mem.lh, s.mem.dirty;
    StepKeeps(s, EndOp(op));
    var u := Do(s, EndOp(op));
    assert |s.active| == 1;
    var trace := CommitTrace(g, d, lh, dirty);
    var v := CommitWrites(u, d);
    t := Do(v, Close);
    WritesRun(u, trace, v);
    OneStep(s, EndOp(op));
    OneStep(v, Close);
    RunThen(s, [EndOp(op)], u, Writes(|trace|), v);
    RunThen(s, [EndOp(op)] + Writes(|trace|), v, [Close], t);
  }

  lemma CommitWrites(u: State, d: Disk) returns (v: State)
    requires Inv(u) && u.disk == d && u.active == {}
    requires u.phase == if u.mem.lh == [] then Closing else Copying(0)
    requires u.mem.lh != [] ==> u.base == d
    requires u.g.Valid() && |d| == u.g.total && GoodBlocks(u.g, u.mem.lh) && u.mem.dirty.Keys == Elems(u.mem.lh)
    ensures WriteRun(u, CommitTrace(u.g, d, u.mem.lh, u.mem.dirty), v) && v.phase.Closing? && v.g == u.g
    ensures v.mem == u.mem.(lh := [], dirty := map[]) && v.disk == CommitResult(u.g, d, u.mem.lh, u.mem.dirty)
  {
    var g, lh, dirty := u.g, u.mem.lh, u.mem.dirty;
    hide Inv, Do, Enabled, WriteRun;
    if lh == [] {
      v := u;
      Cleared(v);
      assert WriteRun(u, [], u) by { WriteNone(u); }
    } else {
      var n := |lh|;
      var a := Copies(u, n);
      HeaderWrite(a);
      WriteMore(u, WriteLogTrace(g, d, lh, dirty, n), a);
      var w := Do(a, DiskWrite);
      var b := Installs(w, n);
      EraseWrite(b);
      WriteMore(w, InstallTrace(g, w.disk, lh, n), b);
      v := Do(b, DiskWrite);
      WriteThen(u, WriteLogTrace(g, d, lh, dirty, n) + [w.disk], w, InstallTrace(g, w.disk, lh, n) + [v.disk], v);
      assert CommitTrace(g, d, lh, dirty)
          == WriteLogTrace(g, d, lh, dirty, n) + [w.disk] + (InstallTrace(g, w.disk, lh, n) + [v.disk]);
    }
  }

  lemma WriteNone(u: State)
    ensures WriteRun(u, [], u)
  {}

  /** The commit point. */
  lemma HeaderWrite(a: State)
    requires Inv(a) && a.phase == Copying(|a.mem.lh|)
    ensures Enabled(a, DiskWrite) && Inv(Do(a, DiskWrite))
    ensures a.g.Valid() && |a.disk| == a.g.total && GoodBlocks(a.g, a.mem.lh)
    ensures var w := Do(a, DiskWrite);
            && w.g == a.g && w.mem == a.mem && w.disk == w.base == HeadWritten(a.g, a.disk, a.mem.lh)
            && w.phase == Installing(0)
  {
    StepKeeps(a, DiskWrite);
  }

  /** Erasing the log, at the end of a commit or a recovery. */
  lemma EraseWrite(b: State)
    requires Inv(b) && (b.phase == Installing(|b.mem.lh|) || b.phase == Recovering(|b.mem.lh|))
    ensures Enabled(b, DiskWrite) && b.g.Valid() && |b.disk| == b.g.total
    ensures var v := Do(b, DiskWrite);
            && v.g == b.g && v.mem == b.mem.(lh := [], dirty := map[]) && v.disk == HeadWritten(b.g, b.disk, [])
            && v.phase == if b.phase.Installing? then Closing else Running
  {}

  lemma Cleared(v: State)
    requires Inv(v) && v.phase.Closing?
    ensures v.mem.dirty == map[]
  {}

  lemma {:induction false} WriteThen(s: State, a: seq<Disk>, m: State, b: seq<Disk>, t: State)
    requires WriteRun(s, a, m) && WriteRun(m, b, t)
    ensures WriteRun(s, a + b, t)
    decreases |a|
  {
    hide Do, Enabled;
    if a == [] {
      assert a + b == b;
    } else {
      WriteThen(Do(s, DiskWrite), a[1..], m, b, t);
      assert (a + b)[1..] == a[1..] + b;
    }
  }

  /** Recovery at boot: the block writes are those of recover_from_log, in order. */
  lemma RecoverFollows(s: State) returns (t: State)
    requires Inv(s) && s.phase.Rebooted?
    ensures GoodDisk(s.g, s.disk)
    ensures var steps := [ReadHead] + Writes(|RecoverTrace(s.g, s.disk)|);
            Recovers(s, RecoverTrace(s.g, s.disk), steps, t) && Run(s, steps, t)
    ensures t.phase.Running? && t.g == s.g && t.mem == s.mem.(lh := [], dirty := map[])
              && t.disk == Recover(s.g, s.disk)
  {
    var g, d := s.g, s.disk;
    hide Run, Inv, Do, Enabled, WriteRun;
    RecoverStarts(s);
    var u := Do(s, ReadHead);
    var lh := u.mem.lh;
    var b := Installs(u, |lh|);
    EraseWrite(b);
    WriteMore(u, InstallTrace(g, d, lh, |lh|), b);
    t := Do(b, DiskWrite);
    var trace := InstallTrace(g, d, lh, |lh|) + [t.disk];
    assert trace == RecoverTrace(g, d);
    WritesRun(u, trace, t);
    OneStep(s, ReadHead);
    RunThen(s, [ReadHead], u, Writes(|trace|), t);
  }

  lemma RecoverStarts(s: State)
    requires Inv(s) && s.phase.Rebooted?
    ensures Enabled(s, ReadHead) && Inv(Do(s, ReadHead)) && GoodDisk(s.g, s.disk)
    ensures var u := Do(s, ReadHead);
            && u.g == s.g && u.disk == u.base == s.disk && u.phase == Recovering(0)
            && u.mem == s.mem.(lh := HeaderBlocks(s.disk[s.g.start]))
  {
    StepKeeps(s, ReadHead);
  }

  // ---- the code ----

  ghost predicate Matches(log: L.Log, s: State)
    reads log, log.block
  {
    && log.n <= log.block.Length && log.block.Length == LOGSIZE
    && s.g == log.g && s.mem == log.View() && s.disk == log.disk
  }

  datatype Call = Begin | Write(op: nat, b: nat, data: Block) | End(op: nat)

  /** A call of the code, and the steps it is; in a commit the disk goes through the same states in both. ok == false:
      begin_op has to wait, or log_write panics. */
  method Follow(log: L.Log, call: Call, ghost s: State) returns (ok: bool, ghost steps: seq<Step>, ghost t: State)
    requires log.Valid() && Matches(log, s) && Inv(s) && s.phase.Running?
    requires call.Write? ==> call.op in s.active && s.g.Home(call.b)
    requires call.End? ==> call.op in s.active
    modifies log, log.block
    ensures log.Valid() && Matches(log, t) && Run(s, steps, t) && t.phase.Running?
    ensures call.Begin? ==> ok == Enabled(s, BeginOp) && steps == if ok then [BeginOp] else []
    ensures call.Write? ==>
              var st := LogWrite(call.op, call.b, call.data);
              ok == Enabled(s, st) && steps == if ok then [st] else []
    ensures call.End? && s.active != {call.op} ==> ok && steps == [EndOp(call.op)]
    ensures call.End? && s.active == {call.op} ==>
              ok && old(log.trace) <= log.trace
              && Commits(s, call.op, log.trace[|old(log.trace)|..], steps, t)
    ensures !call.End? || s.active != {call.op} ==> log.trace == old(log.trace)
  {
    hide Inv;
    Counted(s);
    match call
    case Begin =>
      ok := log.BeginOp();
      steps, t := [], s;
      if ok {
        steps, t := [BeginOp], Do(s, BeginOp);
        OneStep(s, BeginOp);
      }
    case Write(op, b, data) =>
      ok := log.LogWrite(b, data);
      steps, t := [], s;
      if ok {
        steps, t := [LogWrite(op, b, data)], Do(s, LogWrite(op, b, data));
        OneStep(s, LogWrite(op, b, data));
      }
    case End(op) =>
      ok := true;
      if s.active == {op} {
        t := CommitFollows(s, op);
        steps := [EndOp(op)] + Writes(|CommitTrace(s.g, s.disk, s.mem.lh, s.mem.dirty)|) + [Close];
      } else {
        NotLast(s, op);
        steps, t := [EndOp(op)], Do(s, EndOp(op));
        OneStep(s, EndOp(op));
      }
      LastExactly(s, op);
      hide Run;
      log.EndOp();
  }

  /** recover_from_log at boot. */
  method Boot(log: L.Log, ghost s: State) returns (ghost steps: seq<Step>, ghost t: State)
    requires Matches(log, s) && Inv(s) && s.phase.Rebooted?
    modifies log, log.block
    ensures log.Valid() && Matches(log, t) && Run(s, steps, t) && t.phase.Running? && log.n == 0
    ensures old(log.trace) <= log.trace && Recovers(s, log.trace[|old(log.trace)|..], steps, t)
  {
    hide Inv, Run, InstallK, RecoverTrace;
    RebootedClean(s);
    t := RecoverFollows(s);
    steps := [ReadHead] + Writes(|RecoverTrace(s.g, s.disk)|);
    log.RecoverFromLog();
  }

  lemma RebootedClean(s: State)
    requires Inv(s) && s.phase.Rebooted?
    ensures s.mem.dirty == map[] && s.mem.lh == []
  {}

  lemma Counted(s: State)
    requires Inv(s)
    ensures s.mem.outstanding == |s.active| && (s.phase.Running? ==> !s.mem.committing)
    ensures s.active == {} <==> s.mem.outstanding == 0
  {}

  lemma OneStep(s: State, st: Step)
    requires Enabled(s, st)
    ensures Run(s, [st], Do(s, st))
  {
    assert Run(Do(s, st), [st][1..], Do(s, st));
  }

  lemma LastExactly(s: State, op: nat)
    requires Inv(s) && s.phase.Running? && op in s.active
    ensures s.active == {op} <==> s.mem.outstanding == 1
  {
    assert |s.active - {op}| == |s.active| - 1;
    assert s.active - {op} == {} ==> s.active == {op};
  }

  lemma NotLast(s: State, op: nat)
    requires Inv(s) && s.phase.Running? && op in s.active && s.active != {op}
    ensures Enabled(s, EndOp(op)) && s.mem.outstanding > 1 && Do(s, EndOp(op)).phase.Running?
  {
    assert |s.active - {op}| == |s.active| - 1;
    assert s.active - {op} != {};
  }
}
