/** How much log space the reservation of begin_op guarantees, and when log_write's panic can be reached. */
module LogSpace {
  import opened Bytes
  import opened LogSpec
  import opened LogRuns

  /** The distinct blocks operation op has logged. */
  function OpBlocks(events: seq<Event>, op: nat): set<nat> {
    set i | 0 <= i < |events| && events[i].op == op :: events[i].b
  }

  /** The step keeps its operation to at most `budget` distinct blocks. */
  predicate InBudget(s: State, st: Step, budget: nat) {
    st.LogWrite? ==> |OpBlocks(s.events, st.op) + {st.b}| <= budget
  }

  ghost predicate BudgetRun(s: State, steps: seq<Step>, t: State, budget: nat)
    decreases |steps|
  {
    if steps == [] then s == t else
      && Enabled(s, steps[0]) && InBudget(s, steps[0], budget)
      && BudgetRun(Do(s, steps[0]), steps[1..], t, budget)
  }

  /** What the operations in ops may still log, when each keeps to `budget` blocks. */
  ghost function Slack(events: seq<Event>, ops: set<nat>, budget: nat): int {
    if ops == {} then 0 else
      var op :| op in ops;
      budget - |OpBlocks(events, op)| + Slack(events, ops - {op}, budget)
  }

  lemma {:induction false} SlackSplit(events: seq<Event>, ops: set<nat>, op: nat, budget: nat)
    requires op in ops
    ensures Slack(events, ops, budget) == budget - |OpBlocks(events, op)| + Slack(events, ops - {op}, budget)
  {
    var x :| x in ops && Slack(events, ops, budget) == budget - |OpBlocks(events, x)| + Slack(events, ops - {x},
        budget);
    if x != op {
      SlackSplit(events, ops - {x}, op, budget);
      SlackSplit(events, ops - {op}, x, budget);
      assert ops - {x} - {op} == ops - {op} - {x};
    }
  }

  lemma {:induction false} SlackBounds(events: seq<Event>, ops: set<nat>, budget: nat)
    requires forall op :: op in ops ==> |OpBlocks(events, op)| <= budget
    ensures 0 <= Slack(events, ops, budget) <= budget * |ops|
  {
    if op :| op in ops {
      SlackSplit(events, ops, op, budget);
      SlackBounds(events, ops - {op}, budget);
      OneFewer(budget, |ops|, |ops - {op}|);
    }
  }

  lemma OneFewer(budget: nat, n: nat, m: nat)
    requires n == m + 1
    ensures budget * n == budget * m + budget
  {}

  lemma OpBlocksAppend(events: seq<Event>, e: Event, op: nat)
    ensures OpBlocks(events + [e], op) == if e.op == op then OpBlocks(events, op) + {e.b} else OpBlocks(events, op)
  {
    var more := events + [e];
    forall i | 0 <= i < |events| && events[i].op == op ensures events[i].b in OpBlocks(more, op) {
      assert more[i] == events[i];
    }
    if e.op == op {
      assert more[|events|].b in OpBlocks(more, op);
    }
  }

  lemma {:induction false} SlackAppend(events: seq<Event>, e: Event, ops: set<nat>, budget: nat)
    requires e.op !in ops
    ensures Slack(events + [e], ops, budget) == Slack(events, ops, budget)
  {
    if op :| op in ops {
      SlackSplit(events, ops, op, budget);
      SlackSplit(events + [e], ops, op, budget);
      OpBlocksAppend(events, e, op);
      SlackAppend(events, e, ops - {op}, budget);
    }
  }

  /** The most blocks the log can come to hold: ten are there, logged by operations that have ended, when the last
      of two operations begins, and those two log all they may. */
  function Most(budget: nat): nat {
    MAXOPBLOCKS + 2 * budget
  }

  /** Blocks in the log plus what active operations may still add never exceed that. */
  ghost predicate SpaceInv(s: State, budget: nat) {
    && Inv(s)
    && (s.phase.Running? ==>
          && (forall op :: op in s.active ==>
                OpBlocks(s.events, op) <= Elems(s.mem.lh) && |OpBlocks(s.events, op)| <= budget)
          && |s.mem.lh| + Slack(s.events, s.active, budget) <= Most(budget)
          && (s.active == {} ==> s.mem.lh == []))
  }

  lemma BeginKeepsSpace(s: State, budget: nat)
    requires SpaceInv(s, budget) && Enabled(s, BeginOp) && budget <= MAXOPBLOCKS
    ensures SpaceInv(Do(s, BeginOp), budget)
  {
    BeginOpKeeps(s);
    var t := Do(s, BeginOp);
    assert OpBlocks(s.events, s.nextOp) == {};
    SlackSplit(s.events, t.active, s.nextOp, budget);
    assert t.active - {s.nextOp} == s.active;
    SlackBounds(s.events, s.active, budget);
    assert |t.active| == |s.active| + 1;
    Reserved(|s.mem.lh|, |s.active|, Slack(s.events, s.active, budget), budget);
  }

  /** The reservation lets one operation begin on an empty log, a second with ten blocks in it, a third with none. */
  lemma Reserved(n: nat, active: nat, slack: int, budget: nat)
    requires n + (active + 1) * MAXOPBLOCKS <= LOGSIZE && slack <= budget * active && budget <= MAXOPBLOCKS
    requires active == 0 ==> n == 0
    ensures n + slack + budget <= Most(budget)
  {
    assert active <= 2;
    assert budget * active == if active == 0 then 0 else if active == 1 then budget else 2 * budget;
  }

  lemma LogWriteKeepsSpace(s: State, op: nat, b: nat, v: Block, budget: nat)
    requires SpaceInv(s, budget) && Enabled(s, LogWrite(op, b, v)) && budget <= MAXOPBLOCKS
    requires InBudget(s, LogWrite(op, b, v), budget)
    ensures SpaceInv(Do(s, LogWrite(op, b, v)), budget)
  {
    LogWriteKeeps(s, op, b, v);
    var e := Event(op, s.group, b, v);
    var t := Do(s, LogWrite(op, b, v));
    forall o | o in s.active
      ensures OpBlocks(t.events, o) <= Elems(t.mem.lh) && |OpBlocks(t.events, o)| <= budget
    {
      OpBlocksAppend(s.events, e, o);
    }
    SlackSplit(s.events, s.active, op, budget);
    SlackSplit(t.events, s.active, op, budget);
    SlackAppend(s.events, e, s.active - {op}, budget);
    OpBlocksAppend(s.events, e, op);
    if b !in s.mem.lh {
      assert b !in OpBlocks(s.events, op);
    }
    assert |OpBlocks(s.events, op)| <= |OpBlocks(s.events, op) + {b}| by {
      Subset(OpBlocks(s.events, op), OpBlocks(s.events, op) + {b});
    }
  }

  lemma {:induction false} Subset(a: set<nat>, b: set<nat>)
    requires a <= b
    ensures |a| <= |b|
  {
    assert b == a + (b - a);
  }

  lemma EndKeepsSpace(s: State, op: nat, budget: nat)
    requires SpaceInv(s, budget) && Enabled(s, EndOp(op)) && budget <= MAXOPBLOCKS
    ensures SpaceInv(Do(s, EndOp(op)), budget)
  {
    hide Inv;
    StepKeeps(s, EndOp(op));
    SlackSplit(s.events, s.active, op, budget);
    LastEnds(s, op);
  }

  lemma LastEnds(s: State, op: nat)
    requires Inv(s) && Enabled(s, EndOp(op))
    ensures Do(s, EndOp(op)).active == {} ==> !Do(s, EndOp(op)).phase.Running?
  {
    assert |s.active - {op}| == |s.active| - 1;
  }

  /** Recovery ends with an empty log and no operation; the other steps touch neither. */
  lemma OtherKeepsSpace(s: State, st: Step, budget: nat)
    requires SpaceInv(s, budget) && Enabled(s, st) && !st.BeginOp? && !st.LogWrite? && !st.EndOp?
    ensures SpaceInv(Do(s, st), budget)
  {
    StepKeeps(s, st);
  }

  lemma StepKeepsSpace(s: State, st: Step, budget: nat)
    requires SpaceInv(s, budget) && Enabled(s, st) && InBudget(s, st, budget) && budget <= MAXOPBLOCKS
    ensures SpaceInv(Do(s, st), budget)
  {
    hide Inv;
    match st
    case BeginOp => BeginKeepsSpace(s, budget);
    case LogWrite(op, b, v) => LogWriteKeepsSpace(s, op, b, v, budget);
    case EndOp(op) => EndKeepsSpace(s, op, budget);
    case _ => OtherKeepsSpace(s, st, budget);
  }

  lemma {:induction false} RunKeepsSpace(s: State, steps: seq<Step>, t: State, budget: nat)
    requires SpaceInv(s, budget) && BudgetRun(s, steps, t, budget) && budget <= MAXOPBLOCKS
    ensures SpaceInv(t, budget)
    decreases |steps|
  {
    if steps != [] {
      StepKeepsSpace(s, steps[0], budget);
      RunKeepsSpace(Do(s, steps[0]), steps[1..], t, budget);
    }
  }

  /** If every operation keeps to its MAXOPBLOCKS, the log never outgrows LOGSIZE, whatever interleaves. A
      log_write of a block its operation has not logged before always finds lh.n below LOGSIZE. */
  lemma LogFits(s0: State, steps: seq<Step>, s: State, op: nat, b: nat)
    requires Init(s0) && BudgetRun(s0, steps, s, MAXOPBLOCKS)
    ensures |s.mem.lh| <= LOGSIZE
    ensures op in s.active && |OpBlocks(s.events, op) + {b}| <= MAXOPBLOCKS && b !in OpBlocks(s.events, op) ==>
              |s.mem.lh| < LOGSIZE
    ensures op in s.active && |OpBlocks(s.events, op)| < MAXOPBLOCKS ==> |s.mem.lh| < LOGSIZE
  {
    InitInv(s0);
    RunKeepsSpace(s0, steps, s, MAXOPBLOCKS);
    if op in s.active {
      RoomLeft(s, op, MAXOPBLOCKS);
    }
  }

  /** With an operation active: at most Most(budget) blocks, and fewer by what it may still log. */
  lemma RoomLeft(s: State, op: nat, budget: nat)
    requires SpaceInv(s, budget) && op in s.active
    ensures s.phase.Running? && |s.mem.lh| <= Most(budget) - (budget - |OpBlocks(s.events, op)|)
    ensures |OpBlocks(s.events, op)| <= budget && s.mem.outstanding > 0
  {
    assert s.phase.Running?;
    SlackSplit(s.events, s.active, op, budget);
    SlackBounds(s.events, s.active - {op}, budget);
    assert |s.active| > 0;
  }

  // ---- exactly when the panic is unreachable ----

  /** In every run within budget, no operation panics on a block it has not logged before. */
  ghost predicate NewBlocksSafe(g: Geometry, budget: nat) {
    forall s0: State, steps: seq<Step>, s: State, op: nat, b: nat ::
      Init(s0) && s0.g == g && BudgetRun(s0, steps, s, budget) && op in s.active && g.Home(b)
      && b !in OpBlocks(s.events, op) && |OpBlocks(s.events, op) + {b}| <= budget
      ==> !LogWritePanics(g, s.mem)
  }

  /** In every run within budget, no operation panics on any block, logged before or not. */
  ghost predicate AllBlocksSafe(g: Geometry, budget: nat) {
    forall s0: State, steps: seq<Step>, s: State, op: nat, b: nat ::
      Init(s0) && s0.g == g && BudgetRun(s0, steps, s, budget) && op in s.active && g.Home(b)
      && |OpBlocks(s.events, op) + {b}| <= budget
      ==> !LogWritePanics(g, s.mem)
  }

  /** log_write panics from this many blocks on. */
  function Limit(g: Geometry): nat
    requires g.Valid()
  {
    if g.size - 1 < LOGSIZE then g.size - 1 else LOGSIZE
  }

  /** No operation panics on a block new to it, in any run within budget, exactly when the log holds what such runs
      can put there: with all ten blocks to each operation, exactly when log.size exceeds LOGSIZE. mkfs makes the
      two equal, which is safe up to nine. */
  lemma NewBlocksSafeIff(g: Geometry, budget: nat)
    requires g.Valid() && g.start + g.size + LOGSIZE <= g.total && budget <= MAXOPBLOCKS
    ensures NewBlocksSafe(g, budget) <==> budget == 0 || Most(budget) <= Limit(g)
    ensures NewBlocksSafe(g, MAXOPBLOCKS) <==> g.size > LOGSIZE
  {
    NewBlocksSafeAt(g, budget);
    NewBlocksSafeAt(g, MAXOPBLOCKS);
  }

  lemma NewBlocksSafeAt(g: Geometry, budget: nat)
    requires g.Valid() && g.start + g.size + LOGSIZE <= g.total && budget <= MAXOPBLOCKS
    ensures NewBlocksSafe(g, budget) <==> budget == 0 || Most(budget) <= Limit(g)
  {
    if budget == 0 {
      NothingFits(g);
    } else if Most(budget) <= Limit(g) {
      NewBlocksSafeIf(g, budget);
    } else {
      NewBlocksUnsafe(g, budget);
    }
  }

  /** No operation panics on any block exactly when there is a block to spare. Otherwise an operation that logs a
      block again can panic, although the log would have absorbed the write: with a log of LOGSIZE blocks or
      more, exactly when operations may use all ten. */
  lemma AllBlocksSafeIff(g: Geometry, budget: nat)
    requires g.Valid() && g.start + g.size + LOGSIZE <= g.total && budget <= MAXOPBLOCKS
    ensures AllBlocksSafe(g, budget) <==> budget == 0 || Most(budget) < Limit(g)
    ensures g.size >= LOGSIZE ==> (AllBlocksSafe(g, budget) <==> budget < MAXOPBLOCKS)
  {
    if budget == 0 {
      NothingFits(g);
    } else if Most(budget) < Limit(g) {
      AllBlocksSafeIf(g, budget);
    } else {
      RelogPanics(g, budget);
    }
  }

  lemma NothingFits(g: Geometry)
    ensures NewBlocksSafe(g, 0) && AllBlocksSafe(g, 0)
  {
    hide BudgetRun, OpBlocks;
    forall blocks: set<nat>, b: nat ensures |blocks + {b}| > 0 {
      assert b in blocks + {b};
    }
  }

  lemma NewBlocksSafeIf(g: Geometry, budget: nat)
    requires g.Valid() && Most(budget) <= Limit(g) && budget <= MAXOPBLOCKS
    ensures NewBlocksSafe(g, budget)
  {
    hide BudgetRun, OpBlocks, SpaceInv, Init;
    forall s0: State, steps: seq<Step>, s: State, op: nat, b: nat |
      Init(s0) && s0.g == g && BudgetRun(s0, steps, s, budget) && op in s.active && g.Home(b)
      && b !in OpBlocks(s.events, op) && |OpBlocks(s.events, op) + {b}| <= budget
      ensures !LogWritePanics(g, s.mem)
    {
      SpaceStarts(s0, budget);
      RunKeepsSpace(s0, steps, s, budget);
      RoomLeft(s, op, budget);
    }
  }

  lemma AllBlocksSafeIf(g: Geometry, budget: nat)
    requires g.Valid() && Most(budget) < Limit(g) && budget <= MAXOPBLOCKS
    ensures AllBlocksSafe(g, budget)
  {
    hide BudgetRun, OpBlocks, SpaceInv, Init;
    forall s0: State, steps: seq<Step>, s: State, op: nat, b: nat |
      Init(s0) && s0.g == g && BudgetRun(s0, steps, s, budget) && op in s.active && g.Home(b)
      && |OpBlocks(s.events, op) + {b}| <= budget
      ensures !LogWritePanics(g, s.mem)
    {
      SpaceStarts(s0, budget);
      RunKeepsSpace(s0, steps, s, budget);
      RoomLeft(s, op, budget);
    }
  }

  lemma SpaceStarts(s0: State, budget: nat)
    requires Init(s0)
    ensures SpaceInv(s0, budget)
  {
    InitInv(s0);
  }

  // ---- a run that fills the log ----

  lemma {:induction false} RunAppend(s: State, steps: seq<Step>, m: State, st: Step, budget: nat)
    requires BudgetRun(s, steps, m, budget) && Enabled(m, st) && InBudget(m, st, budget)
    ensures BudgetRun(s, steps + [st], Do(m, st), budget)
    decreases |steps|
  {
    if steps == [] {
      assert BudgetRun(Do(s, st), [], Do(m, st), budget);
    } else {
      RunAppend(Do(s, steps[0]), steps[1..], m, st, budget);
      assert (steps + [st])[1..] == steps[1..] + [st];
    }
  }

  predicate Within(x: nat, a: nat, n: nat) {
    a <= x < a + n
  }

  function Interval(a: nat, n: nat): set<nat> {
    set x: nat | a <= x < a + n && Within(x, a, n)
  }

  lemma {:induction false} IntervalSize(a: nat, n: nat)
    ensures |Interval(a, n)| == n
  {
    if n == 0 {
      assert Interval(a, n) == {};
    } else {
      IntervalSize(a, n - 1);
      assert Interval(a, n) == Interval(a, n - 1) + {a + n - 1};
    }
  }

  lemma RoomIn(blocks: set<nat>, a: nat, n: nat, b: nat)
    requires blocks <= Interval(a, n) && a <= b < a + n
    ensures |blocks + {b}| <= n
  {
    IntervalSize(a, n);
    assert Within(b, a, n);
    Subset(blocks + {b}, Interval(a, n));
  }

  /** A freshly made disk, at boot. */
  ghost function Fresh(g: Geometry): (s: State)
    requires g.Valid()
    ensures Init(s) && s.g == g
  {
    var d: Disk := seq(g.total, _ => ZeroBlock());
    ZeroWord(0);
    EmptyHeader(g, d);
    State(g, Mem([], map[], 0, false), d, Rebooted, {}, 0, 0, [], [], Recover(g, d), d)
  }

  /** The first block after the log. */
  function Free(g: Geometry): nat {
    g.start + g.size
  }

  ghost predicate Holding(g: Geometry, s: State, n: nat) {
    && s.g == g && s.phase.Running? && s.mem.outstanding == |s.active| && !s.mem.committing
    && |s.mem.lh| == n && (forall b :: b in s.mem.lh ==> b < Free(g) + n)
    && (forall i :: 0 <= i < |s.events| ==> s.events[i].op < s.nextOp)
  }

  /** Operation 0 has begun, and n <= 10 others have come and gone, each leaving a block. */
  ghost predicate Low(g: Geometry, s: State, n: nat) {
    Holding(g, s, n) && s.active == {0} && s.nextOp == n + 1 && OpBlocks(s.events, 0) == {}
  }

  /** Operations 0 and 11 are active: first 11 logs its blocks, then 0. */
  ghost predicate High(g: Geometry, s: State, n: nat, budget: nat) {
    && Holding(g, s, n) && s.active == {0, 11} && s.nextOp == 12 && n >= MAXOPBLOCKS
    && OpBlocks(s.events, 11) <= Interval(Free(g) + 10, budget)
    && OpBlocks(s.events, 0) <= Interval(Free(g) + 10 + budget, budget)
    && (n <= 10 + budget ==> OpBlocks(s.events, 0) == {})
  }

  lemma Begin1(g: Geometry, budget: nat) returns (steps: seq<Step>, s: State)
    requires g.Valid()
    ensures BudgetRun(Fresh(g), steps, s, budget) && Low(g, s, 0)
  {
    var s0 := Fresh(g);
    ZeroWord(0);
    steps, s := [], s0;
    RunAppend(s0, steps, s, ReadHead, budget);
    steps, s := steps + [ReadHead], Do(s, ReadHead);
    RunAppend(s0, steps, s, DiskWrite, budget);
    steps, s := steps + [DiskWrite], Do(s, DiskWrite);
    RunAppend(s0, steps, s, BeginOp, budget);
    steps, s := steps + [BeginOp], Do(s, BeginOp);
    assert s.active == {0};
  }

  lemma {:induction false} FillLow(g: Geometry, budget: nat, n: nat) returns (steps: seq<Step>, s: State)
    requires g.Valid() && g.start + g.size + LOGSIZE <= g.total && 0 < budget && n <= MAXOPBLOCKS && n <= Limit(g)
    ensures BudgetRun(Fresh(g), steps, s, budget) && Low(g, s, n)
  {
    hide BudgetRun, Fresh, OpBlocks, Low, Do, Enabled, InBudget;
    if n == 0 {
      steps, s := Begin1(g, budget);
    } else {
      steps, s := FillLow(g, budget, n - 1);
      var m := s;
      var write := LogWrite(n, Free(g) + n - 1, ZeroBlock());
      ComesAndGoes(g, m, budget, n - 1);
      RunAppend(Fresh(g), steps, m, BeginOp, budget);
      RunAppend(Fresh(g), steps + [BeginOp], Do(m, BeginOp), write, budget);
      RunAppend(Fresh(g), steps + [BeginOp] + [write], Do(Do(m, BeginOp), write), EndOp(n), budget);
      steps, s := steps + [BeginOp] + [write] + [EndOp(n)], Do(Do(Do(m, BeginOp), write), EndOp(n));
    }
  }

  /** One more operation logs one new block and ends. */
  lemma ComesAndGoes(g: Geometry, m: State, budget: nat, n: nat)
    requires g.Valid() && g.start + g.size + LOGSIZE <= g.total && 0 < budget && n < MAXOPBLOCKS && n < Limit(g)
    requires Low(g, m, n)
    ensures Enabled(m, BeginOp) && InBudget(m, BeginOp, budget)
    ensures var a, write := Do(m, BeginOp), LogWrite(n + 1, Free(g) + n, ZeroBlock());
            && Enabled(a, write) && InBudget(a, write, budget)
            && Enabled(Do(a, write), EndOp(n + 1)) && InBudget(Do(a, write), EndOp(n + 1), budget)
            && Low(g, Do(Do(a, write), EndOp(n + 1)), n + 1)
  {
    var a, write := Do(m, BeginOp), LogWrite(n + 1, Free(g) + n, ZeroBlock());
    assert a.active == {0, n + 1};
    assert OpBlocks(a.events, n + 1) == {};
    assert OpBlocks(a.events, n + 1) + {Free(g) + n} == {Free(g) + n};
    var b := Do(a, write);
    OpBlocksAppend(a.events, Event(n + 1, a.group, Free(g) + n, ZeroBlock()), 0);
    var c := Do(b, EndOp(n + 1));
    assert c.active == {0};
    assert Free(g) + n !in a.mem.lh;
  }

  lemma {:induction false} FillHigh(g: Geometry, budget: nat, n: nat) returns (steps: seq<Step>, s: State)
    requires g.Valid() && g.start + g.size + LOGSIZE <= g.total && 0 < budget <= MAXOPBLOCKS
    requires MAXOPBLOCKS <= n <= Most(budget) && n <= Limit(g)
    ensures BudgetRun(Fresh(g), steps, s, budget) && High(g, s, n, budget)
  {
    hide BudgetRun, Fresh, OpBlocks, Low, High, Do, Enabled, InBudget;
    if n == MAXOPBLOCKS {
      var m;
      steps, m := FillLow(g, budget, n);
      SecondBegins(g, m, budget);
      RunAppend(Fresh(g), steps, m, BeginOp, budget);
      steps, s := steps + [BeginOp], Do(m, BeginOp);
    } else {
      var m;
      steps, m := FillHigh(g, budget, n - 1);
      var op := if n - 1 < 10 + budget then 11 else 0;
      var write := LogWrite(op, Free(g) + n - 1, ZeroBlock());
      OneMore(g, m, budget, n - 1);
      RunAppend(Fresh(g), steps, m, write, budget);
      steps, s := steps + [write], Do(m, write);
    }
  }

  lemma SecondBegins(g: Geometry, m: State, budget: nat)
    requires Low(g, m, MAXOPBLOCKS) && g.Valid()
    ensures Enabled(m, BeginOp) && InBudget(m, BeginOp, budget) && High(g, Do(m, BeginOp), MAXOPBLOCKS, budget)
  {
    assert OpBlocks(m.events, 11) == {};
    assert Do(m, BeginOp).active == {0, 11};
  }

  lemma OneMore(g: Geometry, m: State, budget: nat, n: nat)
    requires g.Valid() && g.start + g.size + LOGSIZE <= g.total && 0 < budget <= MAXOPBLOCKS
    requires n < Most(budget) && n < Limit(g) && High(g, m, n, budget)
    ensures var write := LogWrite(if n < 10 + budget then 11 else 0, Free(g) + n, ZeroBlock());
            Enabled(m, write) && InBudget(m, write, budget) && High(g, Do(m, write), n + 1, budget)
  {
    hide Interval, OpBlocks;
    var op, b := if n < 10 + budget then 11 else 0, Free(g) + n;
    RoomHigh(g, m, budget, n);
    OpBlocksAppend(m.events, Event(op, m.group, b, ZeroBlock()), 11);
    OpBlocksAppend(m.events, Event(op, m.group, b, ZeroBlock()), 0);
    assert b !in m.mem.lh;
    InInterval(OpBlocks(m.events, op), if op == 11 then Free(g) + 10 else Free(g) + 10 + budget, budget, b);
    var t := Do(m, LogWrite(op, b, ZeroBlock()));
    assert Holding(g, t, n + 1);
    assert t.active == {0, 11};
    assert n + 1 <= 10 + budget ==> OpBlocks(t.events, 0) == {};
  }

  lemma InInterval(blocks: set<nat>, a: nat, n: nat, b: nat)
    requires blocks <= Interval(a, n) && a <= b < a + n
    ensures blocks + {b} <= Interval(a, n)
  {
    assert Within(b, a, n);
  }

  lemma RoomHigh(g: Geometry, m: State, budget: nat, n: nat)
    requires High(g, m, n, budget) && n < Most(budget)
    ensures var op := if n < 10 + budget then 11 else 0; |OpBlocks(m.events, op) + {Free(g) + n}| <= budget
  {
    if n < 10 + budget {
      RoomIn(OpBlocks(m.events, 11), Free(g) + 10, budget, Free(g) + n);
    } else {
      RoomIn(OpBlocks(m.events, 0), Free(g) + 10 + budget, budget, Free(g) + n);
    }
  }

  /** A run within budget to a log of n blocks, with operation 0 active; unless it is at the most, operation 0 may
      still log a new one. */
  lemma Fill(g: Geometry, budget: nat, n: nat) returns (steps: seq<Step>, s: State)
    requires g.Valid() && g.start + g.size + LOGSIZE <= g.total && 0 < budget <= MAXOPBLOCKS
    requires n <= Most(budget) && n <= Limit(g)
    ensures BudgetRun(Fresh(g), steps, s, budget) && 0 in s.active && s.g == g && s.phase.Running? && |s.mem.lh| == n
    ensures Free(g) + n !in s.mem.lh && |OpBlocks(s.events, 0)| <= budget
    ensures n < Most(budget) ==> |OpBlocks(s.events, 0) + {Free(g) + n}| <= budget
  {
    hide BudgetRun, Fresh, OpBlocks, Interval;
    if n <= MAXOPBLOCKS {
      steps, s := FillLow(g, budget, n);
      assert OpBlocks(s.events, 0) + {Free(g) + n} == {Free(g) + n};
    } else {
      steps, s := FillHigh(g, budget, n);
      IntervalSize(Free(g) + 10 + budget, budget);
      Subset(OpBlocks(s.events, 0), Interval(Free(g) + 10 + budget, budget));
      if n < 10 + budget {
        assert OpBlocks(s.events, 0) + {Free(g) + n} == {Free(g) + n};
      } else if n < Most(budget) {
        RoomHigh(g, s, budget, n);
      }
    }
  }

  lemma NewBlocksUnsafe(g: Geometry, budget: nat)
    requires g.Valid() && g.start + g.size + LOGSIZE <= g.total && 0 < budget <= MAXOPBLOCKS && Limit(g) < Most(budget)
    ensures !NewBlocksSafe(g, budget)
  {
    hide BudgetRun, OpBlocks, Fresh, Init, SpaceInv;
    var steps, s := Fill(g, budget, Limit(g));
    SpaceStarts(Fresh(g), budget);
    RunKeepsSpace(Fresh(g), steps, s, budget);
    NotLogged(s, 0, Free(g) + Limit(g), budget);
    assert g.Home(Free(g) + Limit(g)) && LogWritePanics(g, s.mem);
  }

  lemma NotLogged(s: State, op: nat, b: nat, budget: nat)
    requires SpaceInv(s, budget) && s.phase.Running? && op in s.active && b !in s.mem.lh
    ensures b !in OpBlocks(s.events, op)
  {}

  lemma RelogPanics(g: Geometry, budget: nat)
    requires g.Valid() && g.start + g.size + LOGSIZE <= g.total && 0 < budget <= MAXOPBLOCKS && Limit(g) <= Most(budget)
    ensures !AllBlocksSafe(g, budget)
  {
    hide BudgetRun, OpBlocks, Fresh, Init, SpaceInv;
    var steps, s := Fill(g, budget, Limit(g));
    SpaceStarts(Fresh(g), budget);
    RunKeepsSpace(Fresh(g), steps, s, budget);
    var b := Again(s, budget);
    assert LogWritePanics(g, s.mem);
  }

  lemma LoggedHome(s: State)
    requires Inv(s)
    ensures s.g.Valid() && forall b :: b in s.mem.lh ==> s.g.Home(b)
  {}

  /** A block operation 0 may log: one it has logged, or its first. */
  lemma Again(s: State, budget: nat) returns (b: nat)
    requires SpaceInv(s, budget) && s.phase.Running? && 0 in s.active && 0 < budget && Free(s.g) < s.g.total
    requires |OpBlocks(s.events, 0)| <= budget
    ensures s.g.Home(b) && |OpBlocks(s.events, 0) + {b}| <= budget
  {
    hide Inv;
    LoggedHome(s);
    if OpBlocks(s.events, 0) == {} {
      b := Free(s.g);
      assert OpBlocks(s.events, 0) + {b} == {b};
    } else {
      b :| b in OpBlocks(s.events, 0);
      assert OpBlocks(s.events, 0) + {b} == OpBlocks(s.events, 0);
      assert b in s.mem.lh;
    }
  }
}
