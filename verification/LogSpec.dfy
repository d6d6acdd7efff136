/** The redo log of log.c. Disk layout and the values the disk takes, one block write at a time. */
module LogSpec {
  import opened Bytes

  const MAXOPBLOCKS: nat := 10
  const LOGSIZE: nat := 30 // MAXOPBLOCKS * 3

  /** log.start and log.size as the superblock gives them, and the number of blocks of the device. */
  datatype Geometry = Geometry(start: nat, size: nat, total: nat) {
    predicate Valid() {
      1 <= size && start + size <= total <= W32
    }

    /** A block outside the log area: the home location of file-system data. */
    predicate Home(b: int) {
      0 <= b < total && !(start <= b < start + size)
    }
  }

  function Elems(bl: seq<nat>): set<nat> {
    set b | b in bl
  }

  lemma NoElems()
    ensures Elems([]) == {}
  {}

  predicate Distinct(bl: seq<nat>) {
    forall i, j :: 0 <= i < j < |bl| ==> bl[i] != bl[j]
  }

  predicate GoodBlocks(g: Geometry, bl: seq<nat>) {
    && |bl| <= LOGSIZE && |bl| < g.size
    && Distinct(bl)
    && forall i :: 0 <= i < |bl| ==> g.Home(bl[i])
  }

  /** The two disks agree on every block outside the log area. */
  ghost predicate SameHome(g: Geometry, a: Disk, b: Disk)
    requires |a| == |b| == g.total
  {
    forall i :: g.Home(i) ==> a[i] == b[i]
  }

  // ---- the header block: word 0 is n, words 1..n the block numbers ----

  function HeaderN(b: Block): nat {
    Word(b, 0)
  }

  function HeaderBlocks(b: Block): (r: seq<nat>)
    requires HeaderN(b) <= LOGSIZE
  {
    seq(HeaderN(b), i requires 0 <= i < LOGSIZE => Word(b, i + 1))
  }

  /** Header block b after write_head stored n and the first k block numbers of bl; later words are stale. */
  function PutHeader(b: Block, bl: seq<nat>, k: nat): (r: Block)
    requires k <= |bl| <= LOGSIZE && forall i :: 0 <= i < |bl| ==> bl[i] < W32
  {
    if k == 0 then SetWord(b, 0, |bl|) else SetWord(PutHeader(b, bl, k - 1), k, bl[k - 1])
  }

  lemma {:induction false} PutHeaderWords(b: Block, bl: seq<nat>, k: nat)
    requires k <= |bl| <= LOGSIZE && forall i :: 0 <= i < |bl| ==> bl[i] < W32
    ensures HeaderN(PutHeader(b, bl, k)) == |bl|
    ensures forall i :: 0 <= i < k ==> Word(PutHeader(b, bl, k), i + 1) == bl[i]
  {
    if k == 0 {
      SetWordGet(b, 0, |bl|, 0);
    } else {
      PutHeaderWords(b, bl, k - 1);
      var p := PutHeader(b, bl, k - 1);
      SetWordGet(p, k, bl[k - 1], 0);
      forall i | 0 <= i < k ensures Word(PutHeader(b, bl, k), i + 1) == bl[i] {
        SetWordGet(p, k, bl[k - 1], i + 1);
      }
    }
  }

  /** write_head and read_head are inverse on every list the log can hold. */
  lemma HeaderRoundTrip(b: Block, bl: seq<nat>)
    requires |bl| <= LOGSIZE && forall i :: 0 <= i < |bl| ==> bl[i] < W32
    ensures HeaderN(PutHeader(b, bl, |bl|)) == |bl|
    ensures HeaderBlocks(PutHeader(b, bl, |bl|)) == bl
  {
    PutHeaderWords(b, bl, |bl|);
  }

  predicate GoodDisk(g: Geometry, d: Disk) {
    && g.Valid() && |d| == g.total
    && HeaderN(d[g.start]) <= LOGSIZE
    && GoodBlocks(g, HeaderBlocks(d[g.start]))
  }

  // ---- the disk after the first k writes of each loop ----

  /** install_trans: log block i+1 has been copied home for every i < k. */
  function InstallK(g: Geometry, d: Disk, bl: seq<nat>, k: nat): (r: Disk)
    requires g.Valid() && |d| == g.total && GoodBlocks(g, bl) && k <= |bl|
    ensures |r| == g.total
  {
    if k == 0 then d else
      var p := InstallK(g, d, bl, k - 1);
      p[bl[k - 1] := p[g.start + k]]
  }

  lemma {:induction false} InstallHits(g: Geometry, d: Disk, bl: seq<nat>, k: nat, i: nat)
    requires g.Valid() && |d| == g.total && GoodBlocks(g, bl) && i < k <= |bl|
    ensures InstallK(g, d, bl, k)[bl[i]] == d[g.start + 1 + i]
  {
    if i < k - 1 {
      InstallHits(g, d, bl, k - 1, i);
    } else {
      InstallMisses(g, d, bl, k - 1, g.start + k);
    }
  }

  lemma {:induction false} InstallMisses(g: Geometry, d: Disk, bl: seq<nat>, k: nat, b: nat)
    requires g.Valid() && |d| == g.total && GoodBlocks(g, bl) && k <= |bl|
    requires b < g.total && b !in bl[..k]
    ensures InstallK(g, d, bl, k)[b] == d[b]
  {
    if k > 0 {
      assert bl[k - 1] in bl[..k];
      assert forall x :: x in bl[..k - 1] ==> x in bl[..k];
      InstallMisses(g, d, bl, k - 1, b);
    }
  }

  /** write_log: the cached copy of bl[i] is in log block i+1 for every i < k. */
  function WriteLogK(g: Geometry, d: Disk, bl: seq<nat>, dirty: map<nat, Block>, k: nat): (r: Disk)
    requires g.Valid() && |d| == g.total && GoodBlocks(g, bl) && k <= |bl|
    requires dirty.Keys == Elems(bl)
    ensures |r| == g.total
  {
    if k == 0 then d else
      var p := WriteLogK(g, d, bl, dirty, k - 1);
      p[g.start + k := dirty[bl[k - 1]]]
  }

  lemma WriteLogNone(g: Geometry, d: Disk, bl: seq<nat>, dirty: map<nat, Block>)
    requires g.Valid() && |d| == g.total && GoodBlocks(g, bl) && dirty.Keys == Elems(bl)
    ensures WriteLogK(g, d, bl, dirty, 0) == d && WriteLogTrace(g, d, bl, dirty, 0) == []
  {}

  /** A log slot is inside the disk and no logged block; a logged block is. */
  lemma SlotIsOther(g: Geometry, bl: seq<nat>, dirty: map<nat, Block>, k: nat)
    requires g.Valid() && GoodBlocks(g, bl) && dirty.Keys == Elems(bl) && k < |bl|
    ensures g.start + k + 1 < g.total && g.start + k + 1 !in dirty && bl[k] in dirty && bl[k] < g.total
  {
    assert bl[k] in Elems(bl);
  }

  lemma WriteLogNext(g: Geometry, d: Disk, bl: seq<nat>, dirty: map<nat, Block>, k: nat)
    requires g.Valid() && |d| == g.total && GoodBlocks(g, bl) && dirty.Keys == Elems(bl) && k < |bl|
    ensures bl[k] in dirty
    ensures WriteLogK(g, d, bl, dirty, k + 1) == WriteLogK(g, d, bl, dirty, k)[g.start + k + 1 := dirty[bl[k]]]
  {
    assert bl[k] in Elems(bl);
    hide GoodBlocks, Elems, WriteLogTrace;
  }

  lemma WriteLogTraceNext(g: Geometry, d: Disk, bl: seq<nat>, dirty: map<nat, Block>, k: nat)
    requires g.Valid() && |d| == g.total && GoodBlocks(g, bl) && dirty.Keys == Elems(bl) && k < |bl|
    ensures WriteLogTrace(g, d, bl, dirty, k + 1)
            == WriteLogTrace(g, d, bl, dirty, k) + [WriteLogK(g, d, bl, dirty, k + 1)]
  {
    hide GoodBlocks, Elems, WriteLogK;
  }

  lemma {:induction false} WriteLogAt(g: Geometry, d: Disk, bl: seq<nat>, dirty: map<nat, Block>, k: nat, b: nat)
    requires g.Valid() && |d| == g.total && GoodBlocks(g, bl) && k <= |bl| && b < g.total
    requires dirty.Keys == Elems(bl)
    ensures WriteLogK(g, d, bl, dirty, k)[b] == if g.start < b <= g.start + k then dirty[bl[b - g.start - 1]] else d[b]
  {
    if k > 0 {
      WriteLogAt(g, d, bl, dirty, k - 1, b);
    }
  }

  function HeadWritten(g: Geometry, d: Disk, bl: seq<nat>): (r: Disk)
    requires g.Valid() && |d| == g.total && GoodBlocks(g, bl)
    ensures |r| == g.total
  {
    d[g.start := PutHeader(d[g.start], bl, |bl|)]
  }

  /** recover_from_log: install what the header lists, then erase the header. */
  function Recover(g: Geometry, d: Disk): (r: Disk)
    requires GoodDisk(g, d)
    ensures |r| == g.total
  {
    var bl := HeaderBlocks(d[g.start]);
    HeadWritten(g, InstallK(g, d, bl, |bl|), [])
  }

  function InstallTrace(g: Geometry, d: Disk, bl: seq<nat>, k: nat): (r: seq<Disk>)
    requires g.Valid() && |d| == g.total && GoodBlocks(g, bl) && k <= |bl|
    ensures |r| == k
  {
    if k == 0 then [] else InstallTrace(g, d, bl, k - 1) + [InstallK(g, d, bl, k)]
  }

  function WriteLogTrace(g: Geometry, d: Disk, bl: seq<nat>, dirty: map<nat, Block>, k: nat): (r: seq<Disk>)
    requires g.Valid() && |d| == g.total && GoodBlocks(g, bl) && k <= |bl|
    requires dirty.Keys == Elems(bl)
    ensures |r| == k
  {
    if k == 0 then [] else WriteLogTrace(g, d, bl, dirty, k - 1) + [WriteLogK(g, d, bl, dirty, k)]
  }

  lemma InstallNone(g: Geometry, d: Disk, bl: seq<nat>)
    requires g.Valid() && |d| == g.total && GoodBlocks(g, bl)
    ensures InstallK(g, d, bl, 0) == d && InstallTrace(g, d, bl, 0) == []
  {}

  /** One turn of install_trans: the slot is read from the disk, and the home block's buffer is written. */
  lemma InstallNext(g: Geometry, d: Disk, bl: seq<nat>, dirty: map<nat, Block>, k: nat)
    requires g.Valid() && |d| == g.total && GoodBlocks(g, bl) && k < |bl| && dirty.Keys <= Elems(bl[k..])
    ensures g.start + k + 1 < g.total && g.start + k + 1 !in dirty && bl[k] < g.total
    ensures (dirty - {bl[k]}).Keys <= Elems(bl[k + 1..])
    ensures var p := InstallK(g, d, bl, k);
            && InstallK(g, d, bl, k + 1) == p[bl[k] := p[g.start + k + 1]]
            && InstallTrace(g, d, bl, k + 1) == InstallTrace(g, d, bl, k) + [InstallK(g, d, bl, k + 1)]
  {
    assert g.Home(bl[k]);
    assert bl[k..] == [bl[k]] + bl[k + 1..];
  }

  /** Every value the disk takes after a block write of recover_from_log. */
  function RecoverTrace(g: Geometry, d: Disk): (r: seq<Disk>)
    requires GoodDisk(g, d)
  {
    var bl := HeaderBlocks(d[g.start]);
    InstallTrace(g, d, bl, |bl|) + [Recover(g, d)]
  }

  /** The disk when commit returns. */
  function CommitResult(g: Geometry, d: Disk, bl: seq<nat>, dirty: map<nat, Block>): (r: Disk)
    requires g.Valid() && |d| == g.total && GoodBlocks(g, bl)
    requires dirty.Keys == Elems(bl)
    ensures |r| == g.total
  {
    if bl == [] then d else
      var w := HeadWritten(g, WriteLogK(g, d, bl, dirty, |bl|), bl);
      HeadWritten(g, InstallK(g, w, bl, |bl|), [])
  }

  /** Every value the disk takes after a block write of commit. */
  function CommitTrace(g: Geometry, d: Disk, bl: seq<nat>, dirty: map<nat, Block>): (r: seq<Disk>)
    requires g.Valid() && |d| == g.total && GoodBlocks(g, bl)
    requires dirty.Keys == Elems(bl)
  {
    var n := |bl|;
    if n == 0 then [] else
      var w := HeadWritten(g, WriteLogK(g, d, bl, dirty, n), bl);
      WriteLogTrace(g, d, bl, dirty, n) + [w] + InstallTrace(g, w, bl, n) + [HeadWritten(g, InstallK(g, w, bl, n), [])]
  }

  lemma {:induction false} InstallTraceAt(g: Geometry, d: Disk, bl: seq<nat>, k: nat, i: nat)
    requires g.Valid() && |d| == g.total && GoodBlocks(g, bl) && i < k <= |bl|
    ensures InstallTrace(g, d, bl, k)[i] == InstallK(g, d, bl, i + 1)
  {
    if i < k - 1 {
      InstallTraceAt(g, d, bl, k - 1, i);
    }
  }

  lemma {:induction false} WriteLogTraceAt(g: Geometry, d: Disk, bl: seq<nat>, dirty: map<nat, Block>, k: nat, i: nat)
    requires g.Valid() && |d| == g.total && GoodBlocks(g, bl) && i < k <= |bl|
    requires dirty.Keys == Elems(bl)
    ensures WriteLogTrace(g, d, bl, dirty, k)[i] == WriteLogK(g, d, bl, dirty, i + 1)
  {
    if i < k - 1 {
      WriteLogTraceAt(g, d, bl, dirty, k - 1, i);
    }
  }

  // ---- the in-memory side: begin_op, log_write, end_op ----

  /** The volatile state: lh.block[..lh.n], the pinned buffers, and the two counters of struct log. */
  datatype Mem = Mem(lh: seq<nat>, dirty: map<nat, Block>, outstanding: nat, committing: bool)

  /** The test of one turn of begin_op's loop; when it fails the caller sleeps. */
  predicate MayBegin(m: Mem) {
    !m.committing && |m.lh| + (m.outstanding + 1) * MAXOPBLOCKS <= LOGSIZE
  }

  /** log_write's two panics. */
  predicate LogWritePanics(g: Geometry, m: Mem) {
    |m.lh| >= LOGSIZE || |m.lh| >= g.size - 1 || m.outstanding < 1
  }

  function Logged(m: Mem, b: nat, v: Block): Mem {
    m.(lh := if b in m.lh then m.lh else m.lh + [b], dirty := m.dirty[b := v])
  }

  /** end_op up to the release of log.lock; committing says whether this caller goes on to commit. */
  function Ended(m: Mem): Mem
    requires m.outstanding > 0
  {
    m.(outstanding := m.outstanding - 1, committing := m.outstanding == 1)
  }

  // ---- crash atomicity ----

  /** An erased header makes recovery leave every home block alone. */
  lemma EmptyHeader(g: Geometry, d: Disk)
    requires g.Valid() && |d| == g.total && HeaderN(d[g.start]) == 0
    ensures GoodDisk(g, d)
    ensures SameHome(g, Recover(g, d), d)
  {}

  lemma ClearedHeader(g: Geometry, d: Disk)
    requires g.Valid() && |d| == g.total
    ensures HeaderN(HeadWritten(g, d, [])[g.start]) == 0
  {}

  lemma InstallTwice(g: Geometry, d: Disk, bl: seq<nat>, k: nat)
    requires g.Valid() && |d| == g.total && GoodBlocks(g, bl) && k <= |bl|
    ensures InstallK(g, d, bl, k)[g.start] == d[g.start]
    ensures InstallK(g, InstallK(g, d, bl, k), bl, |bl|) == InstallK(g, d, bl, |bl|)
  {
    var t, n := InstallK(g, d, bl, k), |bl|;
    var a, c := InstallK(g, t, bl, n), InstallK(g, d, bl, n);
    assert bl[..n] == bl;
    InstallMisses(g, d, bl, k, g.start);
    forall b | 0 <= b < g.total ensures a[b] == c[b] {
      if i :| 0 <= i < n && bl[i] == b {
        InstallHits(g, t, bl, n, i);
        InstallHits(g, d, bl, n, i);
        InstallMisses(g, d, bl, k, g.start + 1 + i);
      } else {
        InstallMisses(g, t, bl, n, b);
        InstallMisses(g, d, bl, n, b);
        InstallMisses(g, d, bl, k, b);
      }
    }
    assert a == c;
  }

  /** Recovering any state reached part way through recovery gives what the first recovery would have given. */
  lemma RecoverAnyPrefix(g: Geometry, d: Disk, t: Disk)
    requires GoodDisk(g, d) && (t == d || t in RecoverTrace(g, d))
    ensures GoodDisk(g, t)
    ensures SameHome(g, Recover(g, t), Recover(g, d))
  {
    var bl := HeaderBlocks(d[g.start]);
    if t == d {
    } else if t == Recover(g, d) {
      ClearedHeader(g, InstallK(g, d, bl, |bl|));
      EmptyHeader(g, t);
    } else {
      var i :| 0 <= i < |bl| && InstallTrace(g, d, bl, |bl|)[i] == t;
      InstallTraceAt(g, d, bl, |bl|, i);
      InstallTwice(g, d, bl, i + 1);
    }
  }

  /** The disk as the transaction wants it: the cached copy of every logged block, the rest as before. */
  function Applied(d: Disk, dirty: map<nat, Block>): (r: Disk) {
    seq(|d|, b requires 0 <= b < |d| => if b in dirty then dirty[b] else d[b])
  }

  /** Once the header is on disk, recovery gives the whole transaction. */
  lemma RecoverCommitted(g: Geometry, d: Disk, bl: seq<nat>, dirty: map<nat, Block>)
    requires g.Valid() && |d| == g.total && GoodBlocks(g, bl)
    requires dirty.Keys == Elems(bl)
    ensures var w := HeadWritten(g, WriteLogK(g, d, bl, dirty, |bl|), bl);
            GoodDisk(g, w) && HeaderBlocks(w[g.start]) == bl && SameHome(g, Recover(g, w), Applied(d, dirty))
  {
    var p := WriteLogK(g, d, bl, dirty, |bl|);
    var h := PutHeader(p[g.start], bl, |bl|);
    HeaderRoundTrip(p[g.start], bl);
    forall b | g.Home(b) ensures InstallK(g, p[g.start := h], bl, |bl|)[b] == Applied(d, dirty)[b] {
      InstallWritten(g, d, bl, dirty, h, b);
    }
    RecoverHome(g, p[g.start := h], bl);
  }

  lemma RecoverHome(g: Geometry, d: Disk, bl: seq<nat>)
    requires GoodDisk(g, d) && HeaderBlocks(d[g.start]) == bl
    ensures SameHome(g, Recover(g, d), InstallK(g, d, bl, |bl|))
    ensures RecoverTrace(g, d) == InstallTrace(g, d, bl, |bl|) + [HeadWritten(g, InstallK(g, d, bl, |bl|), [])]
  {}

  lemma InstallWritten(g: Geometry, d: Disk, bl: seq<nat>, dirty: map<nat, Block>, h: Block, b: nat)
    requires g.Valid() && |d| == g.total && GoodBlocks(g, bl) && g.Home(b)
    requires dirty.Keys == Elems(bl)
    ensures var w := WriteLogK(g, d, bl, dirty, |bl|)[g.start := h];
            InstallK(g, w, bl, |bl|)[b] == if b in dirty then dirty[b] else d[b]
  {
    var w := WriteLogK(g, d, bl, dirty, |bl|)[g.start := h];
    assert bl[..|bl|] == bl;
    if i :| 0 <= i < |bl| && bl[i] == b {
      InstallHits(g, w, bl, |bl|, i);
      WriteLogAt(g, d, bl, dirty, |bl|, g.start + 1 + i);
    } else {
      InstallMisses(g, w, bl, |bl|, b);
      WriteLogAt(g, d, bl, dirty, |bl|, b);
    }
  }

  /** The disk before commit followed by every value it takes during commit. */
  function CommitStates(g: Geometry, d: Disk, bl: seq<nat>, dirty: map<nat, Block>): (r: seq<Disk>)
    requires g.Valid() && |d| == g.total && GoodBlocks(g, bl)
    requires dirty.Keys == Elems(bl)
  {
    [d] + CommitTrace(g, d, bl, dirty)
  }

  lemma CommitBeforeHeader(g: Geometry, d: Disk, bl: seq<nat>, dirty: map<nat, Block>, i: nat)
    requires g.Valid() && |d| == g.total && GoodBlocks(g, bl) && i <= |bl|
    requires dirty.Keys == Elems(bl)
    ensures i < |CommitStates(g, d, bl, dirty)|
    ensures CommitStates(g, d, bl, dirty)[i] == WriteLogK(g, d, bl, dirty, i)
  {
    if i > 0 {
      WriteLogTraceAt(g, d, bl, dirty, |bl|, i - 1);
    }
  }

  lemma CommitAfterHeader(g: Geometry, d: Disk, bl: seq<nat>, dirty: map<nat, Block>, i: nat)
    requires g.Valid() && |d| == g.total && GoodBlocks(g, bl)
    requires dirty.Keys == Elems(bl)
    requires |bl| < i < |CommitStates(g, d, bl, dirty)|
    ensures var w := HeadWritten(g, WriteLogK(g, d, bl, dirty, |bl|), bl);
            var t := CommitStates(g, d, bl, dirty)[i];
            GoodDisk(g, w) && (t == w || t in RecoverTrace(g, w))
  {
    RecoverCommitted(g, d, bl, dirty);
    var n := |bl|;
    var w := HeadWritten(g, WriteLogK(g, d, bl, dirty, n), bl);
    var front := [d] + WriteLogTrace(g, d, bl, dirty, n) + [w];
    var tail := InstallTrace(g, w, bl, n) + [HeadWritten(g, InstallK(g, w, bl, n), [])];
    AppendAt(front, tail, i);
    RecoverHome(g, w, bl);
    CommitStatesSplit(g, d, bl, dirty);
  }

  lemma CommitStatesSplit(g: Geometry, d: Disk, bl: seq<nat>, dirty: map<nat, Block>)
    requires g.Valid() && |d| == g.total && GoodBlocks(g, bl) && bl != []
    requires dirty.Keys == Elems(bl)
    ensures var w := HeadWritten(g, WriteLogK(g, d, bl, dirty, |bl|), bl);
            CommitStates(g, d, bl, dirty) == [d] + WriteLogTrace(g, d, bl, dirty, |bl|) + [w]
              + (InstallTrace(g, w, bl, |bl|) + [HeadWritten(g, InstallK(g, w, bl, |bl|), [])])
  {}

  lemma AppendAt<T>(front: seq<T>, tail: seq<T>, i: nat)
    requires |front| <= i + 1 && i < |front + tail| && |front| > 0
    ensures var t := (front + tail)[i]; t == front[|front| - 1] || t in tail
  {}

  /** A crash after the i-th write of commit recovers to the old contents up to the header write, and to the
      whole transaction from then on. The header write is write number |bl| + 1. */
  lemma CommitCrashAtomic(g: Geometry, d: Disk, bl: seq<nat>, dirty: map<nat, Block>, i: nat)
    requires g.Valid() && |d| == g.total && GoodBlocks(g, bl) && HeaderN(d[g.start]) == 0
    requires dirty.Keys == Elems(bl)
    requires i < |CommitStates(g, d, bl, dirty)|
    ensures var t := CommitStates(g, d, bl, dirty)[i];
            GoodDisk(g, t) && SameHome(g, Recover(g, t), if i > |bl| then Applied(d, dirty) else d)
  {
    var t := CommitStates(g, d, bl, dirty)[i];
    if i <= |bl| {
      CommitBeforeHeader(g, d, bl, dirty, i);
      WriteLogAt(g, d, bl, dirty, i, g.start);
      EmptyHeader(g, t);
      forall b | g.Home(b) ensures t[b] == d[b] {
        WriteLogAt(g, d, bl, dirty, i, b);
      }
    } else {
      CommitAfterHeader(g, d, bl, dirty, i);
      RecoverCommitted(g, d, bl, dirty);
      RecoverAnyPrefix(g, HeadWritten(g, WriteLogK(g, d, bl, dirty, |bl|), bl), t);
    }
  }

  /** A commit that runs to its end has installed the whole transaction and erased the header. */
  lemma CommitCompletes(g: Geometry, d: Disk, bl: seq<nat>, dirty: map<nat, Block>)
    requires g.Valid() && |d| == g.total && GoodBlocks(g, bl) && HeaderN(d[g.start]) == 0
    requires dirty.Keys == Elems(bl)
    ensures var r := CommitResult(g, d, bl, dirty);
            HeaderN(r[g.start]) == 0 && SameHome(g, r, Applied(d, dirty))
  {
    if bl != [] {
      var p := WriteLogK(g, d, bl, dirty, |bl|);
      var w := HeadWritten(g, p, bl);
      var t := InstallK(g, w, bl, |bl|);
      ClearedHeader(g, t);
      forall b | g.Home(b) ensures t[b] == Applied(d, dirty)[b] {
        InstallWritten(g, d, bl, dirty, PutHeader(p[g.start], bl, |bl|), b);
      }
    }
  }

  /** ds[0] is the disk at the first crash; each later one is the disk at a crash inside the recovery before it. */
  predicate CrashChain(g: Geometry, ds: seq<Disk>) {
    && |ds| > 0
    && (forall i :: 0 <= i < |ds| ==> GoodDisk(g, ds[i]))
    && forall i :: 0 < i < |ds| ==> ds[i] == ds[i - 1] || ds[i] in RecoverTrace(g, ds[i - 1])
  }

  lemma {:induction false} CrashChainRecovers(g: Geometry, ds: seq<Disk>)
    requires CrashChain(g, ds)
    ensures SameHome(g, Recover(g, ds[|ds| - 1]), Recover(g, ds[0]))
  {
    if |ds| > 1 {
      CrashChainRecovers(g, ds[..|ds| - 1]);
      RecoverAnyPrefix(g, ds[|ds| - 2], ds[|ds| - 1]);
    }
  }

  /** Crash atomicity: crash anywhere in commit, then any number of times inside recovery. When a recovery
      finally completes, all home blocks hold their old contents, or all hold the transaction's. */
  lemma CrashAtomicity(g: Geometry, d: Disk, bl: seq<nat>, dirty: map<nat, Block>, ds: seq<Disk>)
    requires g.Valid() && |d| == g.total && GoodBlocks(g, bl) && HeaderN(d[g.start]) == 0
    requires dirty.Keys == Elems(bl)
    requires CrashChain(g, ds) && ds[0] in CommitStates(g, d, bl, dirty)
    ensures var r := Recover(g, ds[|ds| - 1]); SameHome(g, r, d) || SameHome(g, r, Applied(d, dirty))
  {
    var i :| 0 <= i < |CommitStates(g, d, bl, dirty)| && CommitStates(g, d, bl, dirty)[i] == ds[0];
    CommitCrashAtomic(g, d, bl, dirty, i);
    CrashChainRecovers(g, ds);
  }
}
