/** What log.c sees of the buffer cache: for every block a dirty copy, or else what the disk has. The cache of Bio shows
    its callers just that, with the effects that Log and LogRuns give to bread, bwrite and log_write. */
module LogCache {
  import opened Bytes
  import opened Bio

  ghost predicate IsDirty(buf: seq<Buf>, n: nat) {
    exists b :: 0 <= b < |buf| && buf[b].dirty && buf[b].blockno == n
  }

  /** Nobody is at work on block n. */
  ghost predicate Idle(buf: seq<Buf>, n: nat) {
    forall b :: 0 <= b < |buf| && Caches(buf[b], DISK, n) ==> !buf[b].locked
  }

  ghost function DiskView(c: Cache): (d: Disk)
    reads c
    ensures |d| == c.disksize && forall n: nat :: n < c.disksize ==> d[n] == DiskBlock(c.memdisk, n)
  {
    var image := c.memdisk;
    seq(c.disksize, n requires 0 <= n < c.disksize => DiskBlock(image, n))
  }

  ghost function DirtyView(c: Cache): map<nat, Block>
    reads c
  {
    Copies(c.buf, c.latest)
  }

  ghost function Copies(buf: seq<Buf>, latest: seq<Block>): (m: map<nat, Block>)
    ensures forall n: nat :: n in m <==> n < |latest| && IsDirty(buf, n)
    ensures forall n :: n in m ==> m[n] == latest[n]
  {
    map n: nat | n < |latest| && IsDirty(buf, n) :: latest[n]
  }

  /** What Log.Bread says a block holds. */
  ghost function Shown(c: Cache, n: nat): Block
    reads c
    requires n < c.disksize
  {
    if n in DirtyView(c) then DirtyView(c)[n] else DiskView(c)[n]
  }

  /** It is what was last left in the block. */
  lemma ShownIsLatest(c: Cache, n: nat)
    requires c.Valid() && n < c.disksize && Idle(c.buf, n)
    ensures Shown(c, n) == c.latest[n]
  {
    var buf := c.buf;
    assert Coherent(buf, c.memdisk, c.latest);
    if !IsDirty(buf, n) && Holds(buf, n) {
      var b :| 0 <= b < |buf| && buf[b].valid && buf[b].blockno == n;
      assert BufOk(buf[b], c.memdisk, c.latest) && Caches(buf[b], DISK, n);
    }
  }

  /** Buffer r changed hands or was pinned, and no flag of a dirty buffer changed. */
  lemma SameDirty(was: seq<Buf>, now: seq<Buf>, r: nat)
    requires r < |was| == |now| && forall b :: 0 <= b < |was| && b != r ==> now[b] == was[b]
    requires now[r].dirty == was[r].dirty && (was[r].dirty ==> now[r].blockno == was[r].blockno)
    ensures forall n: nat :: IsDirty(now, n) <==> IsDirty(was, n)
  {
    forall n: nat ensures IsDirty(now, n) <==> IsDirty(was, n) {
      if IsDirty(was, n) {
        var b :| 0 <= b < |was| && was[b].dirty && was[b].blockno == n;
        assert now[b].dirty && now[b].blockno == n;
      }
    }
  }

  lemma SetDirty(was: seq<Buf>, now: seq<Buf>, r: nat, n: nat)
    requires r < |was| == |now| && forall b :: 0 <= b < |was| && b != r ==> now[b] == was[b]
    requires was[r].blockno == now[r].blockno == n && now[r].dirty
    ensures forall m: nat :: IsDirty(now, m) <==> m == n || IsDirty(was, m)
  {
    forall m: nat ensures IsDirty(now, m) <==> m == n || IsDirty(was, m) {
      if m == n {
        assert now[r].dirty && now[r].blockno == n;
      } else if IsDirty(was, m) {
        var b :| 0 <= b < |was| && was[b].dirty && was[b].blockno == m;
        assert now[b].dirty && now[b].blockno == m;
      }
    }
  }

  lemma SetClean(was: seq<Buf>, now: seq<Buf>, r: nat, n: nat)
    requires r < |was| == |now| && forall b :: 0 <= b < |was| && b != r ==> now[b] == was[b]
    requires Caches(was[r], DISK, n) && was[r].blockno == now[r].blockno && !now[r].dirty && NoTwo(was)
    requires forall b :: 0 <= b < |was| && was[b].dirty ==> was[b].dev == DISK
    ensures forall m: nat :: IsDirty(now, m) <==> m != n && IsDirty(was, m)
  {
    forall b | 0 <= b < |was| && b != r && was[b].dirty ensures was[b].blockno != n {
      assert Caches(was[r], was[b].dev, was[b].blockno) <==> was[b].blockno == n;
    }
    forall m: nat ensures IsDirty(now, m) <==> m != n && IsDirty(was, m) {
      if m != n && IsDirty(was, m) {
        var b :| 0 <= b < |was| && was[b].dirty && was[b].blockno == m;
        assert now[b].dirty && now[b].blockno == m;
      }
      if IsDirty(now, m) {
        var b :| 0 <= b < |now| && now[b].dirty && now[b].blockno == m;
        assert was[b].dirty && was[b].blockno == m;
      }
    }
  }

  /** Buffer r is held for block n, with the other buffers as they were. */
  ghost predicate Working(c: Cache, was: seq<Buf>, r: nat, n: nat)
    reads c
  {
    && |c.buf| == |was| == NBUF && r < NBUF && Caches(c.buf[r], DISK, n) && !was[r].locked
    && c.buf[r].locked && c.buf[r].valid && c.buf[r].refcnt == was[r].refcnt + 1
    && forall b :: 0 <= b < NBUF && b != r ==> c.buf[b] == was[b]
  }

  /** bread: block n's buffer, pinned and locked, with what the log's view shows. None is bget's panic. */
  method Bread(c: Cache, n: nat) returns (r: Option<nat>)
    requires c.Valid() && n < c.disksize && Idle(c.buf, n)
    modifies c`buf, c`memdisk
    ensures c.Valid() && DiskView(c) == old(DiskView(c)) && DirtyView(c) == old(DirtyView(c))
    ensures r.None? <==> NoBuffer(old(c.buf), n)
    ensures r.None? ==> c.buf == old(c.buf)
    ensures r.Some? ==> Working(c, old(c.buf), r.value, n)
    ensures r.Some? ==> c.buf[r.value].data == old(Shown(c, n)) == Latest(c.latest, n)
    ensures r.Some? ==> (c.buf[r.value].dirty <==> IsDirty(c.buf, n))
    ensures r.Some? && |old(c.buf)| == NBUF ==> c.buf[r.value].dirty == old(c.buf)[r.value].dirty
  {
    hide c.Valid, BufOk, NoTwo, Idle, IsDirty, Recycled, DiskBlock;
    ShownIsLatest(c, n);
    ghost var was := c.buf;
    BufsOk(c);
    r := c.Bget(DISK, n);
    BufsOk(c);
    if r.Some? {
      Granted(was, c.buf, c.memdisk, c.latest, c.stamp, r.value, n);
      SameDirty(was, c.buf, r.value);
      ghost var pinned := c.buf;
      c.LockRead(r.value);
      SameDirty(pinned, c.buf, r.value);
      OneBuffer(c, r.value, n);
    }
  }

  /** What bget gives out is unlocked, and was clean if it was another block's. */
  lemma Granted(was: seq<Buf>, now: seq<Buf>, image: seq<byte>, latest: seq<Block>, stamp: seq<nat>, r: nat, n: nat)
    requires r < |was| == |now| == NBUF && Idle(was, n) && forall b :: 0 <= b < NBUF ==> BufOk(was[b], image, latest)
    requires Caches(now[r], DISK, n)
    requires if exists c :: 0 <= c < NBUF && Caches(was[c], DISK, n)
             then now == was[r := was[r].(refcnt := was[r].refcnt + 1)]
             else Recycled(was, now, stamp, r, DISK, n)
    ensures !NoBuffer(was, n)
    ensures !was[r].locked && !now[r].locked && forall b :: 0 <= b < NBUF && b != r ==> now[b] == was[b]
    ensures now[r].refcnt == was[r].refcnt + 1 && now[r].dirty == was[r].dirty
    ensures was[r].dirty ==> now[r].blockno == was[r].blockno
  {
    assert BufOk(was[r], image, latest);
  }

  predicate NoBuffer(buf: seq<Buf>, n: nat) {
    forall b :: 0 <= b < |buf| ==> !Caches(buf[b], DISK, n) && !Unused(buf[b])
  }

  lemma BalancedRefl(buf: seq<Buf>)
    ensures Balanced(buf, buf)
  {}

  lemma DirtyDisk(c: Cache)
    requires c.Valid()
    ensures forall b :: 0 <= b < |c.buf| && c.buf[b].dirty ==> c.buf[b].dev == DISK
  {
    BufsOk(c);
    forall b | 0 <= b < |c.buf| && c.buf[b].dirty ensures c.buf[b].dev == DISK {
      assert BufOk(c.buf[b], c.memdisk, c.latest);
    }
  }

  lemma SpareFound(buf: seq<Buf>, b: nat, n: nat)
    requires b < |buf| && Unused(buf[b])
    ensures !NoBuffer(buf, n)
  {}

  lemma BufsOk(c: Cache)
    requires c.Valid()
    ensures |c.buf| == NBUF && |c.latest| == c.disksize && NoTwo(c.buf)
    ensures forall b :: 0 <= b < NBUF ==> BufOk(c.buf[b], c.memdisk, c.latest)
  {}

  lemma OneBuffer(c: Cache, r: nat, n: nat)
    requires c.Valid() && r < NBUF && Caches(c.buf[r], DISK, n)
    ensures c.buf[r].dirty <==> IsDirty(c.buf, n)
  {
    BufsOk(c);
    if IsDirty(c.buf, n) {
      var b :| 0 <= b < NBUF && c.buf[b].dirty && c.buf[b].blockno == n;
      assert BufOk(c.buf[b], c.memdisk, c.latest);
      assert Caches(c.buf[r], c.buf[b].dev, c.buf[b].blockno);
    }
  }

  /** From one call to the next every buffer is as unpinned, and as unlocked, as before. */
  ghost predicate Balanced(was: seq<Buf>, now: seq<Buf>) {
    |now| == |was| && forall b :: 0 <= b < |was| ==> now[b].refcnt == was[b].refcnt && now[b].locked == was[b].locked
  }

  /** brelse of a buffer that is dirty, or on the disk: one pin less, and at the last one the most recently used. */
  method Brelse(c: Cache, ghost was: seq<Buf>, r: nat, ghost n: nat)
    requires c.Valid() && n < c.disksize && Working(c, was, r, n)
    requires c.buf[r].dirty || c.buf[r].data == DiskView(c)[n]
    modifies c
    ensures c.Valid() && DiskView(c) == old(DiskView(c)) && c.latest == old(c.latest)[n := old(c.buf)[r].data]
    ensures DirtyView(c)
            == if old(c.buf)[r].dirty then old(DirtyView(c))[n := old(c.buf)[r].data] else old(DirtyView(c))
    ensures forall m: nat :: Idle(was, m) ==> Idle(c.buf, m)
    ensures var b := old(c.buf)[r];
            c.buf == old(c.buf)[r := b.(locked := false, refcnt := b.refcnt - 1)] && Balanced(was, c.buf)
    ensures |c.stamp| == |old(c.stamp)| == NBUF && (c.buf[r].refcnt > 0 ==> c.stamp == old(c.stamp))
    ensures c.buf[r].refcnt == 0 ==> forall b :: 0 <= b < NBUF && b != r ==> c.stamp[b] == old(c.stamp)[b] < c.stamp[r]
  {
    hide c.Valid, BufOk, NoTwo, Copies, Idle, IsDirty, Balanced, DiskBlock;
    ghost var now, before := c.buf, c.latest;
    OneBuffer(c, r, n);
    BufsOk(c);
    Stamps(c);
    c.Unlock(r);
    c.Unpin(r);
    Released(now, before, c.buf, r, n);
    IdleAgain(was, now, c.buf, r);
  }

  lemma BufCount(c: Cache)
    requires c.Valid()
    ensures |c.buf| == NBUF && |c.latest| == c.disksize
  {}

  lemma Stamps(c: Cache)
    requires c.Valid()
    ensures |c.stamp| == NBUF
  {}

  lemma Released(buf: seq<Buf>, latest: seq<Block>, now: seq<Buf>, r: nat, n: nat)
    requires r < |buf| && n < |latest| && buf[r].blockno == n && (buf[r].dirty <==> IsDirty(buf, n))
    requires exists k: nat :: now == buf[r := buf[r].(locked := false, refcnt := k)]
    ensures Copies(now, latest[n := buf[r].data])
            == if buf[r].dirty then Copies(buf, latest)[n := buf[r].data] else Copies(buf, latest)
  {
    SameDirty(buf, now, r);
    hide IsDirty;
    var m := Copies(now, latest[n := buf[r].data]);
    assert m == if buf[r].dirty then Copies(buf, latest)[n := buf[r].data] else Copies(buf, latest);
  }

  lemma IdleAgain(was: seq<Buf>, buf: seq<Buf>, now: seq<Buf>, r: nat)
    requires r < |buf| == |was| && forall b :: 0 <= b < |was| && b != r ==> buf[b] == was[b]
    requires exists k: nat :: now == buf[r := buf[r].(locked := false, refcnt := k)]
    requires !was[r].locked && buf[r].refcnt == was[r].refcnt + 1
    ensures forall m: nat :: Idle(was, m) ==> Idle(now, m)
    ensures now[r].refcnt == was[r].refcnt ==> Balanced(was, now)
  {}

  lemma CopyMade(was: seq<Buf>, now: seq<Buf>, latest: seq<Block>, r: nat, n: nat, v: Block)
    requires r < |was| && now == was[r := was[r].(data := v, dirty := true)] && was[r].blockno == n < |latest|
    ensures Copies(now, latest)[n := v] == Copies(was, latest)[n := v]
  {
    hide IsDirty;
    SetDirty(was, now, r, n);
  }

  lemma CopyGone(was: seq<Buf>, now: seq<Buf>, latest: seq<Block>, r: nat, n: nat)
    requires r < |was| && |now| == |was| && now == was[r := was[r].(data := now[r].data, dirty := false)]
    requires Caches(was[r], DISK, n)
    requires NoTwo(was) && forall b :: 0 <= b < |was| && was[b].dirty ==> was[b].dev == DISK
    ensures Copies(now, latest) == Copies(was, latest) - {n}
  {
    hide IsDirty, NoTwo;
    SetClean(was, now, r, n);
  }

  /** Reading a block changes nothing. */
  method Read(c: Cache, n: nat) returns (data: Option<Block>)
    requires c.Valid() && n < c.disksize && Idle(c.buf, n)
    modifies c
    ensures c.Valid() && DiskView(c) == old(DiskView(c)) && DirtyView(c) == old(DirtyView(c))
    ensures data.None? <==> NoBuffer(old(c.buf), n)
    ensures data.Some? ==> data.value == old(Shown(c, n))
    ensures forall b :: 0 <= b < |c.buf| && b < |old(c.buf)| ==> c.buf[b].dirty == old(c.buf)[b].dirty
    ensures Balanced(old(c.buf), c.buf)
    ensures forall m: nat :: Idle(old(c.buf), m) ==> Idle(c.buf, m)
  {
    hide c.Valid, NoBuffer, Idle, IsDirty, Copies, DiskBlock;
    ghost var was := c.buf;
    BufCount(c);
    var r := Bread(c, n);
    if r.None? {
      return None;
    }
    data := Some(c.buf[r.value].data);
    Brelse(c, was, r.value, n);
  }

  /** bread, a change of the data, log_write's B_DIRTY, brelse: the block has a dirty copy with the new data. */
  method LogWrite(c: Cache, n: nat, v: Block) returns (ok: bool)
    requires c.Valid() && n < c.disksize && Idle(c.buf, n)
    modifies c
    ensures c.Valid() && DiskView(c) == old(DiskView(c)) && (ok <==> !NoBuffer(old(c.buf), n))
    ensures DirtyView(c) == if ok then old(DirtyView(c))[n := v] else old(DirtyView(c))
    ensures Balanced(old(c.buf), c.buf)
    ensures forall m: nat :: Idle(old(c.buf), m) ==> Idle(c.buf, m)
  {
    ghost var was := c.buf;
    var r := Bread(c, n);
    if r.None? {
      return false;
    }
    hide c.Valid, Copies, NoBuffer, Idle;
    ghost var held := c.buf;
    c.Modify(r.value, v);
    c.MarkDirty(r.value);
    CopyMade(held, c.buf, c.latest, r.value, n, v);
    Brelse(c, was, r.value, n);
    ok := true;
  }

  /** bread, a change of the data, bwrite, brelse: the block is on the disk and has no dirty copy. */
  method Write(c: Cache, n: nat, v: Block) returns (ok: bool)
    requires c.Valid() && n < c.disksize && Idle(c.buf, n)
    modifies c
    ensures c.Valid() && (ok <==> !NoBuffer(old(c.buf), n))
    ensures DiskView(c) == if ok then old(DiskView(c))[n := v] else old(DiskView(c))
    ensures DirtyView(c) == if ok then old(DirtyView(c)) - {n} else old(DirtyView(c))
    ensures Balanced(old(c.buf), c.buf)
    ensures forall m: nat :: Idle(old(c.buf), m) ==> Idle(c.buf, m)
  {
    hide c.Valid, Copies, NoBuffer, Idle, BufOk, IsDirty, NoTwo, DiskBlock, Balanced;
    ghost var was := c.buf;
    BufCount(c);
    BalancedRefl(was);
    var r := Bread(c, n);
    if r.None? {
      return false;
    }
    BufsOk(c);
    DirtyDisk(c);
    ghost var held := c.buf;
    c.Modify(r.value, v);
    c.Bwrite(r.value);
    CopyGone(held, c.buf, c.latest, r.value, n);
    assert DiskView(c) == old(DiskView(c))[n := v];
    Brelse(c, was, r.value, n);
    ok := true;
  }

  /** With one buffer neither pinned nor dirty, bread never runs out: any number of reads, of any blocks, find what the
      log's view shows. */
  method ReadAll(c: Cache, ns: seq<nat>) returns (datas: seq<Block>)
    requires c.Valid() && forall k :: 0 <= k < |ns| ==> ns[k] < c.disksize && Idle(c.buf, ns[k])
    requires exists b :: 0 <= b < NBUF && Unused(c.buf[b])
    modifies c
    ensures c.Valid() && |datas| == |ns| && forall k :: 0 <= k < |ns| ==> datas[k] == old(Shown(c, ns[k]))
    ensures Balanced(old(c.buf), c.buf)
  {
    hide c.Valid, Idle, IsDirty, Copies, DiskBlock, NoBuffer;
    datas := [];
    BufCount(c);
    ghost var was, spare: nat := c.buf, 0;
    spare :| spare < NBUF && Unused(c.buf[spare]);
    while |datas| < |ns|
      invariant c.Valid() && |datas| <= |ns| && Balanced(was, c.buf) && |was| == NBUF && Unused(c.buf[spare])
      invariant forall k :: 0 <= k < |ns| ==> ns[k] < c.disksize && Idle(c.buf, ns[k])
      invariant DiskView(c) == old(DiskView(c)) && DirtyView(c) == old(DirtyView(c))
      invariant forall k :: 0 <= k < |datas| ==> datas[k] == old(Shown(c, ns[k]))
    {
      SpareFound(c.buf, spare, ns[|datas|]);
      var data := Read(c, ns[|datas|]);
      if data.None? {
        assert false;
      }
      datas := datas + [data.value];
    }
  }
}
