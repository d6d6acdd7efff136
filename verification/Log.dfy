/** log.c as code: the global log structure, with its loops over log blocks. */
module Log {
  import opened Bytes
  import opened LogSpec

  class Log {
    const g: Geometry // log.start, log.size
    var n: nat // log.lh.n
    const block: array<nat> // log.lh.block
    var outstanding: nat
    var committing: bool

    // The buffer cache as log.c sees it: the device, and the pinned B_DIRTY buffers that differ from it.
    var disk: Disk
    var dirty: map<nat, Block>
    ghost var trace: seq<Disk> // every value the disk has taken, one entry a block write

    ghost predicate Valid()
      reads this, block
    {
      && g.Valid() && |disk| == g.total
      && block.Length == LOGSIZE && n <= LOGSIZE
      && GoodBlocks(g, block[..n])
      && dirty.Keys == Elems(block[..n])
    }

    ghost function Lh(): seq<nat>
      reads this, block
      requires n <= block.Length
    {
      block[..n]
    }

    ghost function View(): Mem
      reads this, block
      requires n <= block.Length
    {
      Mem(Lh(), dirty, outstanding, committing)
    }

    /** bread(dev, b)->data */
    function Bread(b: nat): Block
      reads this
      requires b < |disk|
    {
      if b in dirty then dirty[b] else disk[b]
    }

    /** bwrite of a buffer for block b holding data: the device write clears B_DIRTY. */
    method Bwrite(b: nat, data: Block)
      requires b < |disk|
      modifies this`disk, this`dirty, this`trace
      ensures disk == old(disk)[b := data] && dirty == old(dirty) - {b} && trace == old(trace) + [disk]
    {
      disk := disk[b := data];
      dirty := dirty - {b};
      trace := trace + [disk];
    }

    method WriteLog()
      requires Valid()
      modifies this`disk, this`dirty, this`trace
      ensures Valid() && dirty == old(dirty)
      ensures disk == WriteLogK(g, old(disk), Lh(), dirty, n)
      ensures trace == old(trace) + WriteLogTrace(g, old(disk), Lh(), dirty, n)
    {
      hide WriteLogK, WriteLogTrace, GoodBlocks, Elems;
      WriteLogNone(g, disk, Lh(), dirty);
      var tail := 0;
      while tail < n
        invariant tail <= n && Valid() && dirty == old(dirty)
        invariant disk == WriteLogK(g, old(disk), Lh(), dirty, tail)
        invariant trace == old(trace) + WriteLogTrace(g, old(disk), Lh(), dirty, tail)
      {
        SlotIsOther(g, Lh(), dirty, tail);
        assert block[tail] == Lh()[tail];
        var data := Bread(block[tail]);
        WriteLogNext(g, old(disk), Lh(), dirty, tail);
        WriteLogTraceNext(g, old(disk), Lh(), dirty, tail);
        Bwrite(g.start + tail + 1, data);
        assert dirty == old(dirty);
        tail := tail + 1;
      }
    }

    method WriteHead()
      requires Valid()
      modifies this`disk, this`dirty, this`trace
      ensures Valid() && dirty == old(dirty)
      ensures disk == HeadWritten(g, old(disk), Lh())
      ensures trace == old(trace) + [disk]
    {
      var hb := SetWord(Bread(g.start), 0, n);
      assert g.start !in dirty;
      var i := 0;
      while i < n
        invariant i <= n && hb == PutHeader(disk[g.start], Lh(), i)
      {
        hb := SetWord(hb, i + 1, block[i]);
        i := i + 1;
      }
      Bwrite(g.start, hb);
    }

    method InstallTrans()
      requires g.Valid() && |disk| == g.total && block.Length == LOGSIZE && n <= LOGSIZE && GoodBlocks(g, Lh())
      requires dirty.Keys <= Elems(Lh())
      modifies this`disk, this`dirty, this`trace
      ensures disk == InstallK(g, old(disk), Lh(), n) && |disk| == g.total
      ensures dirty == map[]
      ensures trace == old(trace) + InstallTrace(g, old(disk), Lh(), n)
    {
      hide InstallK, InstallTrace, GoodBlocks, Elems;
      InstallNone(g, disk, Lh());
      var tail := 0;
      assert block[0..n] == Lh();
      while tail < n
        invariant tail <= n && |disk| == g.total
        invariant dirty.Keys <= Elems(block[tail..n])
        invariant disk == InstallK(g, old(disk), Lh(), tail)
        invariant trace == old(trace) + InstallTrace(g, old(disk), Lh(), tail)
      {
        assert Lh()[tail..] == block[tail..n] && Lh()[tail + 1..] == block[tail + 1..n];
        InstallNext(g, old(disk), Lh(), dirty, tail);
        var data := Bread(g.start + tail + 1);
        Bwrite(block[tail], data);
        tail := tail + 1;
      }
      assert block[n..n] == [] && Elems([]) == {} by { NoElems(); }
    }

    method ReadHead()
      requires g.Valid() && |disk| == g.total && block.Length == LOGSIZE
      requires HeaderN(disk[g.start]) <= LOGSIZE && g.start !in dirty
      modifies this`n, block
      ensures n <= LOGSIZE && Lh() == HeaderBlocks(disk[g.start])
    {
      var lh := Bread(g.start);
      n := Word(lh, 0);
      var i := 0;
      while i < n
        invariant i <= n && n == HeaderN(lh) && n <= LOGSIZE
        invariant block[..i] == HeaderBlocks(lh)[..i]
      {
        block[i] := Word(lh, i + 1);
        i := i + 1;
      }
    }

    /** Run once at boot, with nothing cached. */
    method RecoverFromLog()
      requires GoodDisk(g, disk) && block.Length == LOGSIZE && dirty == map[]
      modifies this, block
      ensures Valid() && n == 0 && dirty == map[]
      ensures disk == Recover(g, old(disk))
      ensures trace == old(trace) + RecoverTrace(g, old(disk))
      ensures outstanding == old(outstanding) && committing == old(committing)
    {
      ReadHead();
      InstallTrans();
      n := 0;
      assert Lh() == [];
      WriteHead();
    }

    method Commit()
      requires Valid()
      modifies this`n, this`disk, this`dirty, this`trace
      ensures Valid() && n == 0 && dirty == map[]
      ensures trace == old(trace) + CommitTrace(g, old(disk), old(Lh()), old(dirty))
      ensures disk == CommitResult(g, old(disk), old(Lh()), old(dirty))
    {
      hide InstallTrace, WriteLogTrace, InstallK, WriteLogK, HeadWritten;
      ghost var d, bl := disk, Lh();
      if n > 0 {
        WriteLog();
        WriteHead();
        InstallTrans();
        n := 0;
        assert Lh() == [];
        ghost var t := trace;
        WriteHead();
        assert trace == t + [disk];
      }
    }

    /** One turn of begin_op's loop under log.lock; false means the caller sleeps on &log. */
    method BeginOp() returns (ok: bool)
      requires Valid()
      modifies this`outstanding
      ensures Valid() && ok == MayBegin(old(View()))
      ensures View() == if ok then old(View()).(outstanding := old(outstanding) + 1) else old(View())
    {
      if committing {
        ok := false;
      } else if n + (outstanding + 1) * MAXOPBLOCKS > LOGSIZE {
        ok := false;
      } else {
        outstanding := outstanding + 1;
        ok := true;
      }
    }

    /** The caller has put data in the locked buffer of block b; false is a panic. */
    method LogWrite(b: nat, data: Block) returns (ok: bool)
      requires Valid() && g.Home(b)
      modifies this`n, this`dirty, block
      ensures Valid() && ok == !LogWritePanics(g, old(View()))
      ensures View() == if ok then Logged(old(View()), b, data) else old(View())
    {
      if n >= LOGSIZE || n >= g.size - 1 {
        return false;
      }
      if outstanding < 1 {
        return false;
      }
      var i := 0;
      while i < n && block[i] != b
        invariant i <= n && b !in block[..i]
      {
        i := i + 1;
      }
      ghost var was := block[..n];
      assert i < n ==> block[i] in block[..n];
      block[i] := b;
      if i == n {
        n := n + 1;
        assert block[..n] == was + [b];
      } else {
        assert block[..n] == was;
      }
      dirty := dirty[b := data];
      ok := true;
    }

    /** end_op's first section under log.lock: from here until the commit is over nobody begins an operation. */
    method Leave() returns (doCommit: bool)
      requires Valid() && outstanding > 0 && !committing
      modifies this`outstanding, this`committing
      ensures Valid() && View() == Ended(old(View())) && (doCommit <==> committing)
    {
      outstanding := outstanding - 1;
      doCommit := outstanding == 0;
      if doCommit {
        committing := true;
      }
    }

    /** end_op: the last operation out commits. */
    method EndOp()
      requires Valid() && outstanding > 0 && !committing
      modifies this`n, this`outstanding, this`committing, this`disk, this`dirty, this`trace
      ensures Valid() && !committing && outstanding == old(outstanding) - 1
      ensures outstanding > 0 ==> View() == Ended(old(View())) && disk == old(disk) && trace == old(trace)
      ensures outstanding == 0 ==> View() == Mem([], map[], 0, false)
      ensures outstanding == 0 ==> disk == CommitResult(g, old(disk), old(Lh()), old(dirty))
      ensures outstanding == 0 ==> trace == old(trace) + CommitTrace(g, old(disk), old(Lh()), old(dirty))
    {
      var doCommit := Leave();
      if doCommit {
        Commit();
        committing := false;
      }
    }
  }
}
