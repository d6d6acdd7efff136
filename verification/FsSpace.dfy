/** How many blocks are free and how many a write takes: exactly when balloc runs out. */
module FsSpace {
  import opened Bytes
  import opened FsSpec
  import opened FsSteps
  import opened FsWrite

  function Free(sb: Superblock, d: Disk): set<nat>
    requires sb.Valid() && |d| == sb.size
  {
    set b: nat | b < sb.size && !Bit(sb, d, b)
  }

  /** The slots of an inode that hold a block. */
  function Held(d: Disk, di: Dinode): set<nat>
    requires di.Valid()
  {
    set k: nat | k <= MAXFILE && Ref(d, di, k) != 0
  }

  /** The slots that blocks lo .. hi of a file are reached through. */
  function Span(lo: nat, hi: nat): set<nat>
    requires hi <= MAXFILE
  {
    set k: nat | k <= MAXFILE && InSpan(lo, hi, k)
  }

  predicate InSpan(lo: nat, hi: nat, k: nat) {
    lo <= k < hi || (k == MAXFILE && lo < hi && hi > NDIRECT)
  }

  /** One past the last block that n bytes at offset off touch. */
  function Reach(off: nat, n: nat): nat {
    if n == 0 then off / BSIZE else (off + n - 1) / BSIZE + 1
  }

  lemma ReachFits(off: nat, n: nat)
    requires off + n <= MAXFILE * BSIZE
    ensures off / BSIZE <= Reach(off, n) <= MAXFILE
  {}

  /** The slots a write of n bytes at offset off finds empty. */
  function Needed(d: Disk, di: Dinode, off: nat, n: nat): set<nat>
    requires di.Valid() && off + n <= MAXFILE * BSIZE
  {
    ReachFits(off, n);
    Span(off / BSIZE, Reach(off, n)) - Held(d, di)
  }

  // ---- conservation ----

  /** The blocks that slots below k of inode inum hold. */
  function Mine(own: map<nat, Slot>, inum: nat, k: nat): set<nat> {
    set x | x in own && own[x].inum == inum && own[x].slot < k
  }

  function HeldBelow(d: Disk, di: Dinode, k: nat): set<nat>
    requires di.Valid() && k <= MAXFILE + 1
  {
    set j: nat | j < k && Ref(d, di, j) != 0
  }

  lemma {:induction false} MineCount(sb: Superblock, s: Snap, inum: nat, k: nat)
    requires Shape(sb, s, inum) && k <= MAXFILE + 1
    ensures |Mine(s.o, inum, k)| == |HeldBelow(s.d, s.t[inum], k)|
  {
    hide Ref, Consistent, Mine, HeldBelow;
    if k == 0 {
      assert Mine(s.o, inum, 0) == {} && HeldBelow(s.d, s.t[inum], 0) == {} by { NoneBelow(s.o, inum, s.d, s.t[inum]); }
    } else {
      MineCount(sb, s, inum, k - 1);
      var r := Ref(s.d, s.t[inum], k - 1);
      SlotOwner(sb, s, inum, k - 1);
      MineNext(s.o, inum, k - 1, r);
      HeldNext(s.d, s.t[inum], k - 1);
      if r != 0 {
        OneMore(Mine(s.o, inum, k - 1), r);
        OneMore(HeldBelow(s.d, s.t[inum], k - 1), k - 1);
      }
    }
  }

  lemma OneMore(a: set<nat>, x: nat)
    requires x !in a
    ensures |a + {x}| == |a| + 1
  {}

  lemma NoneBelow(own: map<nat, Slot>, inum: nat, d: Disk, di: Dinode)
    requires di.Valid()
    ensures Mine(own, inum, 0) == {} && HeldBelow(d, di, 0) == {}
  {}

  /** Who owns a block by slot k of the inode. */
  lemma SlotOwner(sb: Superblock, s: Snap, inum: nat, k: nat)
    requires Shape(sb, s, inum) && k <= MAXFILE
    ensures var r := Ref(s.d, s.t[inum], k);
            forall x :: x in s.o && s.o[x] == Slot(inum, k) <==> x == r && r != 0
  {
    hide Ref, Bit;
  }

  lemma MineNext(own: map<nat, Slot>, inum: nat, k: nat, r: nat)
    requires forall x :: x in own && own[x] == Slot(inum, k) <==> x == r && r != 0
    ensures Mine(own, inum, k + 1) == if r != 0 then Mine(own, inum, k) + {r} else Mine(own, inum, k)
    ensures r !in Mine(own, inum, k) || r == 0
  {
    var more := if r != 0 then {r} else {};
    forall x ensures x in Mine(own, inum, k + 1) <==> x in Mine(own, inum, k) + more {
      if x in own && own[x].inum == inum && own[x].slot == k {
        assert own[x] == Slot(inum, k);
      }
    }
  }

  lemma HeldNext(d: Disk, di: Dinode, k: nat)
    requires di.Valid() && k <= MAXFILE
    ensures HeldBelow(d, di, k + 1) == if Ref(d, di, k) != 0 then HeldBelow(d, di, k) + {k} else HeldBelow(d, di, k)
    ensures k !in HeldBelow(d, di, k)
  {
    hide Ref;
  }

  lemma HeldCount(sb: Superblock, s: Snap, inum: nat)
    requires Shape(sb, s, inum)
    ensures |Mine(s.o, inum, MAXFILE + 1)| == |Held(s.d, s.t[inum])|
  {
    hide Ref, Consistent;
    MineCount(sb, s, inum, MAXFILE + 1);
    assert HeldBelow(s.d, s.t[inum], MAXFILE + 1) == Held(s.d, s.t[inum]);
  }

  lemma NewlyOwned(sb: Superblock, s: Snap, e: Snap, inum: nat)
    requires Shape(sb, s, inum) && Shape(sb, e, inum) && OthersKept(sb, s.d, s.t, s.o, e.d, e.t, e.o, inum)
    ensures var taken := e.o.Keys - s.o.Keys;
            && Free(sb, s.d) == Free(sb, e.d) + taken && Free(sb, e.d) !! taken
            && Mine(e.o, inum, MAXFILE + 1) == Mine(s.o, inum, MAXFILE + 1) + taken
            && Mine(s.o, inum, MAXFILE + 1) !! taken
  {
    hide Ref, Bit, Untouched;
  }

  /** Conservation: a block that leaves the bitmap's free ones turns up in a slot of the inode. */
  lemma Conserved(sb: Superblock, s: Snap, e: Snap, inum: nat)
    requires Shape(sb, s, inum) && Shape(sb, e, inum) && OthersKept(sb, s.d, s.t, s.o, e.d, e.t, e.o, inum)
    ensures |Free(sb, s.d)| + |Held(s.d, s.t[inum])| == |Free(sb, e.d)| + |Held(e.d, e.t[inum])|
  {
    hide Shape, OthersKept, Free, Held, Mine;
    NewlyOwned(sb, s, e, inum);
    HeldCount(sb, s, inum);
    HeldCount(sb, e, inum);
  }

  // ---- bmap ----

  /** bmap of block bn failed at e: there is no free block, and it took none but those it needs. */
  ghost predicate Stuck(sb: Superblock, s: Snap, e: Snap, inum: nat, bn: nat)
    requires Shape(sb, s, inum)
  {
    && Shape(sb, e, inum) && OthersKept(sb, s.d, s.t, s.o, e.d, e.t, e.o, inum) && bn < MAXFILE && Full(sb, e.d)
    && bn !in Held(s.d, s.t[inum]) && Held(e.d, e.t[inum]) <= Held(s.d, s.t[inum]) + Span(bn, bn + 1) - {bn}
  }

  lemma FullIsNone(sb: Superblock, d: Disk)
    requires sb.Valid() && |d| == sb.size
    ensures Full(sb, d) <==> Free(sb, d) == {}
  {
    hide Bit;
    if Free(sb, d) == {} {
      forall b | 0 <= b < sb.size ensures Bit(sb, d, b) {
        assert b !in Free(sb, d);
      }
    }
  }

  lemma SlotTaken(d: Disk, di: Dinode, e: Disk, dj: Dinode, k: nat)
    requires di.Valid() && dj.Valid() && k <= MAXFILE && Ref(e, dj, k) != 0
    requires forall j :: 0 <= j <= MAXFILE && j != k ==> Ref(e, dj, j) == Ref(d, di, j)
    ensures Held(e, dj) == Held(d, di) + {k}
  {
    hide Ref;
  }

  lemma WordTaken(sb: Superblock, s: Snap, e: Snap, inum: nat, bn: nat)
    requires Shape(sb, s, inum) && Shape(sb, e, inum) && NDIRECT <= bn < MAXFILE && s.t[inum].addrs[NDIRECT] != 0
    requires Extended(sb, s.d, s.t, s.o, e.d, e.t, e.o, inum, bn) && Ref(e.d, e.t[inum], bn) != 0
    ensures Held(e.d, e.t[inum]) == Held(s.d, s.t[inum]) + {bn}
  {
    hide Consistent, OthersKept, InodeAt;
    assert Ref(e.d, e.t[inum], MAXFILE) == Ref(s.d, s.t[inum], MAXFILE);
    SlotTaken(s.d, s.t[inum], e.d, e.t[inum], bn);
  }

  lemma SpanOne(bn: nat)
    requires bn < MAXFILE
    ensures Span(bn, bn + 1) == if bn < NDIRECT then {bn} else {bn, MAXFILE}
  {}

  lemma SpanMore(lo: nat, bn: nat)
    requires lo <= bn < MAXFILE
    ensures Span(lo, bn + 1) == Span(lo, bn) + Span(bn, bn + 1)
  {}

  lemma FoundHeld(d: Disk, di: Dinode, bn: nat)
    requires di.Valid() && bn < MAXFILE && Ref(d, di, bn) != 0
    ensures Held(d, di) == Held(d, di) + Span(bn, bn + 1)
  {}

  lemma NoneTaken(sb: Superblock, s: Snap, inum: nat, bn: nat)
    requires Shape(sb, s, inum) && bn < MAXFILE && Ref(s.d, s.t[inum], bn) == 0 && Full(sb, s.d)
    ensures Stuck(sb, s, s, inum, bn)
  {
    hide Consistent, Ref, Full;
    OthersKeptRefl(sb, s.d, s.t, s.o, inum);
  }

  /** A direct block was empty. */
  lemma DirectTaken(sb: Superblock, s: Snap, e: Snap, inum: nat, bn: nat, ok: bool)
    requires Shape(sb, s, inum) && bn < NDIRECT && Ref(s.d, s.t[inum], bn) == 0
    requires !ok ==> e == s && Full(sb, s.d)
    requires ok ==> Shape(sb, e, inum) && Ref(e.d, e.t[inum], bn) != 0
    requires ok ==> forall j :: 0 <= j <= MAXFILE && j != bn ==> Ref(e.d, e.t[inum], j) == Ref(s.d, s.t[inum], j)
    ensures ok ==> Held(e.d, e.t[inum]) == Held(s.d, s.t[inum]) + Span(bn, bn + 1)
    ensures !ok ==> Stuck(sb, s, e, inum, bn)
  {
    hide Consistent, Ref, Full, OthersKept, Held, Span, Stuck;
    SpanOne(bn);
    if ok {
      SlotTaken(s.d, s.t[inum], e.d, e.t[inum], bn);
    } else {
      NoneTaken(sb, s, inum, bn);
    }
  }

  /** The indirect block is there, new or not. */
  lemma IndirectTaken(sb: Superblock, s: Snap, e: Snap, inum: nat, bn: nat)
    requires Shape(sb, s, inum) && Shape(sb, e, inum) && NDIRECT <= bn < MAXFILE && Ref(e.d, e.t[inum], MAXFILE) != 0
    requires forall j :: 0 <= j < MAXFILE ==> Ref(e.d, e.t[inum], j) == Ref(s.d, s.t[inum], j)
    ensures Held(e.d, e.t[inum]) == Held(s.d, s.t[inum]) + {MAXFILE}
    ensures Ref(e.d, e.t[inum], bn) != 0 ==> Held(e.d, e.t[inum]) == Held(s.d, s.t[inum]) + Span(bn, bn + 1)
  {
    hide Consistent, Ref;
    SpanOne(bn);
  }

  /** The word of the indirect block was empty. */
  lemma WordTakenOr(sb: Superblock, s: Snap, m: Snap, e: Snap, inum: nat, bn: nat, ok: bool)
    requires Shape(sb, s, inum) && Shape(sb, m, inum) && NDIRECT <= bn < MAXFILE && m.t[inum].addrs[NDIRECT] != 0
    requires Held(m.d, m.t[inum]) == Held(s.d, s.t[inum]) + {MAXFILE} && Ref(m.d, m.t[inum], bn) == 0
    requires Extended(sb, s.d, s.t, s.o, m.d, m.t, m.o, inum, bn)
    requires !ok ==> e == m && Full(sb, m.d)
    requires ok ==> Shape(sb, e, inum) && Ref(e.d, e.t[inum], bn) != 0
    requires ok ==> Extended(sb, m.d, m.t, m.o, e.d, e.t, e.o, inum, bn)
    ensures ok ==> Held(e.d, e.t[inum]) == Held(s.d, s.t[inum]) + Span(bn, bn + 1)
    ensures !ok ==> Stuck(sb, s, e, inum, bn)
  {
    hide Consistent, Ref, Full, OthersKept, Span, Extended;
    SpanOne(bn);
    assert bn !in Held(m.d, m.t[inum]);
    ExtendedOthers(sb, s, m, inum, bn);
    if ok {
      WordTaken(sb, m, e, inum, bn);
    }
  }

  lemma ExtendedOthers(sb: Superblock, s: Snap, e: Snap, inum: nat, bn: nat)
    requires Extended(sb, s.d, s.t, s.o, e.d, e.t, e.o, inum, bn)
    ensures OthersKept(sb, s.d, s.t, s.o, e.d, e.t, e.o, inum)
  {}

  // ---- writing ----

  /** A write of n bytes at off has reached block hi: it holds what it has passed, and nothing else is new. */
  ghost predicate Passed(sb: Superblock, s0: Snap, s: Snap, inum: nat, lo: nat, hi: nat) {
    && Shape(sb, s0, inum) && Shape(sb, s, inum) && OthersKept(sb, s0.d, s0.t, s0.o, s.d, s.t, s.o, inum)
    && lo <= hi <= MAXFILE
    && Held(s.d, s.t[inum]) == Held(s0.d, s0.t[inum]) + Span(lo, hi)
  }

  lemma PassedShape(sb: Superblock, s0: Snap, s: Snap, inum: nat, lo: nat, hi: nat)
    requires Passed(sb, s0, s, inum, lo, hi)
    ensures Shape(sb, s0, inum) && Shape(sb, s, inum) && s0.t[inum].Valid()
  {}

  lemma PassedNone(sb: Superblock, s: Snap, inum: nat, lo: nat)
    requires Shape(sb, s, inum) && lo <= MAXFILE
    ensures Passed(sb, s, s, inum, lo, lo)
  {
    hide Consistent, Held;
    OthersKeptRefl(sb, s.d, s.t, s.o, inum);
  }

  lemma PassedMore(sb: Superblock, s0: Snap, s: Snap, e: Snap, inum: nat, lo: nat, bn: nat)
    requires Passed(sb, s0, s, inum, lo, bn) && bn < MAXFILE && Shape(sb, e, inum)
    requires OthersKept(sb, s.d, s.t, s.o, e.d, e.t, e.o, inum)
    requires Held(e.d, e.t[inum]) == Held(s.d, s.t[inum]) + Span(bn, bn + 1)
    ensures Passed(sb, s0, e, inum, lo, bn + 1)
  {
    hide Consistent, Held, OthersKept, Span;
    OthersKeptTrans(sb, s0.d, s0.t, s0.o, s.d, s.t, s.o, e.d, e.t, e.o, inum);
    SpanMore(lo, bn);
  }

  lemma PassedTurn(sb: Superblock, s0: Snap, s: Snap, e: Snap, inum: nat, lo: nat, bn: nat, addr: nat)
    requires Passed(sb, s0, s, inum, lo, bn) && bn < MAXFILE && Shape(sb, s, inum) && Shape(sb, e, inum)
    requires Bmapped(sb, s, e, inum, bn) && addr == Ref(e.d, e.t[inum], bn)
    requires Held(e.d, e.t[inum]) == Held(s.d, s.t[inum]) + Span(bn, bn + 1)
    ensures Passed(sb, s0, e, inum, lo, bn + 1) && 0 < addr < |e.d|
  {
    hide Consistent, Held, Extended, Span, Ref, Passed;
    ExtendedOthers(sb, s, e, inum, bn);
    PassedMore(sb, s0, s, e, inum, lo, bn);
    OwnedRef(sb, e.d, e.t, e.o, inum, bn);
  }

  lemma ReachNext(off: nat, tot: nat, n: nat)
    requires tot < n && (tot == 0 || (off + tot) % BSIZE == 0)
    ensures var m := ChunkSize(off, tot, n);
            && (off + tot) / BSIZE + 1 == (if tot + m < n then (off + tot + m) / BSIZE else Reach(off, n))
            && (tot + m < n ==> (off + tot + m) % BSIZE == 0)
  {}

  /** Writing into a block that is held. */
  lemma PassedWrite(sb: Superblock, s0: Snap, s: Snap, inum: nat, lo: nat, hi: nat, bn: nat, v: Block, l: set<nat>)
    requires Passed(sb, s0, s, inum, lo, hi) && bn < MAXFILE && 0 < Ref(s.d, s.t[inum], bn) < |s.d|
    ensures Passed(sb, s0, Snap(s.d[Ref(s.d, s.t[inum], bn) := v], s.t, s.o, l), inum, lo, hi)
  {
    hide Consistent, OthersKept, Ref, Span, ByteAt;
    BytesPatched(sb, s.d, s.t, s.o, inum, bn, v);
    var e := s.d[Ref(s.d, s.t[inum], bn) := v];
    OthersKeptTrans(sb, s0.d, s0.t, s0.o, s.d, s.t, s.o, e, s.t, s.o, inum);
    assert Held(e, s.t[inum]) == Held(s.d, s.t[inum]);
  }

  /** One turn of writei's loop. */
  lemma PassedChunk(sb: Superblock, s0: Snap, s: Snap, e: Snap, inum: nat, lo: nat, bn: nat, off0: nat, tot: nat,
                    src: seq<byte>)
    requires Passed(sb, s0, s, inum, lo, bn) && bn < MAXFILE && Shape(sb, s, inum) && Shape(sb, e, inum)
    requires tot < |src| && bn == (off0 + tot) / BSIZE && (tot == 0 || (off0 + tot) % BSIZE == 0)
    requires Bmapped(sb, s, e, inum, bn)
    requires Held(e.d, e.t[inum]) == Held(s.d, s.t[inum]) + Span(bn, bn + 1)
    ensures Ref(e.d, e.t[inum], bn) < |e.d|
    ensures Passed(sb, s0, Patched(e, inum, off0, tot, src), inum, lo, bn + 1)
    ensures var m := ChunkSize(off0, tot, |src|);
            && bn + 1 == (if tot + m < |src| then (off0 + tot + m) / BSIZE else Reach(off0, |src|))
            && (tot + m < |src| ==> (off0 + tot + m) % BSIZE == 0)
  {
    hide Consistent, Held, Span, Ref, Passed, Bmapped, Patch, Reach;
    var addr := Ref(e.d, e.t[inum], bn);
    PassedTurn(sb, s0, s, e, inum, lo, bn, addr);
    PassedWrite(sb, s0, e, inum, lo, bn + 1, bn, Patched(e, inum, off0, tot, src).d[addr], e.l + {addr});
    ReachNext(off0, tot, |src|);
  }

  /** bmap found the block, and the chunk was copied into it and logged. */
  lemma ChunkDone(sb: Superblock, s0: Snap, s: Snap, e: Snap, inum: nat, off0: nat, tot: nat, src: seq<byte>, c: Count)
    requires Writing(sb, s0, s, inum, off0, tot, src, c) && tot < |src| && Shape(sb, s, inum) && Shape(sb, e, inum)
    requires off0 + |src| <= MAXFILE * BSIZE && (tot == 0 || (off0 + tot) % BSIZE == 0)
    requires Passed(sb, s0, s, inum, off0 / BSIZE, (off0 + tot) / BSIZE)
    requires Bmapped(sb, s, e, inum, (off0 + tot) / BSIZE)
    requires Held(e.d, e.t[inum]) == Held(s.d, s.t[inum]) + Span((off0 + tot) / BSIZE, (off0 + tot) / BSIZE + 1)
    requires LoggedOnly(sb, s0.d, s0.l, s.d, s.l) && LoggedOnly(sb, s.d, s.l, e.d, e.l)
    ensures Ref(e.d, e.t[inum], (off0 + tot) / BSIZE) < |e.d|
    ensures var f, m, bn := Patched(e, inum, off0, tot, src), ChunkSize(off0, tot, |src|), (off0 + tot) / BSIZE;
            && Shape(sb, f, inum) && f.t[inum] == s.t[inum].(addrs := f.t[inum].addrs)
            && Writing(sb, s0, f, inum, off0, tot + m, src,
                       Counted(sb, c, Ref(e.d, e.t[inum], bn), Ref(s.d, s.t[inum], bn) == 0))
            && Passed(sb, s0, f, inum, off0 / BSIZE, bn + 1)
            && LoggedOnly(sb, s0.d, s0.l, f.d, f.l)
  {
    hide Consistent, Held, Span, Ref, Passed, Writing, LoggedOnly, Patch, Reach, InodeAt;
    var bn, addr := (off0 + tot) / BSIZE, Ref(e.d, e.t[inum], (off0 + tot) / BSIZE);
    PassedChunk(sb, s0, s, e, inum, off0 / BSIZE, bn, off0, tot, src);
    WritingStep(sb, s0, s, e, inum, off0, tot, src, c);
    OwnedRef(sb, e.d, e.t, e.o, inum, bn);
    LoggedThen(sb, s0.d, s0.l, s.d, s.l, e.d, e.l);
    var f := Patched(e, inum, off0, tot, src);
    LoggedOne(sb, e.d, e.l, addr, f.d[addr]);
    LoggedThen(sb, s0.d, s0.l, e.d, e.l, f.d, f.l);
  }

  /** At the end there were enough free blocks. */
  lemma EnoughLeft(sb: Superblock, s0: Snap, s: Snap, inum: nat, off: nat, n: nat)
    requires off + n <= MAXFILE * BSIZE && Passed(sb, s0, s, inum, off / BSIZE, Reach(off, n))
    ensures |Needed(s0.d, s0.t[inum], off, n)| <= |Free(sb, s0.d)|
    ensures |Free(sb, s.d)| == |Free(sb, s0.d)| - |Needed(s0.d, s0.t[inum], off, n)|
  {
    hide Consistent, OthersKept, Held, Span, Free;
    Conserved(sb, s0, s, inum);
    var a, b := Held(s0.d, s0.t[inum]), Needed(s0.d, s0.t[inum], off, n);
    assert a + b == Held(s.d, s.t[inum]) && a !! b;
  }

  /** When it got stuck at block bn, there were not. */
  lemma TooFew(sb: Superblock, s0: Snap, s: Snap, e: Snap, inum: nat, off: nat, n: nat, bn: nat)
    requires off + n <= MAXFILE * BSIZE && Passed(sb, s0, s, inum, off / BSIZE, bn) && bn < Reach(off, n)
    requires Stuck(sb, s, e, inum, bn)
    ensures |Needed(s0.d, s0.t[inum], off, n)| > |Free(sb, s0.d)|
  {
    hide Consistent, OthersKept, Held, Free, Full;
    ReachFits(off, n);
    OthersKeptTrans(sb, s0.d, s0.t, s0.o, s.d, s.t, s.o, e.d, e.t, e.o, inum);
    Conserved(sb, s0, e, inum);
    FullIsNone(sb, e.d);
    var a, b, h := Held(s0.d, s0.t[inum]), Needed(s0.d, s0.t[inum], off, n), Held(e.d, e.t[inum]);
    assert h < a + b by {
      assert bn in b && bn !in h;
    }
    StrictSize(h, a + b);
    assert a !! b;
  }

  lemma StuckIsFull(sb: Superblock, s: Snap, e: Snap, inum: nat, bn: nat)
    requires Shape(sb, s, inum) && Stuck(sb, s, e, inum, bn)
    ensures Full(sb, e.d)
  {}

  lemma StrictSize(a: set<nat>, b: set<nat>)
    requires a < b
    ensures |a| < |b|
  {
    var x :| x in b && x !in a;
    SubsetSize(a, b - {x});
  }
}
