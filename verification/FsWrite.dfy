/** The loop invariant of writei, and what one turn of its loop does to it. */
module FsWrite {
  import opened Bytes
  import opened FsSpec
  import opened FsSteps

  /** The state of the file system at one moment: blocks, inodes, owners, blocks logged. */
  datatype Snap = Snap(d: Disk, t: seq<Dinode>, o: map<nat, Slot>, l: set<nat>)

  /** Data blocks and bitmap blocks met so far, for the count of logged blocks. */
  datatype Count = Count(data: set<nat>, maps: set<nat>, n: nat)

  ghost predicate Shape(sb: Superblock, s: Snap, inum: nat) {
    Consistent(sb, s.d, s.t, s.o) && sb.Valid() && TableValid(sb, s.t) && 1 <= inum < sb.ninodes && |s.d| == sb.size
  }

  /** tot bytes of src have been written at offset off0, starting from s0. */
  ghost predicate Writing(sb: Superblock, s0: Snap, s: Snap, inum: nat, off0: nat, tot: nat, src: seq<byte>, c: Count) {
    && Shape(sb, s0, inum) && Shape(sb, s, inum)
    && s.t[inum] == s0.t[inum].(addrs := s.t[inum].addrs)
    && tot <= |src| && off0 <= s0.t[inum].size && off0 + |src| <= MAXFILE * BSIZE
    && OthersKept(sb, s0.d, s0.t, s0.o, s.d, s.t, s.o, inum)
    && InodeAt(sb, s.d, inum) == InodeAt(sb, s0.d, inum)
    && (tot == 0 || tot == |src| || (off0 + tot) % BSIZE == 0)
    && Tally(sb, s.l, s0.l, c.data, c.maps, s.t[inum].addrs[NDIRECT], Touched(off0, tot), c.n)
    && (Mapped(s0.d, s0.t[inum]) ==>
          && Progress(s0.d, s0.t[inum], s.d, s.t[inum], off0, off0 + tot, src)
          && (off0 + |src| <= s0.t[inum].size ==> s.t == s0.t)
          && c.n <= Touched(off0, tot) - (if off0 % BSIZE != 0 && tot > 0 then 1 else 0))
  }

  lemma WritingStart(sb: Superblock, s: Snap, inum: nat, off0: nat, src: seq<byte>)
    requires Shape(sb, s, inum) && off0 <= s.t[inum].size && off0 + |src| <= MAXFILE * BSIZE
    ensures Writing(sb, s, s, inum, off0, 0, src, Count({}, {}, 0))
  {}

  /** bmap went from s to e; the blocks it logged depend on whether the block was there. */
  ghost predicate Bmapped(sb: Superblock, s: Snap, e: Snap, inum: nat, bn: nat)
    requires Shape(sb, s, inum) && Shape(sb, e, inum)
  {
    && bn < MAXFILE && Ref(e.d, e.t[inum], bn) != 0
    && e.t[inum] == s.t[inum].(addrs := e.t[inum].addrs)
    && Extended(sb, s.d, s.t, s.o, e.d, e.t, e.o, inum, bn)
    && (if Ref(s.d, s.t[inum], bn) != 0 then e == s
        else
          var addr := Ref(e.d, e.t[inum], bn);
          e.l == s.l + {addr, sb.BBlock(addr)} + IndirectLogs(sb, s.t[inum], e.t[inum], bn))
  }

  function ChunkSize(off0: nat, tot: nat, n: nat): (m: nat)
    requires tot < n
    ensures 0 < m <= n - tot
  {
    var room := BSIZE - (off0 + tot) % BSIZE;
    if n - tot < room then n - tot else room
  }

  function Patched(e: Snap, inum: nat, off0: nat, tot: nat, src: seq<byte>): Snap
    requires tot < |src| && inum < |e.t| && e.t[inum].Valid() && (off0 + tot) / BSIZE < MAXFILE
    requires Ref(e.d, e.t[inum], (off0 + tot) / BSIZE) < |e.d|
  {
    var off, m := off0 + tot, ChunkSize(off0, tot, |src|);
    var addr := Ref(e.d, e.t[inum], off / BSIZE);
    Snap(e.d[addr := Patch(e.d[addr], off % BSIZE, src[tot..tot + m])], e.t, e.o, e.l + {addr})
  }

  function Counted(sb: Superblock, c: Count, addr: nat, took: bool): Count {
    if took then Count(c.data + {addr}, c.maps + {sb.BBlock(addr)}, c.n + 1) else c.(data := c.data + {addr})
  }

  /** One turn of the loop: bmap, then copy a chunk into the block and log it. */
  lemma WritingStep(sb: Superblock, s0: Snap, s: Snap, e: Snap, inum: nat, off0: nat, tot: nat, src: seq<byte>,
                    c: Count)
    requires Writing(sb, s0, s, inum, off0, tot, src, c) && tot < |src|
    requires Shape(sb, e, inum) && Bmapped(sb, s, e, inum, (off0 + tot) / BSIZE)
    ensures var bn := (off0 + tot) / BSIZE;
            var addr := Ref(e.d, e.t[inum], bn);
            && addr < |e.d| && Shape(sb, Patched(e, inum, off0, tot, src), inum)
            && Writing(sb, s0, Patched(e, inum, off0, tot, src), inum, off0, tot + ChunkSize(off0, tot, |src|), src,
                 Counted(sb, c, addr, Ref(s.d, s.t[inum], bn) == 0))
  {
    hide Consistent, Ref, ByteAt, InodeAt, OthersKept, Progress, Tally, Patch, Touched, Extended;
    var off, m := off0 + tot, ChunkSize(off0, tot, |src|);
    var bn := off / BSIZE;
    assert off == bn * BSIZE + off % BSIZE;
    var addr := Ref(e.d, e.t[inum], bn);
    OwnedRef(sb, e.d, e.t, e.o, inum, bn);
    WritingKept(sb, s0, s, e, inum, off0, tot, src, c);
    WritingCount(sb, s0, s, e, inum, off0, tot, src, c);
    if Mapped(s0.d, s0.t[inum]) {
      WritingBytes(sb, s0, s, e, inum, off0, tot, src, c);
    }
  }

  lemma WritingKept(sb: Superblock, s0: Snap, s: Snap, e: Snap, inum: nat, off0: nat, tot: nat, src: seq<byte>,
                    c: Count)
    requires Writing(sb, s0, s, inum, off0, tot, src, c) && tot < |src|
    requires Shape(sb, e, inum) && Bmapped(sb, s, e, inum, (off0 + tot) / BSIZE)
    requires Ref(e.d, e.t[inum], (off0 + tot) / BSIZE) < |e.d|
    ensures var f := Patched(e, inum, off0, tot, src);
            && Shape(sb, f, inum)
            && OthersKept(sb, s0.d, s0.t, s0.o, f.d, f.t, f.o, inum)
            && InodeAt(sb, f.d, inum) == InodeAt(sb, s0.d, inum)
  {
    hide Consistent, Ref, ByteAt, InodeAt, OthersKept, Progress, Tally, Patch, Touched;
    var f := Patched(e, inum, off0, tot, src);
    var bn := (off0 + tot) / BSIZE;
    BytesPatched(sb, e.d, e.t, e.o, inum, bn, f.d[Ref(e.d, e.t[inum], bn)]);
    OthersKeptTrans(sb, s0.d, s0.t, s0.o, s.d, s.t, s.o, e.d, e.t, e.o, inum);
    OthersKeptTrans(sb, s0.d, s0.t, s0.o, e.d, e.t, e.o, f.d, f.t, f.o, inum);
  }

  lemma WritingBytes(sb: Superblock, s0: Snap, s: Snap, e: Snap, inum: nat, off0: nat, tot: nat, src: seq<byte>,
                     c: Count)
    requires Writing(sb, s0, s, inum, off0, tot, src, c) && tot < |src| && Mapped(s0.d, s0.t[inum])
    requires Shape(sb, e, inum) && Bmapped(sb, s, e, inum, (off0 + tot) / BSIZE)
    requires Ref(e.d, e.t[inum], (off0 + tot) / BSIZE) < |e.d|
    ensures var f, m := Patched(e, inum, off0, tot, src), ChunkSize(off0, tot, |src|);
            && Progress(s0.d, s0.t[inum], f.d, f.t[inum], off0, off0 + tot + m, src)
            && (off0 + |src| <= s0.t[inum].size ==> f.t == s0.t)
            && (Ref(s.d, s.t[inum], (off0 + tot) / BSIZE) == 0 ==> tot > 0 || off0 % BSIZE == 0)
  {
    hide Consistent, Ref, ByteAt, InodeAt, OthersKept, Progress, Tally, Patch, Touched, Extended;
    var off, m := off0 + tot, ChunkSize(off0, tot, |src|);
    var bn := off / BSIZE;
    assert off == bn * BSIZE + off % BSIZE;
    ExtendedKeeps(sb, s.d, s.t, s.o, e.d, e.t, e.o, inum, bn);
    ProgressMapped(s0.d, s0.t[inum], s.d, s.t[inum], off0, off, src, bn);
    ProgressBmap(sb, s0.d, s0.t[inum], s.d, s.t, s.o, e.d, e.t[inum], inum, off0, off, src);
    ProgressChunk(sb, s0.d, s0.t[inum], e.d, e.t, e.o, inum, off0, off, src, m);
  }

  lemma WritingCount(sb: Superblock, s0: Snap, s: Snap, e: Snap, inum: nat, off0: nat, tot: nat, src: seq<byte>,
                     c: Count)
    requires Writing(sb, s0, s, inum, off0, tot, src, c) && tot < |src|
    requires Shape(sb, e, inum) && Bmapped(sb, s, e, inum, (off0 + tot) / BSIZE)
    ensures var m := ChunkSize(off0, tot, |src|);
            var bn := (off0 + tot) / BSIZE;
            var addr := Ref(e.d, e.t[inum], bn);
            var k := Counted(sb, c, addr, Ref(s.d, s.t[inum], bn) == 0);
            && Touched(off0, tot + m) == Touched(off0, tot) + 1
            && (tot + m == |src| || (off0 + tot + m) % BSIZE == 0)
            && Tally(sb, e.l + {addr}, s0.l, k.data, k.maps, e.t[inum].addrs[NDIRECT], Touched(off0, tot + m), k.n)
  {
    hide Consistent, Ref, ByteAt, InodeAt, OthersKept, Progress, Tally, Touched, Extended;
    var m, bn := ChunkSize(off0, tot, |src|), (off0 + tot) / BSIZE;
    var addr := Ref(e.d, e.t[inum], bn);
    TouchedStep(off0, tot, m);
    ExtendedKeeps(sb, s.d, s.t, s.o, e.d, e.t, e.o, inum, bn);
    ExtendedIndirect(sb, s.d, s.t, s.o, e.d, e.t, e.o, inum, bn);
    if Ref(s.d, s.t[inum], bn) == 0 {
      TallyAllocated(sb, s.l, s0.l, c.data, c.maps, Touched(off0, tot), c.n, addr, s.t[inum], e.t[inum], bn);
    } else {
      TallyMapped(sb, s.l, s0.l, c.data, c.maps, s.t[inum].addrs[NDIRECT], Touched(off0, tot), c.n, addr);
    }
  }

  lemma ExtendedIndirect(sb: Superblock, d: Disk, table: seq<Dinode>, own: map<nat, Slot>,
                         e: Disk, t: seq<Dinode>, o: map<nat, Slot>, inum: nat, bn: nat)
    requires Extended(sb, d, table, own, e, t, o, inum, bn)
    ensures table[inum].addrs[NDIRECT] != 0 ==> t[inum].addrs[NDIRECT] == table[inum].addrs[NDIRECT]
  {}

  /** When the loop is done: the file reads as the overwritten one, and few blocks were logged. */
  lemma WritingEnd(sb: Superblock, s0: Snap, s: Snap, inum: nat, off0: nat, src: seq<byte>, c: Count, di: Dinode)
    requires Writing(sb, s0, s, inum, off0, |src|, src, c)
    requires di == s.t[inum].(size := if off0 + |src| > s.t[inum].size then off0 + |src| else s.t[inum].size)
    ensures di.Valid()
    ensures Mapped(s0.d, s0.t[inum]) ==>
              Mapped(s.d, di) && Content(s.d, di) == Overwrite(Content(s0.d, s0.t[inum]), off0, src)
    ensures Mapped(s0.d, s0.t[inum]) && s0.l == {} && src != [] ==> |s.l| <= WriteBound(off0, |src|)
  {
    hide Consistent, Ref, ByteAt, InodeAt, OthersKept, Progress, Tally;
    if Mapped(s0.d, s0.t[inum]) {
      ProgressDone(s0.d, s0.t[inum], s.d, s.t[inum], di, off0, src);
    }
    if s0.l == {} {
      TallySize(sb, s.l, c.data, c.maps, s.t[inum].addrs[NDIRECT], Touched(off0, |src|), c.n);
    }
  }

  lemma WritingFrame(sb: Superblock, s0: Snap, s: Snap, inum: nat, off0: nat, src: seq<byte>, c: Count)
    requires Writing(sb, s0, s, inum, off0, |src|, src, c)
    ensures Shape(sb, s, inum) && OthersKept(sb, s0.d, s0.t, s0.o, s.d, s.t, s.o, inum)
    ensures InodeAt(sb, s.d, inum) == InodeAt(sb, s0.d, inum)
    ensures Mapped(s0.d, s0.t[inum]) && off0 + |src| <= s0.t[inum].size ==> s.t == s0.t
  {
    hide Consistent, Ref, InodeAt, OthersKept;
  }

  /** Truncating, then saving, still leaves the other inodes untouched. */
  lemma UntouchedTwice(sb: Superblock, s0: Snap, s1: Snap, s2: Snap, inum: nat)
    requires Untouched(sb, s0.d, s0.t, s0.o, s1.d, s1.t, inum) && s1.o == Without(s0.o, inum, MAXFILE + 1)
    requires OthersKept(sb, s1.d, s1.t, s1.o, s2.d, s2.t, s2.o, inum)
    ensures Untouched(sb, s0.d, s0.t, s0.o, s2.d, s2.t, inum)
  {}
}
