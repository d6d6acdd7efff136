/** mkfs.c: the image a fresh file system starts from. */
module Mkfs {
  import opened Bytes
  import opened FsSpec
  import opened FsSteps
  import opened FsWrite
  import opened FsSpace
  import opened LogSpec

  const FSSIZE: nat := 1000
  const NINODES: nat := 200
  const NLOG: nat := 30
  const NINODEBLOCKS: nat := NINODES / IPB + 1
  const NBITMAP: nat := FSSIZE / BPB + 1
  const NMETA: nat := 2 + NLOG + NINODEBLOCKS + NBITMAP
  const SB := Superblock(FSSIZE, NINODES, 2 + NLOG, 2 + NLOG + NINODEBLOCKS, NMETA)
  const T_DIR: nat := 1
  const T_FILE: nat := 2
  const DIRSIZ: nat := 14

  // ---- the bitmap written at the end ----

  /** The bitmap block after the first k turns of balloc's loop. */
  function BitmapK(k: nat): Block
    requires k <= BPB
  {
    if k == 0 then ZeroBlock() else BitmapK(k - 1)[(k - 1) / 8 := SetBit(BitmapK(k - 1)[(k - 1) / 8], (k - 1) % 8)]
  }

  /** The disk as it will be once blocks 0 .. used are marked in use. */
  function Marked(d: Disk, used: nat): (e: Disk)
    requires |d| == FSSIZE && used <= FSSIZE
    ensures |e| == |d|
  {
    d[SB.bmapstart := BitmapK(used)]
  }

  /** Taking the next free block is what balloc does to the marked disk. */
  lemma TakeNext(d: Disk, used: nat)
    requires |d| == FSSIZE && NMETA <= used < FSSIZE && d[used] == ZeroBlock()
    ensures SB.Valid() && Allocated(SB, Marked(d, used), used) == Marked(d, used + 1)
  {}

  lemma {:induction false} BitmapBits(k: nat, b: nat)
    requires k <= BPB && b < BPB
    ensures TestBit(BitmapK(k)[b / 8], b % 8) <==> b < k
  {
    hide SetBit, TestBit;
    if k > 0 {
      BitmapBits(k - 1, b);
      BitLaws(BitmapK(k - 1)[(k - 1) / 8], (k - 1) % 8, b % 8);
      assert b / 8 == (k - 1) / 8 && b % 8 == (k - 1) % 8 ==> b == k - 1;
    } else {
      ZeroBits(b % 8);
    }
  }

  lemma {:induction false} ZeroBits(k: nat)
    ensures !TestBit(0, k)
  {
    if k > 0 {
      ZeroBits(k - 1);
    }
  }

  // ---- an empty disk ----

  function Zeroes(): (d: Disk)
    ensures |d| == FSSIZE && forall i :: 0 <= i < FSSIZE ==> d[i] == ZeroBlock()
  {
    seq(FSSIZE, _ => ZeroBlock())
  }

  lemma ZeroInode(d: Disk, i: nat)
    requires SB.Valid() && |d| == FSSIZE && i < NINODES && d[SB.IBlock(i)] == ZeroBlock()
    ensures InodeAt(SB, d, i) == FreeInode()
  {
    hide Word;
    var ws := BlockWords(d[SB.IBlock(i)], 16 * (i % IPB), 16);
    forall k | 0 <= k < 16 ensures ws[k] == 0 {
      ZeroWord(16 * (i % IPB) + k);
    }
    assert ws[3..] == FreeInode().addrs;
  }

  /** struct superblock: size, nblocks, ninodes, nlog, logstart, inodestart, bmapstart. */
  function SuperBlock(): Block {
    PutWords(ZeroBlock(), 0, [FSSIZE, FSSIZE - NMETA, NINODES, NLOG, 2, SB.inodestart, SB.bmapstart])
  }

  /** What the kernel reads back from it. */
  function ReadSb(b: Block): Superblock {
    Superblock(Word(b, 0), Word(b, 2), Word(b, 5), Word(b, 6), if Word(b, 1) <= Word(b, 0) then Word(b, 0) - Word(b,
        1) else 0)
  }

  function ReadLog(b: Block): Geometry {
    Geometry(Word(b, 4), Word(b, 3), Word(b, 0))
  }

  const LOG := Geometry(2, NLOG, FSSIZE)

  lemma SuperRoundTrip()
    ensures ReadSb(SuperBlock()) == SB && ReadLog(SuperBlock()) == LOG
  {
    hide Word, SetWord, PutWords;
    var ws := [FSSIZE, FSSIZE - NMETA, NINODES, NLOG, 2, SB.inodestart, SB.bmapstart];
    forall j | 0 <= j < 7 ensures Word(SuperBlock(), j) == ws[j] {
      PutWordsGet(ZeroBlock(), 0, ws, j);
    }
  }

  /** The sectors before the inodes: the superblock, and an empty log. */
  ghost predicate Front(d: Disk) {
    |d| == FSSIZE && d[1] == SuperBlock() && forall x :: 2 <= x < SB.inodestart ==> d[x] == ZeroBlock()
  }

  /** An empty file system. */
  function Blank(): (d: Disk)
    ensures |d| == FSSIZE
  {
    Zeroes()[1 := SuperBlock()]
  }

  lemma ZeroesQuiet()
    ensures SB.Valid() && Quiet(SB, Marked(Blank(), NMETA), map[]) && Front(Blank())
    ensures forall i :: 0 <= i < NINODES ==> InodeAt(SB, Marked(Blank(), NMETA), i) == FreeInode()
  {
    hide InodeAt, BitmapK, SuperBlock;
    var d := Marked(Blank(), NMETA);
    forall i | 0 <= i < NINODES ensures InodeAt(SB, d, i) == FreeInode() {
      assert SB.IBlock(i) < SB.bmapstart;
      ZeroInode(d, i);
    }
    forall b | 0 <= b < FSSIZE ensures Bit(SB, d, b) <==> b < NMETA {
      BitmapBits(NMETA, b);
      assert SB.BBlock(b) == SB.bmapstart && b % BPB == b;
    }
    forall i, k | 1 <= i < NINODES && 0 <= k <= MAXFILE ensures Ref(d, DiskTable(SB, d)[i], k) == 0 {}
  }

  // ---- the program ----

  const ROOTINO: nat := 1

  datatype Source = Source(name: seq<byte>, chunks: seq<seq<byte>>)

  /** struct dirent: a 16-bit inode number and a name of DIRSIZ bytes, zero padded. */
  function Dirent(inum: nat, name: seq<byte>): (d: seq<byte>)
    ensures |d| == 2 + DIRSIZ
  {
    [inum % 256, inum / 256 % 256] + seq(DIRSIZ, i requires 0 <= i < DIRSIZ => if i < |name| then name[i] else 0)
  }

  function Flatten(chunks: seq<seq<byte>>): seq<byte> {
    if chunks == [] then [] else Flatten(chunks[..|chunks| - 1]) + chunks[|chunks| - 1]
  }

  /** A file has exactly the blocks its size needs. */
  ghost predicate ExactlyMapped(d: Disk, di: Dinode)
    requires di.Valid()
  {
    di.size <= MAXFILE * BSIZE && (ReachFits(0, di.size); Held(d, di) == Span(0, Reach(0, di.size)))
  }

  /** The blocks a file of n bytes takes, the indirect one among them. */
  function BlocksFor(n: nat): nat {
    var k := (n + BSIZE - 1) / BSIZE;
    if k > NDIRECT then k + 1 else k
  }

  lemma ReachIs(n: nat)
    ensures Reach(0, n) == (n + BSIZE - 1) / BSIZE
  {}

  lemma {:induction false} SpanSize(k: nat)
    requires k <= MAXFILE
    ensures |Span(0, k)| == if k > NDIRECT then k + 1 else k
  {
    hide Span;
    if k == 0 {
      assert Span(0, 0) == {} by { SpanNext(0); }
    } else {
      SpanSize(k - 1);
      SpanNext(k);
    }
  }

  lemma SpanNext(k: nat)
    requires k <= MAXFILE
    ensures k == 0 ==> Span(0, k) == {}
    ensures k > 0 ==> Span(0, k) == Span(0, k - 1) + (if k - 1 == NDIRECT then {k - 1, MAXFILE} else {k - 1})
    ensures k > 0 ==> k - 1 !in Span(0, k - 1) && (k - 1 == NDIRECT ==> MAXFILE !in Span(0, k - 1))
  {}

  lemma ExactIs(d: Disk, di: Dinode)
    requires di.Valid() && ExactlyMapped(d, di)
    ensures Mapped(d, di) && |Held(d, di)| == BlocksFor(di.size)
    ensures forall k :: 0 <= k < MAXFILE && Ref(d, di, k) != 0 ==> k * BSIZE < di.size
  {
    hide Ref;
    ReachFits(0, di.size);
    ReachIs(di.size);
    SpanSize(Reach(0, di.size));
    forall k: nat | k < MAXFILE ensures Ref(d, di, k) != 0 <==> k * BSIZE < di.size {
      assert k in Held(d, di) <==> InSpan(0, Reach(0, di.size), k);
    }
  }

  lemma SameHeld(d: Disk, di: Dinode, e: Disk, dj: Dinode)
    requires di.Valid() && dj.Valid() && forall k :: 0 <= k <= MAXFILE ==> Ref(e, dj, k) == Ref(d, di, k)
    ensures Held(e, dj) == Held(d, di)
  {
    hide Ref;
  }

  class Maker {
    var disk: Disk
    var freeinode: nat
    var freeblock: nat
    ghost var own: map<nat, Slot>

    ghost function Now(table: seq<Dinode>): Snap
      reads this
      requires |disk| == FSSIZE && freeblock <= FSSIZE
    {
      Snap(Marked(disk, freeblock), table, own, {})
    }

    /** The blocks not yet taken are zero, and so are the inodes not yet taken. */
    ghost predicate Room()
      reads this
    {
      && Front(disk) && NMETA <= freeblock <= FSSIZE && 1 <= freeinode <= NINODES
      && forall x :: freeblock <= x < FSSIZE ==> disk[x] == ZeroBlock()
    }

    ghost predicate Valid()
      reads this
    {
      && Room() && SB.Valid()
      && var d := Marked(disk, freeblock);
         && Quiet(SB, d, own)
         && Files(d, freeinode)
    }

    ghost function Inode(i: nat): Dinode
      reads this
      requires Valid() && i < NINODES
    {
      InodeAt(SB, Marked(disk, freeblock), i)
    }

    /** The contents of file i. */
    ghost function Bytes(i: nat): seq<byte>
      reads this
      requires Valid() && 1 <= i < NINODES
    {
      Content(Marked(disk, freeblock), Inode(i))
    }

    constructor ()
      ensures Valid() && freeinode == 1 && freeblock == NMETA
    {
      ZeroesQuiet();
      disk, freeinode, freeblock, own := Blank(), 1, NMETA, map[];
    }

    method Winode(inum: nat, di: Dinode)
      requires |disk| == FSSIZE && inum < NINODES && di.Valid() && SB.Valid() && freeblock <= FSSIZE
      modifies this`disk
      ensures disk == PutInode(SB, old(disk), inum, di)
      ensures Marked(disk, freeblock) == PutInode(SB, Marked(old(disk), freeblock), inum, di)
      ensures forall x :: (0 <= x < SB.inodestart || NMETA <= x < FSSIZE) ==> disk[x] == old(disk)[x]
    {
      hide PutWords, BitmapK;
      assert SB.IBlock(inum) < SB.bmapstart;
      disk := disk[SB.IBlock(inum) := PutWords(disk[SB.IBlock(inum)], 16 * (inum % IPB), di.Words())];
    }

    /** ok == false: the inode table is full. mkfs does not check; it would write over the bitmap block. */
    method Ialloc(kind: nat) returns (inum: nat, ok: bool)
      requires Valid() && 0 < kind < 65536
      modifies this`disk, this`freeinode
      ensures ok <==> old(freeinode) < NINODES
      ensures ok ==> Valid() && inum == old(freeinode) && freeinode == old(freeinode) + 1
      ensures ok ==> Inode(inum) == FreeInode().(kind := kind, nlink := 1)
      ensures ok ==> forall i :: 1 <= i < inum ==> Inode(i) == old(Inode(i)) && Bytes(i) == old(Bytes(i))
    {
      hide Ref, Bit, InodeAt, Consistent, PutInode, Content;
      if freeinode == NINODES {
        return 0, false;
      }
      inum := freeinode;
      freeinode := freeinode + 1;
      var din := FreeInode().(kind := kind, nlink := 1);
      ghost var d := Marked(disk, freeblock);
      ghost var t := DiskTable(SB, d);
      Claimed(SB, d, t, own, inum, din);
      Winode(inum, din);
      ghost var e := Marked(disk, freeblock);
      EmptyIsMapped(e, din);
      QuietAgain(SB, d, t, own, e, t[inum := din], own, inum);
      EmptyIsExact(e, din);
      OthersExact(d, t, own, e, t[inum := din], inum);
      assert forall i :: 0 <= i < NINODES ==> InodeAt(SB, e, i) == t[inum := din][i];
      ok := true;
    }

    /** din.addrs[k] = freeblock++, for block bn of the file. */
    method Take(inum: nat, din0: Dinode, k: nat, ghost bn: nat, ghost s: Snap)
      returns (din: Dinode, ghost e: Snap, ok: bool)
      requires Room() && s.d == Marked(disk, freeblock) && s.o == own
      requires Shape(SB, s, inum) && s.t[inum] == din0 && din0.kind != 0
      requires k <= NDIRECT && (k == NDIRECT || bn == k) && din0.addrs[k] == 0
      modifies this`freeblock, this`own
      ensures Room() && e.d == Marked(disk, freeblock) && e.o == own
      ensures !ok ==> Full(SB, s.d) && e == s && din == din0
      ensures ok ==> e.t == s.t[inum := din]
      ensures ok ==> Shape(SB, e, inum) && din == din0.(addrs := din0.addrs[k := old(freeblock)])
      ensures ok ==> e.l == s.l + {din.addrs[k], SB.BBlock(din.addrs[k])} && din.addrs[k] != 0
      ensures ok ==> Ref(e.d, din, AddrSlot(k)) == din.addrs[k]
      ensures ok ==> Extended(SB, s.d, s.t, s.o, e.d, e.t, e.o, inum, bn)
      ensures ok ==> forall j :: 0 <= j <= MAXFILE && j != AddrSlot(k) ==> Ref(e.d, din, j) == Ref(s.d, din0, j)
    {
      hide Bit, Allocated, Word, InodeAt, Extended, Consistent, Ref, BitmapK, Full;
      if freeblock == FSSIZE {
        FullImage(disk);
        return din0, s, false;
      }
      var x := freeblock;
      FreeBit(disk, x);
      TakeNext(disk, x);
      AssignAddr(SB, s.d, s.t, s.o, inum, k, x, bn);
      din := din0.(addrs := din0.addrs[k := x]);
      freeblock := freeblock + 1;
      own := own[x := Slot(inum, AddrSlot(k))];
      e := Snap(Marked(disk, freeblock), s.t[inum := din], own, s.l + {x, SB.BBlock(x)});
      ConsistentShape(SB, e.d, e.t, e.o);
      ok := true;
    }

    /** indirect[fbn - NDIRECT] = freeblock++, and the indirect block written back. */
    method TakeIndirect(inum: nat, din: Dinode, fbn: nat, ghost s: Snap) returns (x: nat, ghost e: Snap, ok: bool)
      requires Room() && s.d == Marked(disk, freeblock) && s.o == own
      requires Shape(SB, s, inum) && s.t[inum] == din && din.kind != 0
      requires NDIRECT <= fbn < MAXFILE && din.addrs[NDIRECT] != 0 && Ref(s.d, din, fbn) == 0
      modifies this`disk, this`freeblock, this`own
      ensures Room() && e.d == Marked(disk, freeblock) && e.o == own
      ensures !ok ==> Full(SB, s.d) && e == s
      ensures ok ==> e.t == s.t && Shape(SB, e, inum) && x != 0 && x == Ref(e.d, din, fbn)
      ensures ok ==> e.l == s.l + {x, SB.BBlock(x)} + {din.addrs[NDIRECT]}
      ensures ok ==> Extended(SB, s.d, s.t, s.o, e.d, e.t, e.o, inum, fbn)
    {
      hide Bit, Allocated, Word, SetWord, InodeAt, Extended, Consistent, Ref, BitmapK, Full;
      if freeblock == FSSIZE {
        FullImage(disk);
        return 0, s, false;
      }
      x := freeblock;
      var ind := din.addrs[NDIRECT];
      RefIs(s.d, din, MAXFILE);
      OwnedRef(SB, s.d, s.t, s.o, inum, MAXFILE);
      OwnedBelow(disk, freeblock, s.t, s.o, ind);
      FreeBit(disk, x);
      TakeNext(disk, x);
      AssignWord(SB, s.d, s.t, s.o, inum, fbn, x);
      freeblock := freeblock + 1;
      disk := disk[ind := SetWord(disk[ind], fbn - NDIRECT, x)];
      own := own[x := Slot(inum, fbn)];
      e := Snap(Marked(disk, freeblock), s.t, own, s.l + {x, SB.BBlock(x)} + {ind});
      assert e.d == Allocated(SB, s.d, x)[ind := SetWord(s.d[ind], fbn - NDIRECT, x)];
      ok := true;
    }

    /** The part of iappend that finds or takes block fbn of the inode held in din. ok == false: the image is full,
        or the assertion fbn < MAXFILE fails. */
    method Blockno(inum: nat, din0: Dinode, fbn: nat, ghost s: Snap)
      returns (x: nat, din: Dinode, ghost e: Snap, ok: bool)
      requires Room() && s.d == Marked(disk, freeblock) && s.o == own
      requires Shape(SB, s, inum) && s.t[inum] == din0 && din0.kind != 0
      modifies this`disk, this`freeblock, this`own
      ensures !ok ==> fbn >= MAXFILE || Stuck(SB, s, e, inum, fbn)
      ensures ok ==> Room() && e.d == Marked(disk, freeblock) && e.o == own && e.t == s.t[inum := din]
      ensures ok ==> Shape(SB, e, inum) && Bmapped(SB, s, e, inum, fbn) && x == Ref(e.d, din, fbn)
      ensures ok ==> Held(e.d, din) == Held(s.d, din0) + Span(fbn, fbn + 1)
    {
      hide Bit, Word, InodeAt, Extended, Consistent, Ref, Marked, Held, Span, Stuck, Full;
      ExtendedRefl(SB, s.d, s.t, s.o, inum, fbn);
      x, e, din := 0, s, din0;
      if fbn >= MAXFILE {
        return 0, din, e, false;
      }
      RefIs(s.d, din0, fbn);
      if fbn < NDIRECT {
        if din.addrs[fbn] == 0 {
          din, e, ok := Take(inum, din, fbn, fbn, s);
          DirectTaken(SB, s, e, inum, fbn, ok);
          if !ok { return; }
        } else {
          FoundHeld(s.d, din0, fbn);
        }
        return din.addrs[fbn], din, e, true;
      }
      if din.addrs[NDIRECT] == 0 {
        din, e, ok := Take(inum, din, NDIRECT, fbn, s);
        if !ok {
          NoneTaken(SB, s, inum, fbn);
          return;
        }
      }
      ghost var m := e;
      var ind := din.addrs[NDIRECT];
      RefIs(m.d, din, MAXFILE);
      RefIs(m.d, din, fbn);
      IndirectTaken(SB, s, m, inum, fbn);
      OwnedRef(SB, m.d, m.t, m.o, inum, MAXFILE);
      MarkedAt(disk, freeblock, ind);
      x := Word(disk[ind], fbn - NDIRECT);
      if x == 0 {
        x, e, ok := TakeIndirect(inum, din, fbn, m);
        WordTakenOr(SB, s, m, e, inum, fbn, ok);
        if !ok { return; }
        ExtendedTrans(SB, s.d, s.t, s.o, m.d, m.t, m.o, e.d, e.t, e.o, inum, fbn);
      }
      ok := true;
    }

    /** One turn of iappend's loop, tot bytes in: the next chunk goes to its block. */
    method AppendChunk(inum: nat, din0: Dinode, p: seq<byte>, off0: nat, tot: nat, ghost s0: Snap, ghost s: Snap,
                       ghost c0: Count)
      returns (m: nat, din: Dinode, ghost f: Snap, ghost c: Count, ok: bool)
      requires Room() && s.d == Marked(disk, freeblock) && s.o == own && Shape(SB, s, inum) && s.t[inum] == din0
      requires din0.kind != 0 && off0 + |p| <= MAXFILE * BSIZE && tot < |p| && (tot == 0 || (off0 + tot) % BSIZE == 0)
      requires Writing(SB, s0, s, inum, off0, tot, p, c0)
      requires Passed(SB, s0, s, inum, off0 / BSIZE, (off0 + tot) / BSIZE)
      modifies this`disk, this`freeblock, this`own
      ensures m == ChunkSize(off0, tot, |p|)
      ensures Shape(SB, s0, inum)
      ensures !ok ==> |Needed(s0.d, s0.t[inum], off0, |p|)| > |Free(SB, s0.d)|
      ensures ok ==> Room() && f.d == Marked(disk, freeblock) && f.o == own && Shape(SB, f, inum) && f.t[inum] == din
      ensures ok ==> Writing(SB, s0, f, inum, off0, tot + m, p, c) && din == din0.(addrs := din.addrs)
      ensures ok ==> Passed(SB, s0, f, inum, off0 / BSIZE, (off0 + tot) / BSIZE + 1)
      ensures (off0 + tot) / BSIZE + 1 == if tot + m < |p| then (off0 + tot + m) / BSIZE else Reach(off0, |p|)
      ensures tot + m < |p| ==> (off0 + tot + m) % BSIZE == 0
    {
      hide Bit, InodeAt, Consistent, Ref, Marked, Writing, Patch, BitmapK, SuperBlock, Passed, Held, Span, Free, Needed,
        Stuck, OthersKept, Bmapped;
      PassedShape(SB, s0, s, inum, off0 / BSIZE, (off0 + tot) / BSIZE);
      ReachNext(off0, tot, |p|);
      var off := off0 + tot;
      var fbn := off / BSIZE;
      m := if |p| - tot < (fbn + 1) * BSIZE - off then |p| - tot else (fbn + 1) * BSIZE - off;
      assert m == ChunkSize(off0, tot, |p|);
      var x;
      ghost var e;
      f, c := s, c0;
      x, din, e, ok := Blockno(inum, din0, fbn, s);
      if !ok {
        ReachFits(off0, |p|);
        TooFew(SB, s0, s, e, inum, off0, |p|, fbn);
        return;
      }
      AppendTurn(disk, freeblock, s0, s, e, inum, off0, tot, p, c0, x);
      disk := disk[x := Patch(disk[x], off % BSIZE, p[tot..tot + m])];
      c := Counted(SB, c0, x, Ref(s.d, din0, fbn) == 0);
      f := Patched(e, inum, off0, tot, p);
    }

    /** The loop of iappend, with the inode in din. */
    method AppendBlocks(inum: nat, din0: Dinode, p: seq<byte>, ghost s0: Snap)
      returns (din: Dinode, ghost s: Snap, ghost c: Count, ok: bool)
      requires Room() && s0.d == Marked(disk, freeblock) && s0.o == own && Shape(SB, s0, inum) && s0.t[inum] == din0
      requires din0.kind != 0 && din0.size + |p| <= MAXFILE * BSIZE
      modifies this`disk, this`freeblock, this`own
      ensures ok <==> |Needed(s0.d, din0, din0.size, |p|)| <= |Free(SB, s0.d)|
      ensures ok ==> Room() && s.d == Marked(disk, freeblock) && s.o == own && inum < |s.t| && s.t[inum] == din
      ensures ok ==> Writing(SB, s0, s, inum, din0.size, |p|, p, c)
      ensures ok ==> Passed(SB, s0, s, inum, din0.size / BSIZE, Reach(din0.size, |p|))
      ensures ok ==> din == din0.(addrs := din.addrs)
    {
      hide Bit, InodeAt, Consistent, Ref, Marked, Writing, Patch, BitmapK, SuperBlock, Passed, Held, Span, Free, Needed;
      s, c, din := s0, Count({}, {}, 0), din0;
      WritingStart(SB, s0, inum, din0.size, p);
      var off0, tot, n := din0.size, 0, |p|;
      ReachFits(off0, n);
      PassedNone(SB, s0, inum, off0 / BSIZE);
      ghost var hi: nat := off0 / BSIZE;
      while tot < n
        invariant tot <= n && Room() && din.Valid() && din == din0.(addrs := din.addrs)
        invariant s.d == Marked(disk, freeblock) && s.o == own && inum < |s.t| && s.t[inum] == din
        invariant Shape(SB, s, inum) && Writing(SB, s0, s, inum, off0, tot, p, c)
        invariant Passed(SB, s0, s, inum, off0 / BSIZE, hi) && (0 < tot < n ==> (off0 + tot) % BSIZE == 0)
        invariant hi == if tot < n then (off0 + tot) / BSIZE else Reach(off0, n)
      {
        var m;
        m, din, s, c, ok := AppendChunk(inum, din, p, off0, tot, s0, s, c);
        if !ok { return; }
        tot, hi := tot + m, hi + 1;
      }
      EnoughLeft(SB, s0, s, inum, off0, n);
      ok := true;
    }

    /** Append p to file inum. ok == false: the image is full or the file too long. */
    method Iappend(inum: nat, p: seq<byte>) returns (ok: bool)
      requires Valid() && 1 <= inum < freeinode
      modifies this`disk, this`freeblock, this`own
      ensures ok <==>
                && old(Inode(inum)).size + |p| <= MAXFILE * BSIZE
                && old(freeblock) + BlocksFor(old(Inode(inum)).size + |p|) <= FSSIZE + BlocksFor(old(Inode(inum)).size)
      ensures ok ==>
                freeblock + BlocksFor(old(Inode(inum)).size)
                == old(freeblock) + BlocksFor(old(Inode(inum)).size + |p|)
      ensures ok ==> Valid() && Bytes(inum) == old(Bytes(inum)) + p
      ensures ok ==> Inode(inum) == old(Inode(inum)).(addrs := Inode(inum).addrs, size := old(Inode(inum)).size + |p|)
      ensures ok ==>
                forall i :: 1 <= i < freeinode && i != inum ==> Inode(i) == old(Inode(i)) && Bytes(i) == old(Bytes(i))
    {
      hide Bit, InodeAt, Consistent, Ref, Marked, Writing, Content, Mapped, BitmapK, ExactlyMapped, Quiet, SuperBlock,
        Passed, Held, Span, Free, Needed, Reach, BlocksFor;
      ghost var s0 := Now(DiskTable(SB, Marked(disk, freeblock)));
      InodeOnDisk(inum);
      var din := InodeAt(SB, disk, inum); // rinode
      var off0 := din.size;
      AppendStart(s0, inum, freeinode, p);
      if off0 + |p| > MAXFILE * BSIZE {
        return false;
      }
      ghost var s, c;
      FreeImage(disk, freeblock);
      NeededIs(s0.d, din, |p|);
      din, s, c, ok := AppendBlocks(inum, din, p, s0);
      if !ok { return; }
      FreeImage(disk, freeblock);
      EnoughLeft(SB, s0, s, inum, off0, |p|);
      din := din.(size := off0 + |p|);
      AppendEnd(s0, s, inum, off0, p, c, din);
      Winode(inum, din);
      AppendSaved(s0, s, inum, din, Marked(disk, freeblock), freeinode);
    }

    /** Overwrite the bitmap block. */
    method Balloc(used: nat)
      requires |disk| == FSSIZE && used <= FSSIZE
      modifies this`disk
      ensures disk == Marked(old(disk), used) && forall x :: 0 <= x < SB.inodestart ==> disk[x] == old(disk)[x]
    {
      hide SetBit;
      var buf, i := ZeroBlock(), 0;
      while i < used
        invariant i <= used && buf == BitmapK(i)
      {
        buf := buf[i / 8 := SetBit(buf[i / 8], i % 8)];
        i := i + 1;
      }
      disk := disk[SB.bmapstart := buf];
    }

    /** The chunks read() returned, appended one after the other to an empty file. */
    method AppendAll(inum: nat, chunks: seq<seq<byte>>) returns (ok: bool)
      requires Valid() && 1 <= inum < freeinode && Bytes(inum) == []
      modifies this`disk, this`freeblock, this`own
      ensures ok <==>
                |Flatten(chunks)| <= MAXFILE * BSIZE && old(freeblock) + BlocksFor(|Flatten(chunks)|) <= FSSIZE
      ensures ok ==> freeblock == old(freeblock) + BlocksFor(|Flatten(chunks)|)
      ensures ok ==> Valid() && Bytes(inum) == Flatten(chunks)
      ensures ok ==>
                forall i :: 1 <= i < freeinode && i != inum ==> Inode(i) == old(Inode(i)) && Bytes(i) == old(Bytes(i))
    {
      hide Inode, Bytes, Valid, BlocksFor;
      BlocksNone();
      SizeIs(inum);
      var k := 0;
      while k < |chunks|
        invariant k <= |chunks| && Valid() && Bytes(inum) == Flatten(chunks[..k])
        invariant forall i :: 1 <= i < freeinode && i != inum ==> Inode(i) == old(Inode(i)) && Bytes(i) == old(Bytes(i))
        invariant freeblock == old(freeblock) + BlocksFor(|Flatten(chunks[..k])|) <= FSSIZE
        invariant |Flatten(chunks[..k])| <= MAXFILE * BSIZE
      {
        SizeIs(inum);
        assert chunks[..k + 1][..k] == chunks[..k];
        FlattenPrefix(chunks, k + 1);
        BlocksMore(|Flatten(chunks[..k + 1])|, |Flatten(chunks)|);
        ok := Iappend(inum, chunks[k]);
        if !ok { return; }
        k := k + 1;
      }
      assert chunks[..k] == chunks;
      ok := true;
    }

    /** One file of the command line, in the chunks read() returned, entered in the root directory. */
    method AddFile(file: Source) returns (ok: bool)
      requires Valid() && 2 <= freeinode
      modifies this`disk, this`freeinode, this`freeblock, this`own
      ensures ok <==> old(Takes(file))
      ensures ok ==> Valid() && freeinode == old(freeinode) + 1
      ensures ok ==> Bytes(ROOTINO) == old(Bytes(ROOTINO)) + Dirent(old(freeinode), file.name)
      ensures ok ==> Bytes(old(freeinode)) == Flatten(file.chunks)
      ensures ok ==> forall i :: 2 <= i < old(freeinode) ==> Bytes(i) == old(Bytes(i))
      ensures ok ==> Inode(ROOTINO).kind == old(Inode(ROOTINO)).kind
      ensures ok ==> freeblock + BlocksFor(|old(Bytes(ROOTINO))|)
                     == old(freeblock) + BlocksFor(|Bytes(ROOTINO)|) + BlocksFor(|Flatten(file.chunks)|)
    {
      hide Inode, Bytes, Valid, Dirent, BlocksFor, Flatten;
      SizeIs(ROOTINO);
      var inum;
      inum, ok := Ialloc(T_FILE);
      if !ok { return; }
      assert Bytes(inum) == [] by { FreshIsEmpty(inum); }
      SizeIs(ROOTINO);
      ok := Iappend(ROOTINO, Dirent(inum, file.name));
      if !ok { return; }
      ok := AppendAll(inum, file.chunks);
    }

    /** There are an inode and blocks for the file and its entry in the root directory. */
    ghost predicate Takes(file: Source)
      reads this
      requires Valid()
    {
      var root, size := |Bytes(ROOTINO)|, |Flatten(file.chunks)|;
      && freeinode < NINODES && size <= MAXFILE * BSIZE && root + 16 <= MAXFILE * BSIZE
      && freeblock + BlocksFor(root + 16) + BlocksFor(size) <= FSSIZE + BlocksFor(root)
    }

    lemma SizeIs(i: nat)
      requires Valid() && 1 <= i < freeinode
      ensures Inode(i).size == |Bytes(i)| && freeblock <= FSSIZE && freeinode <= NINODES
    {}

    lemma FreshIsEmpty(inum: nat)
      requires Valid() && 1 <= inum < NINODES && Inode(inum).size == 0
      ensures Bytes(inum) == []
    {}

    lemma InodeOnDisk(i: nat)
      requires Valid() && i < NINODES
      ensures InodeAt(SB, disk, i) == Inode(i)
    {
      assert SB.IBlock(i) < SB.bmapstart;
    }
  }

  // ---- the finished image ----

  /** The entries mkfs puts in the root directory. */
  function RootEntries(files: seq<Source>): (r: seq<byte>)
    ensures |r| == 16 * (|files| + 2)
  {
    if files == [] then Dirent(ROOTINO, DOT) + Dirent(ROOTINO, DOT + DOT)
    else RootEntries(files[..|files| - 1]) + Dirent(|files| + 1, files[|files| - 1].name)
  }

  const DOT: seq<byte> := [46]

  /** Rounding up a directory whose size is a multiple of the block size adds a block that is not mapped. */
  lemma RootRounded(d: Disk, di: Dinode, dj: Dinode)
    requires di.Valid() && ExactlyMapped(d, di) && di.size < (MAXFILE - 1) * BSIZE
    requires dj == di.(size := (di.size / BSIZE + 1) * BSIZE)
    ensures dj.Valid() && dj.size <= MAXFILE * BSIZE && (Mapped(d, dj) <==> di.size % BSIZE != 0)
    ensures di.size % BSIZE == 0 ==> Ref(d, dj, di.size / BSIZE) == 0
    ensures Content(d, dj)[..di.size] == Content(d, di)
    ensures forall k :: 0 <= k < MAXFILE && k * BSIZE < di.size ==> Ref(d, dj, k) != 0
  {
    hide Ref;
    SameAddrs(d, di, dj);
    ExactIs(d, di);
    if di.size % BSIZE != 0 {
      forall k | 0 <= k < MAXFILE && k * BSIZE < dj.size ensures Ref(d, dj, k) != 0 {
        assert k * BSIZE < di.size;
      }
    } else {
      assert Ref(d, dj, di.size / BSIZE) == 0;
    }
    forall o | 0 <= o < di.size ensures ByteAt(d, dj, o) == ByteAt(d, di, o) {
      assert Ref(d, dj, o / BSIZE) == Ref(d, di, o / BSIZE);
    }
  }

  method MakeRoot(m: Maker) returns (ok: bool)
    requires m.Valid() && m.freeinode == 1 && m.freeblock == NMETA
    modifies m
    ensures ok && m.Valid() && m.freeinode == 2 && m.freeblock == Used([])
    ensures m.Bytes(ROOTINO) == RootEntries([]) && m.Inode(ROOTINO).kind == T_DIR
  {
    hide InodeAt, Content, Mapped, Quiet, Consistent, Dirent, Marked, Files;
    var rootino;
    rootino, ok := m.Ialloc(T_DIR);
    if !ok { return; }
    m.FreshIsEmpty(rootino);
    ok := m.Iappend(rootino, Dirent(rootino, DOT));
    if !ok { return; }
    assert m.Bytes(rootino) == Dirent(rootino, DOT);
    ok := m.Iappend(rootino, Dirent(rootino, DOT + DOT));
  }

  /** The blocks all the files take. */
  function FileBlocks(files: seq<Source>): nat {
    if files == [] then 0 else FileBlocks(files[..|files| - 1]) + BlocksFor(|Flatten(files[|files| - 1].chunks)|)
  }

  /** The first block left free: past the metadata, the root directory and the files. */
  function Used(files: seq<Source>): nat {
    NMETA + BlocksFor(16 * (|files| + 2)) + FileBlocks(files)
  }

  /** The files go into one image. */
  predicate Fits(files: seq<Source>) {
    && |files| + 2 <= NINODES && Used(files) <= FSSIZE
    && forall i :: 0 <= i < |files| ==> |Flatten(files[i].chunks)| <= MAXFILE * BSIZE
  }

  /** The image holds the files, from inode 2 on. */
  ghost predicate Holds(image: Disk, files: seq<Source>) {
    && |image| == FSSIZE && SB.Valid() && |files| + 2 <= NINODES
    && forall i :: 0 <= i < |files| ==>
         var di := InodeAt(SB, image, i + 2);
         Mapped(image, di) && Content(image, di) == Flatten(files[i].chunks)
  }

  /** The loop over the files of the command line. */
  method AddFiles(m: Maker, files: seq<Source>) returns (ok: bool)
    requires m.Valid() && m.freeinode == 2 && m.freeblock == Used([])
    requires m.Bytes(ROOTINO) == RootEntries([]) && m.Inode(ROOTINO).kind == T_DIR
    modifies m
    ensures ok <==> Fits(files)
    ensures ok ==> m.Valid() && m.freeinode == |files| + 2 && m.freeblock == Used(files)
    ensures ok ==> m.Bytes(ROOTINO) == RootEntries(files) && m.Inode(ROOTINO).kind == T_DIR
    ensures ok ==> forall i :: 0 <= i < |files| ==> m.Bytes(i + 2) == Flatten(files[i].chunks)
  {
    hide InodeAt, Content, Mapped, Quiet, Consistent, Flatten, Dirent, Marked, Files, BlocksFor, FileBlocks, m.Inode,
      m.Bytes, m.Valid, Used, RootEntries;
    assert files[..0] == [];
    var k := 0;
    while k < |files|
      invariant k <= |files| && m.Valid() && m.freeinode == k + 2 <= NINODES
      invariant m.Bytes(ROOTINO) == RootEntries(files[..k]) && m.Inode(ROOTINO).kind == T_DIR
      invariant forall i :: 0 <= i < k ==> m.Bytes(i + 2) == Flatten(files[i].chunks)
      invariant m.freeblock == Used(files[..k])
      invariant forall i :: 0 <= i < k ==> |Flatten(files[i].chunks)| <= MAXFILE * BSIZE
    {
      FitsNext(files, k);
      ok := m.AddFile(files[k]);
      if !ok { return; }
      k := k + 1;
    }
    assert files[..k] == files;
    m.SizeIs(ROOTINO);
    ok := true;
  }

  /** ok == false: too many files for the inode table, or too much data for the image. */
  method MakeFs(files: seq<Source>) returns (image: Disk, ghost own: map<nat, Slot>, ok: bool)
    ensures ok <==> Fits(files)
    ensures ok ==> |image| == FSSIZE && SB.Valid() && Front(image) && Holds(image, files)
    ensures ok ==> Consistent(SB, image, DiskTable(SB, image), own) && |Free(SB, image)| == FSSIZE - Used(files)
    ensures ok ==> var root := InodeAt(SB, image, ROOTINO);
              && root.kind == T_DIR && |RootEntries(files)| <= root.size <= MAXFILE * BSIZE
              && Content(image, root)[..|RootEntries(files)|] == RootEntries(files)
    ensures ok ==> (Quiet(SB, image, own) <==> (|files| + 2) % 32 != 0)
    ensures ok ==> RootPadded(image, |files| + 2)
  {
    hide InodeAt, Content, Mapped, Quiet, Consistent, Flatten, Dirent, Marked, Files, BlocksFor, FileBlocks, Free;
    var m := new Maker();
    image, own := m.disk, m.own;
    ok := MakeRoot(m);
    if !ok { return; }
    ok := AddFiles(m, files);
    if !ok { return; }
    ok := FinishRoot(m, files);
    image, own := m.disk, m.own;
  }

  lemma BlocksNone()
    ensures BlocksFor(0) == 0
  {}

  lemma BlocksMore(a: nat, b: nat)
    requires a <= b
    ensures BlocksFor(a) <= BlocksFor(b)
  {}

  lemma {:induction false} FlattenPrefix(chunks: seq<seq<byte>>, k: nat)
    requires k <= |chunks|
    ensures |Flatten(chunks[..k])| <= |Flatten(chunks)|
  {
    if k == |chunks| {
      assert chunks[..k] == chunks;
    } else {
      FlattenPrefix(chunks[..|chunks| - 1], k);
      assert chunks[..|chunks| - 1][..k] == chunks[..k];
    }
  }

  lemma {:induction false} UsedPrefix(files: seq<Source>, k: nat)
    requires k <= |files|
    ensures FileBlocks(files[..k]) <= FileBlocks(files) && Used(files[..k]) <= Used(files)
  {
    hide BlocksFor;
    BlocksMore(16 * (k + 2), 16 * (|files| + 2));
    if k == |files| {
      assert files[..k] == files;
    } else {
      UsedPrefix(files[..|files| - 1], k);
      assert files[..|files| - 1][..k] == files[..k];
    }
  }

  /** File k, when the root directory has its k + 2 entries. */
  lemma FitsNext(files: seq<Source>, k: nat)
    requires k < |files|
    ensures RootEntries(files[..k + 1]) == RootEntries(files[..k]) + Dirent(k + 2, files[k].name)
    ensures Used(files[..k + 1]) + BlocksFor(16 * (k + 2))
            == Used(files[..k]) + BlocksFor(16 * (k + 3)) + BlocksFor(|Flatten(files[k].chunks)|)
    ensures Fits(files) ==> k + 2 < NINODES && Used(files[..k + 1]) <= FSSIZE
  {
    hide BlocksFor, Flatten;
    assert files[..k + 1][..k] == files[..k];
    UsedPrefix(files, k + 1);
  }

  // ---- a fresh image with a hole ----

  lemma {:induction false} EmptyFiles(n: nat)
    requires n + 2 <= NINODES
    ensures Fits(seq(n, _ => Source([], [])))
  {
    var files := seq(n, _ => Source([], []));
    NoBlocks(files);
  }

  lemma {:induction false} NoBlocks(files: seq<Source>)
    requires forall i :: 0 <= i < |files| ==> files[i].chunks == []
    ensures FileBlocks(files) == 0
  {
    if files != [] {
      NoBlocks(files[..|files| - 1]);
    }
  }

  /** Thirty empty files: the root directory is two blocks long, and its second block is missing. */
  method RootWithHole() returns (image: Disk)
    ensures |image| == FSSIZE && SB.Valid()
    ensures var root := InodeAt(SB, image, ROOTINO); root.size == 2 * BSIZE && Ref(image, root, 1) == 0
    ensures forall own: map<nat, Slot> :: !Quiet(SB, image, own)
  {
    hide Ref, InodeAt, Consistent, Fits, RootEntries;
    EmptyFiles(30);
    ghost var own;
    var ok;
    image, own, ok := MakeFs(seq(30, _ => Source([], [])));
    assert !Mapped(image, InodeAt(SB, image, ROOTINO));
  }

  /** The root directory ends on a block boundary past its n entries; with full blocks of entries, the last is a
      hole, and the only one. */
  ghost predicate RootPadded(d: Disk, n: nat)
    requires SB.Valid() && |d| == FSSIZE
  {
    var root := InodeAt(SB, d, ROOTINO);
    && root.size == (n / 32 + 1) * BSIZE && (n % 32 == 0 && n / 32 < NDIRECT ==> Ref(d, root, n / 32) == 0)
    && forall k :: 0 <= k < MAXFILE && k * BSIZE < 16 * n ==> Ref(d, root, k) != 0
  }

  /** Round up the size of the root directory and write the bitmap. */
  method FinishRoot(m: Maker, files: seq<Source>) returns (ok: bool)
    requires m.Valid() && m.freeinode == |files| + 2 && m.Bytes(ROOTINO) == RootEntries(files)
    requires m.Inode(ROOTINO).kind == T_DIR
    modifies m
    ensures ok && Front(m.disk) && Consistent(SB, m.disk, DiskTable(SB, m.disk), m.own)
    ensures var root := InodeAt(SB, m.disk, ROOTINO);
            && root.kind == T_DIR && |RootEntries(files)| <= root.size <= MAXFILE * BSIZE
            && Content(m.disk, root)[..|RootEntries(files)|] == RootEntries(files)
    ensures forall i :: 2 <= i < |files| + 2 ==>
              Mapped(m.disk, InodeAt(SB, m.disk, i)) && Content(m.disk, InodeAt(SB, m.disk, i)) == old(m.Bytes(i))
    ensures |Free(SB, m.disk)| == FSSIZE - old(m.freeblock)
    ensures Quiet(SB, m.disk, m.own) <==> (|files| + 2) % 32 != 0
    ensures RootPadded(m.disk, |files| + 2)
  {
    hide InodeAt, Content, Mapped, Consistent, Ref, OthersKept, PutInode, RootEntries, Marked, SuperBlock;
    assert Front(m.disk);
    m.InodeOnDisk(ROOTINO);
    var din := InodeAt(SB, m.disk, ROOTINO); // rinode
    var off := din.size;
    ghost var d, own := Marked(m.disk, m.freeblock), m.own;
    assert |Content(d, din)| == off;
    off := (off / BSIZE + 1) * BSIZE;
    RootRounded(d, din, din.(size := off));
    m.Winode(ROOTINO, din.(size := off));
    FreeImage(m.disk, m.freeblock);
    m.Balloc(m.freeblock);
    RootSaved(d, own, din.(size := off), m.disk, |files| + 2);
    ok := true;
  }

  lemma RootSaved(d: Disk, own: map<nat, Slot>, dj: Dinode, e: Disk, n: nat)
    requires SB.Valid() && Quiet(SB, d, own) && Files(d, n) && 2 <= n <= NINODES
    requires dj.Valid() && dj == InodeAt(SB, d, ROOTINO).(size := dj.size) && dj.size <= MAXFILE * BSIZE
    requires e == PutInode(SB, d, ROOTINO, dj)
    ensures Consistent(SB, e, DiskTable(SB, e), own) && InodeAt(SB, e, ROOTINO) == dj
    ensures Content(e, dj) == Content(d, dj) && forall k :: 0 <= k <= MAXFILE ==> Ref(e, dj, k) == Ref(d, dj, k)
    ensures forall i :: 2 <= i < n ==>
              InodeAt(SB, e, i) == InodeAt(SB, d, i) && Mapped(e, InodeAt(SB, e, i))
              && Content(e, InodeAt(SB, e, i)) == Content(d, InodeAt(SB, d, i))
    ensures Quiet(SB, e, own) <==> Mapped(d, dj)
  {
    hide InodeAt, Consistent, Ref, PutInode, OthersKept, ByteAt;
    var t := DiskTable(SB, d);
    var u := t[ROOTINO := dj];
    ConsistentShape(SB, d, t, own);
    InodeSaved(SB, d, t, own, ROOTINO, dj);
    InodeWrite(SB, d, u, own, ROOTINO, dj);
    KeptUntouched(Snap(d, t, own, {}), Snap(e, u, own, {}), ROOTINO);
    RootTable(d, t, own, e, u);
    assert Content(e, dj) == Content(d, dj);
    assert Mapped(e, dj) <==> Mapped(d, dj);
    forall i | 1 <= i < NINODES && i != ROOTINO
      ensures Mapped(e, InodeAt(SB, e, i)) && Content(e, InodeAt(SB, e, i)) == Content(d, InodeAt(SB, d, i))
    {
      OthersContent(SB, d, t, own, e, u, ROOTINO, i);
    }
  }

  lemma RootTable(d: Disk, t: seq<Dinode>, own: map<nat, Slot>, e: Disk, u: seq<Dinode>)
    requires SB.Valid() && |d| == |e| == FSSIZE && t == DiskTable(SB, d) && |u| == NINODES
    requires Untouched(SB, d, t, own, e, u, ROOTINO) && InodeAt(SB, e, ROOTINO) == u[ROOTINO]
    ensures DiskTable(SB, e) == u && forall i :: 0 <= i < NINODES && i != ROOTINO ==>
              InodeAt(SB, e, i) == InodeAt(SB, d, i)
  {}

  lemma MarkedWrite(d: Disk, used: nat, x: nat, v: Block)
    requires |d| == FSSIZE && used <= FSSIZE && NMETA <= x < FSSIZE
    ensures Marked(d[x := v], used) == Marked(d, used)[x := v] && Marked(d, used)[x] == d[x]
  {}

  ghost predicate Files(d: Disk, freeinode: nat) {
    && SB.Valid() && |d| == FSSIZE
    && (forall i :: 1 <= i < freeinode && i < NINODES ==>
        ExactlyMapped(d, InodeAt(SB, d, i)) && InodeAt(SB, d, i).kind != 0)
    && (forall i :: freeinode <= i < NINODES ==> InodeAt(SB, d, i) == FreeInode())
  }

  lemma AppendStart(s0: Snap, inum: nat, freeinode: nat, p: seq<byte>)
    requires SB.Valid() && |s0.d| == FSSIZE && s0.t == DiskTable(SB, s0.d) && Quiet(SB, s0.d, s0.o)
    requires Files(s0.d, freeinode) && 1 <= inum < freeinode <= NINODES
    ensures Shape(SB, s0, inum) && s0.t[inum].kind != 0 && ExactlyMapped(s0.d, s0.t[inum])
    ensures s0.t[inum].size <= MAXFILE * BSIZE && s0.t[inum] == InodeAt(SB, s0.d, inum)
  {}

  /** The chunk that starts tot bytes into p is copied into block x. */
  function ChunkPut(disk: Disk, x: nat, off0: nat, tot: nat, p: seq<byte>): (r: Disk)
    requires x < |disk| && tot < |p|
    ensures |r| == |disk|
  {
    disk[x := Patch(disk[x], (off0 + tot) % BSIZE, p[tot..tot + ChunkSize(off0, tot, |p|)])]
  }

  /** One turn of iappend's loop: the chunk goes to block x, taken already. */
  lemma AppendStep(disk: Disk, used: nat, s0: Snap, s: Snap, e: Snap, inum: nat, off0: nat, tot: nat, p: seq<byte>,
                   c: Count, x: nat)
    requires |disk| == FSSIZE && used <= FSSIZE && e.d == Marked(disk, used)
    requires Writing(SB, s0, s, inum, off0, tot, p, c) && Shape(SB, s, inum) && Shape(SB, e, inum) && tot < |p|
    requires Bmapped(SB, s, e, inum, (off0 + tot) / BSIZE) && x == Ref(e.d, e.t[inum], (off0 + tot) / BSIZE)
    ensures NMETA <= x < used
    ensures var f, m := Patched(e, inum, off0, tot, p), ChunkSize(off0, tot, |p|);
            && Shape(SB, f, inum)
            && Writing(SB, s0, f, inum, off0, tot + m, p, Counted(SB, c, x, Ref(s.d, s.t[inum],
                (off0 + tot) / BSIZE) == 0))
            && f.d == Marked(ChunkPut(disk, x, off0, tot, p), used)
  {
    hide Bit, InodeAt, Consistent, Ref, Marked, Writing, Patch, BitmapK, SuperBlock;
    ConsistentShape(SB, e.d, e.t, e.o);
    OwnedRef(SB, e.d, e.t, e.o, inum, (off0 + tot) / BSIZE);
    OwnedBelow(disk, used, e.t, e.o, x);
    WritingStep(SB, s0, s, e, inum, off0, tot, p, c);
    var m := ChunkSize(off0, tot, |p|);
    MarkedWrite(disk, used, x, Patch(disk[x], (off0 + tot) % BSIZE, p[tot..tot + m]));
  }

  /** And nothing is taken but what the chunk needs. */
  lemma AppendTurn(disk: Disk, used: nat, s0: Snap, s: Snap, e: Snap, inum: nat, off0: nat, tot: nat, p: seq<byte>,
                   c: Count, x: nat)
    requires |disk| == FSSIZE && used <= FSSIZE && e.d == Marked(disk, used)
    requires Writing(SB, s0, s, inum, off0, tot, p, c) && Shape(SB, s, inum) && Shape(SB, e, inum) && tot < |p|
    requires Bmapped(SB, s, e, inum, (off0 + tot) / BSIZE) && x == Ref(e.d, e.t[inum], (off0 + tot) / BSIZE)
    requires Passed(SB, s0, s, inum, off0 / BSIZE, (off0 + tot) / BSIZE)
    requires off0 + |p| <= MAXFILE * BSIZE && (tot == 0 || (off0 + tot) % BSIZE == 0)
    requires Held(e.d, e.t[inum]) == Held(s.d, s.t[inum]) + Span((off0 + tot) / BSIZE, (off0 + tot) / BSIZE + 1)
    ensures NMETA <= x < used && x == Ref(e.d, e.t[inum], (off0 + tot) / BSIZE)
    ensures var f, m := Patched(e, inum, off0, tot, p), ChunkSize(off0, tot, |p|);
            && Shape(SB, f, inum) && f.t[inum] == s.t[inum].(addrs := f.t[inum].addrs) && f.o == e.o
            && Writing(SB, s0, f, inum, off0, tot + m, p,
                       Counted(SB, c, x, Ref(s.d, s.t[inum], (off0 + tot) / BSIZE) == 0))
            && f.d == Marked(ChunkPut(disk, x, off0, tot, p), used)
            && Passed(SB, s0, f, inum, off0 / BSIZE, (off0 + tot) / BSIZE + 1)
  {
    hide Bit, InodeAt, Consistent, Ref, Marked, Writing, Patch, BitmapK, SuperBlock, Passed, Held, Span, Extended;
    PassedChunk(SB, s0, s, e, inum, off0 / BSIZE, (off0 + tot) / BSIZE, off0, tot, p);
    AppendStep(disk, used, s0, s, e, inum, off0, tot, p, c, x);
  }

  lemma AppendEnd(s0: Snap, s: Snap, inum: nat, off0: nat, p: seq<byte>, c: Count, di: Dinode)
    requires Writing(SB, s0, s, inum, off0, |p|, p, c) && off0 == s0.t[inum].size
    requires ExactlyMapped(s0.d, s0.t[inum]) && off0 + |p| <= MAXFILE * BSIZE
    requires Passed(SB, s0, s, inum, off0 / BSIZE, Reach(off0, |p|))
    requires di == s.t[inum].(size := off0 + |p|)
    ensures di.Valid() && ExactlyMapped(s.d, di) && Content(s.d, di) == Content(s0.d, s0.t[inum]) + p
    ensures Shape(SB, s, inum) && OthersKept(SB, s0.d, s0.t, s0.o, s.d, s.t, s.o, inum)
    ensures di == s0.t[inum].(addrs := di.addrs, size := off0 + |p|)
  {
    hide InodeAt, Consistent, OthersKept, Ref, Held, Span, Reach;
    ExactIs(s0.d, s0.t[inum]);
    WritingEnd(SB, s0, s, inum, off0, p, c, di);
    WritingFrame(SB, s0, s, inum, off0, p, c);
    SameAddrs(s.d, s.t[inum], di);
    SameHeld(s.d, s.t[inum], s.d, di);
    HeldThen(s0.d, s0.t[inum], |p|);
  }

  function Range(lo: nat, hi: nat): (r: set<nat>)
    requires lo <= hi
    ensures |r| == hi - lo && forall b :: b in r <==> lo <= b < hi
  {
    if lo == hi then {} else Range(lo, hi - 1) + {hi - 1}
  }

  /** The blocks not marked are those from `used` on. */
  lemma FreeImage(d: Disk, used: nat)
    requires |d| == FSSIZE && used <= FSSIZE && SB.Valid()
    ensures |Free(SB, Marked(d, used))| == FSSIZE - used
  {
    hide TestBit, BitmapK;
    forall b | 0 <= b < FSSIZE ensures Bit(SB, Marked(d, used), b) <==> b < used {
      BitmapBits(used, b);
      assert SB.BBlock(b) == SB.bmapstart && b % BPB == b;
    }
    assert Free(SB, Marked(d, used)) == Range(used, FSSIZE);
  }

  lemma FullImage(d: Disk)
    requires |d| == FSSIZE && SB.Valid()
    ensures Full(SB, Marked(d, FSSIZE))
  {
    hide Marked;
    FreeImage(d, FSSIZE);
    FullIsNone(SB, Marked(d, FSSIZE));
  }

  /** Appending to a file with exactly its blocks. */
  lemma HeldThen(d: Disk, di: Dinode, n: nat)
    requires di.Valid() && ExactlyMapped(d, di) && di.size + n <= MAXFILE * BSIZE
    ensures Reach(di.size, n) <= MAXFILE && Reach(0, di.size + n) <= MAXFILE
    ensures Held(d, di) + Span(di.size / BSIZE, Reach(di.size, n)) == Span(0, Reach(0, di.size + n))
  {
    ReachFits(0, di.size);
    ReachFits(di.size, n);
    ReachFits(0, di.size + n);
    hide Held;
    if n > 0 {
      assert Reach(di.size, n) == Reach(0, di.size + n);
      assert di.size / BSIZE <= Reach(0, di.size) <= di.size / BSIZE + 1;
    }
  }

  /** What an append needs is the difference in size, in blocks. */
  lemma NeededIs(d: Disk, di: Dinode, n: nat)
    requires di.Valid() && ExactlyMapped(d, di) && di.size + n <= MAXFILE * BSIZE
    ensures |Needed(d, di, di.size, n)| + BlocksFor(di.size) == BlocksFor(di.size + n)
  {
    hide Held, Span, Reach;
    ReachFits(di.size, n);
    HeldThen(d, di, n);
    ExactIs(d, di);
    ReachIs(di.size + n);
    SpanSize(Reach(0, di.size + n));
    assert Held(d, di) !! Needed(d, di, di.size, n);
    assert Held(d, di) + Needed(d, di, di.size, n) == Span(0, Reach(0, di.size + n));
  }

  lemma SameAddrs(d: Disk, di: Dinode, dj: Dinode)
    requires di.Valid() && dj.Valid() && di.addrs == dj.addrs
    ensures forall k :: 0 <= k <= MAXFILE ==> Ref(d, dj, k) == Ref(d, di, k)
  {}

  lemma AppendSaved(s0: Snap, s: Snap, inum: nat, di: Dinode, e: Disk, freeinode: nat)
    requires Quiet(SB, s0.d, s0.o) && s0.t == DiskTable(SB, s0.d) && Files(s0.d, freeinode)
    requires 1 <= inum < freeinode <= NINODES && Shape(SB, s, inum)
    requires OthersKept(SB, s0.d, s0.t, s0.o, s.d, s.t, s.o, inum)
    requires di.Valid() && di.addrs == s.t[inum].addrs && di.kind == s.t[inum].kind != 0 && ExactlyMapped(s.d, di)
    requires e == PutInode(SB, s.d, inum, di)
    ensures Quiet(SB, e, s.o) && Files(e, freeinode) && InodeAt(SB, e, inum) == di && Content(e, di) == Content(s.d, di)
    ensures forall i :: 1 <= i < freeinode && i != inum ==>
              InodeAt(SB, e, i) == s0.t[i] && Content(e, InodeAt(SB, e, i)) == Content(s0.d, s0.t[i])
  {
    hide InodeAt, Consistent, OthersKept, Ref, Untouched, Content, PutInode;
    InodeSaved(SB, s.d, s.t, s.o, inum, di);
    var t := s.t[inum := di];
    OthersKeptTrans(SB, s0.d, s0.t, s0.o, s.d, s.t, s.o, e, t, s.o, inum);
    KeptUntouched(s0, Snap(e, t, s.o, {}), inum);
    SavedExact(s.d, e, di, s, inum);
    ExactIs(s.d, di);
    ExactIs(e, di);
    QuietAgain(SB, s0.d, s0.t, s0.o, e, t, s.o, inum);
    OthersExact(s0.d, s0.t, s0.o, e, t, inum);
    forall i | 0 <= i < NINODES ensures InodeAt(SB, e, i) == t[i] {
      assert DiskTable(SB, e)[i] == InodeAt(SB, e, i);
    }
  }

  lemma KeptUntouched(s: Snap, e: Snap, inum: nat)
    requires OthersKept(SB, s.d, s.t, s.o, e.d, e.t, e.o, inum)
    ensures Untouched(SB, s.d, s.t, s.o, e.d, e.t, inum)
  {}

  lemma SavedExact(d: Disk, e: Disk, di: Dinode, s: Snap, inum: nat)
    requires Shape(SB, s, inum) && s.d == d && di.Valid() && di.addrs == s.t[inum].addrs && di.kind != 0
    requires e == PutInode(SB, d, inum, di) && ExactlyMapped(d, di)
    ensures ExactlyMapped(e, di)
  {
    hide Bit, InodeAt, Consistent, PutWords;
    InodeSaved(SB, s.d, s.t, s.o, inum, di);
    InodeWrite(SB, s.d, s.t[inum := di], s.o, inum, di);
  }

  lemma MarkedAt(d: Disk, used: nat, x: nat)
    requires |d| == FSSIZE && used <= FSSIZE && NMETA <= x < FSSIZE
    ensures Marked(d, used)[x] == d[x]
  {}

  lemma OwnedBelow(d: Disk, used: nat, t: seq<Dinode>, own: map<nat, Slot>, x: nat)
    requires |d| == FSSIZE && used <= FSSIZE && Consistent(SB, Marked(d, used), t, own) && x in own
    ensures NMETA <= x < used
  {
    hide TestBit, BitmapK;
    BitmapBits(used, x);
    assert SB.BBlock(x) == SB.bmapstart && x % BPB == x;
  }

  lemma FreeBit(d: Disk, used: nat)
    requires |d| == FSSIZE && NMETA <= used < FSSIZE && SB.Valid()
    ensures !Bit(SB, Marked(d, used), used)
  {
    hide TestBit, BitmapK;
    BitmapBits(used, used);
    assert SB.BBlock(used) == SB.bmapstart && used % BPB == used;
  }

  lemma EmptyIsExact(d: Disk, di: Dinode)
    requires di.Valid() && di.size == 0 && di.addrs == FreeInode().addrs
    ensures ExactlyMapped(d, di)
  {}

  lemma OthersExact(d: Disk, t: seq<Dinode>, own: map<nat, Slot>, e: Disk, u: seq<Dinode>, inum: nat)
    requires SB.Valid() && Consistent(SB, d, t, own) && Untouched(SB, d, t, own, e, u, inum)
    ensures forall i :: 1 <= i < NINODES && i != inum && ExactlyMapped(d, t[i]) ==>
              ExactlyMapped(e, t[i]) && Content(e, t[i]) == Content(d, t[i])
  {
    hide Ref, Bit, InodeAt, Content;
    forall i | 1 <= i < NINODES && i != inum && ExactlyMapped(d, t[i])
      ensures ExactlyMapped(e, t[i]) && Content(e, t[i]) == Content(d, t[i])
    {
      ExactIs(d, t[i]);
      OthersContent(SB, d, t, own, e, u, inum, i);
      SameHeld(d, t[i], e, t[i]);
    }
  }
}
