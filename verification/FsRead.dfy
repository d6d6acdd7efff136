/** What reading does to a file with holes: bmap fills each hole it meets with a zeroed block, in memory only. */
module FsRead {
  import opened Bytes
  import opened FsSpec
  import opened FsSteps
  import opened FsWrite

  /** From s to e inode inum may have gained blocks; no byte of any file has changed, nor any inode on disk. */
  ghost predicate Grown(sb: Superblock, s: Snap, e: Snap, inum: nat) {
    && Shape(sb, s, inum) && Shape(sb, e, inum)
    && e.t[inum] == s.t[inum].(addrs := e.t[inum].addrs)
    && OthersKept(sb, s.d, s.t, s.o, e.d, e.t, e.o, inum)
    && InodeAt(sb, e.d, inum) == InodeAt(sb, s.d, inum)
    && (forall k :: 0 <= k <= MAXFILE && Ref(s.d, s.t[inum], k) != 0 ==>
        Ref(e.d, e.t[inum], k) == Ref(s.d, s.t[inum], k))
    && forall o :: 0 <= o < MAXFILE * BSIZE ==> ByteAt(e.d, e.t[inum], o) == ByteAt(s.d, s.t[inum], o)
  }

  lemma GrownShape(sb: Superblock, s: Snap, e: Snap, inum: nat)
    requires Grown(sb, s, e, inum)
    ensures Shape(sb, s, inum) && Shape(sb, e, inum) && s.t[inum].Valid()
  {}

  lemma GrownRefl(sb: Superblock, s: Snap, inum: nat)
    requires Shape(sb, s, inum)
    ensures Grown(sb, s, s, inum)
  {
    hide Consistent, Ref, ByteAt, InodeAt, Bit;
    OthersKeptRefl(sb, s.d, s.t, s.o, inum);
  }

  /** One bmap, then the rest of a read. */
  lemma GrownBmap(sb: Superblock, s0: Snap, s: Snap, e: Snap, inum: nat, bn: nat)
    requires Grown(sb, s0, s, inum) && Shape(sb, e, inum) && Bmapped(sb, s, e, inum, bn)
    requires Ref(s.d, s.t[inum], bn) == 0 && Ref(e.d, e.t[inum], bn) < |e.d| ==>
               e.d[Ref(e.d, e.t[inum], bn)] == ZeroBlock()
    ensures Grown(sb, s0, e, inum)
  {
    hide Ref, ByteAt, InodeAt, OthersKept, Bit, Consistent;
    BmapBytes(sb, s, e, inum, bn);
    OthersKeptTrans(sb, s0.d, s0.t, s0.o, s.d, s.t, s.o, e.d, e.t, e.o, inum);
  }

  lemma BmapBytes(sb: Superblock, s: Snap, e: Snap, inum: nat, bn: nat)
    requires Shape(sb, s, inum) && Shape(sb, e, inum) && Bmapped(sb, s, e, inum, bn)
    requires Ref(s.d, s.t[inum], bn) == 0 && Ref(e.d, e.t[inum], bn) < |e.d| ==>
               e.d[Ref(e.d, e.t[inum], bn)] == ZeroBlock()
    ensures OthersKept(sb, s.d, s.t, s.o, e.d, e.t, e.o, inum) && InodeAt(sb, e.d, inum) == InodeAt(sb, s.d, inum)
    ensures forall k :: 0 <= k <= MAXFILE && Ref(s.d, s.t[inum], k) != 0 ==>
              Ref(e.d, e.t[inum], k) == Ref(s.d, s.t[inum], k)
    ensures forall o :: 0 <= o < MAXFILE * BSIZE ==> ByteAt(e.d, e.t[inum], o) == ByteAt(s.d, s.t[inum], o)
  {
    hide InodeAt, OthersKept, Bit, Consistent, Ref;
    RefIs(s.d, s.t[inum], MAXFILE);
    RefIs(e.d, e.t[inum], MAXFILE);
    forall o | 0 <= o < MAXFILE * BSIZE ensures ByteAt(e.d, e.t[inum], o) == ByteAt(s.d, s.t[inum], o) {
      OwnedRef(sb, s.d, s.t, s.o, inum, o / BSIZE);
      OwnedRef(sb, e.d, e.t, e.o, inum, o / BSIZE);
    }
  }

  /** dst is what the file has from offset off on; a hole counts as zeroes. */
  ghost predicate ReadBack(d: Disk, di: Dinode, off: nat, dst: seq<byte>) {
    && di.Valid() && (dst == [] || off + |dst| <= MAXFILE * BSIZE)
    && forall i :: off <= i < off + |dst| ==> dst[i - off] == ByteAt(d, di, i)
  }

  /** No hole is left in bytes off .. off + n of the file. */
  ghost predicate Filled(d: Disk, di: Dinode, off: nat, n: nat) {
    di.Valid() && (n > 0 ==> forall bn :: off / BSIZE <= bn < MAXFILE && bn * BSIZE < off + n ==> Ref(d, di, bn) != 0)
  }

  lemma ReadStart(sb: Superblock, s: Snap, inum: nat, off: nat)
    requires Shape(sb, s, inum)
    ensures Grown(sb, s, s, inum) && ReadBack(s.d, s.t[inum], off, []) && Filled(s.d, s.t[inum], off, 0)
  {
    hide Consistent, Ref, ByteAt, Grown;
    GrownRefl(sb, s, inum);
  }

  lemma BmappedAt(sb: Superblock, s: Snap, e: Snap, inum: nat, bn: nat)
    requires Shape(sb, s, inum) && Shape(sb, e, inum) && Bmapped(sb, s, e, inum, bn)
    ensures bn < MAXFILE && 0 < Ref(e.d, e.t[inum], bn) < |e.d|
  {
    hide Ref, Bit, InodeAt;
    OwnedRef(sb, e.d, e.t, e.o, inum, bn);
  }

  /** One turn of readi's loop, from s to e, having read dst: it reads m bytes of block bn more. */
  lemma ReadStep(sb: Superblock, s0: Snap, s: Snap, e: Snap, inum: nat, off0: nat, dst: seq<byte>,
                 off: nat, bn: nat, addr: nat, m: nat)
    requires Grown(sb, s0, s, inum) && Shape(sb, e, inum) && Bmapped(sb, s, e, inum, bn)
    requires off == off0 + |dst| && bn == off / BSIZE && bn < MAXFILE && 0 < m && off % BSIZE + m <= BSIZE
    requires addr == Ref(e.d, e.t[inum], bn) < |e.d| && (Ref(s.d, s.t[inum], bn) == 0 ==> e.d[addr] == ZeroBlock())
    requires ReadBack(s0.d, s0.t[inum], off0, dst) && Filled(s.d, s.t[inum], off0, |dst|)
    ensures Grown(sb, s0, e, inum)
    ensures ReadBack(s0.d, s0.t[inum], off0, dst + e.d[addr][off % BSIZE..off % BSIZE + m])
    ensures Filled(e.d, e.t[inum], off0, |dst| + m)
  {
    hide Ref, ByteAt, InodeAt, OthersKept, Bit, Consistent;
    GrownBmap(sb, s0, s, e, inum, bn);
    BmapBytes(sb, s, e, inum, bn);
    ChunkBytes(e.d, e.t[inum], off, m);
    forall k | off0 / BSIZE <= k < MAXFILE && k * BSIZE < off + m ensures Ref(e.d, e.t[inum], k) != 0 {
      if k != bn {
        assert k * BSIZE < off && |dst| > 0;
        assert Ref(s.d, s.t[inum], k) != 0;
      }
    }
  }

  /** Reading an inode that was saved leaves the disk consistent exactly when it gave the inode no address that is
      in memory only. */
  lemma SavedIff(sb: Superblock, s: Snap, e: Snap, inum: nat)
    requires Grown(sb, s, e, inum) && s.t == DiskTable(sb, s.d)
    ensures (exists own: map<nat, Slot> :: Consistent(sb, e.d, DiskTable(sb, e.d), own)) <==>
              e.t[inum].addrs == s.t[inum].addrs
  {
    hide Ref, ByteAt, InodeAt, Bit, Consistent;
    assert DiskTable(sb, e.d) == s.t;
    if e.t[inum].addrs == s.t[inum].addrs {
      assert e.t == s.t;
    } else {
      var k :| 0 <= k <= NDIRECT && e.t[inum].addrs[k] != s.t[inum].addrs[k];
      forall own: map<nat, Slot> ensures !Consistent(sb, e.d, s.t, own) {
        Leaked(sb, s, e, inum, k, own);
      }
    }
  }

  /** The block of an unsaved address is marked in use, but no slot on disk holds it. */
  lemma Leaked(sb: Superblock, s: Snap, e: Snap, inum: nat, k: nat, own: map<nat, Slot>)
    requires Grown(sb, s, e, inum) && k <= NDIRECT && e.t[inum].addrs[k] != s.t[inum].addrs[k]
    ensures !Consistent(sb, e.d, s.t, own)
  {
    hide ByteAt, InodeAt, Bit, Ref;
    var r := e.t[inum].addrs[k];
    HeldNowhere(sb, s, e, inum, k, inum, 0);
    if r in own && 1 <= own[r].inum < sb.ninodes && own[r].slot <= MAXFILE {
      HeldNowhere(sb, s, e, inum, k, own[r].inum, own[r].slot);
    } else {
      assert Bit(sb, e.d, r);
    }
  }

  lemma HeldNowhere(sb: Superblock, s: Snap, e: Snap, inum: nat, k: nat, i: nat, j: nat)
    requires Grown(sb, s, e, inum) && k <= NDIRECT && e.t[inum].addrs[k] != s.t[inum].addrs[k]
    requires 1 <= i < sb.ninodes && j <= MAXFILE
    ensures e.t[inum].addrs[k] in e.o && Ref(e.d, s.t[i], j) != e.t[inum].addrs[k]
  {
    hide ByteAt, InodeAt, Bit, Consistent, Ref;
    RefIs(s.d, s.t[inum], AddrSlot(k));
    RefIs(e.d, e.t[inum], AddrSlot(k));
    OwnedRef(sb, e.d, e.t, e.o, inum, AddrSlot(k));
    OwnedRef(sb, e.d, e.t, e.o, i, j);
    if i == inum {
      RefIs(s.d, s.t[inum], MAXFILE);
      RefIs(e.d, e.t[inum], MAXFILE);
      RefIs(e.d, s.t[i], j);
      RefIs(e.d, e.t[i], j);
      RefIs(s.d, s.t[i], j);
      if NDIRECT <= j < MAXFILE {
        OwnedRef(sb, s.d, s.t, s.o, inum, MAXFILE);
      }
    }
  }
}
