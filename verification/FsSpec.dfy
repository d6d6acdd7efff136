/** The on-disk format of fs.h, and what it means for the file system to be consistent. */
module FsSpec {
  import opened Bytes

  const NDIRECT: nat := 12
  const NINDIRECT: nat := WORDS
  const MAXFILE: nat := 140 // NDIRECT + NINDIRECT
  const IPB: nat := 8       // 64-byte inodes in a block
  const BPB: nat := 4096    // bitmap bits in a block

  /** struct superblock; nmeta is size - nblocks, the number of blocks before the data blocks. */
  datatype Superblock = Superblock(size: nat, ninodes: nat, inodestart: nat, bmapstart: nat, nmeta: nat) {
    predicate Valid() {
      && 0 < ninodes && inodestart + (ninodes - 1) / IPB < bmapstart
      && bmapstart + (size - 1) / BPB < nmeta <= size < W32
    }

    function IBlock(i: nat): nat {
      i / IPB + inodestart
    }

    function BBlock(b: nat): nat {
      b / BPB + bmapstart
    }
  }

  // ---- inodes ----

  /** struct dinode: sixteen words. The four shorts share the first two. */
  datatype Dinode = Dinode(kind: nat, major: nat, minor: nat, nlink: nat, size: nat, addrs: seq<nat>) {
    predicate Valid() {
      && kind < 65536 && major < 65536 && minor < 65536 && nlink < 65536 && size < W32
      && |addrs| == NDIRECT + 1 && forall i :: 0 <= i < |addrs| ==> addrs[i] < W32
    }

    function Words(): (ws: seq<nat>)
      requires Valid()
      ensures |ws| == 16 && forall i :: 0 <= i < |ws| ==> ws[i] < W32
    {
      [kind + 65536 * major, minor + 65536 * nlink, size] + addrs
    }
  }

  function DinodeOf(ws: seq<nat>): (di: Dinode)
    requires |ws| == 16 && forall i :: 0 <= i < |ws| ==> ws[i] < W32
    ensures di.Valid()
  {
    Dinode(ws[0] % 65536, ws[0] / 65536, ws[1] % 65536, ws[1] / 65536, ws[2], ws[3..])
  }

  function FreeInode(): Dinode {
    Dinode(0, 0, 0, 0, 0, seq(NDIRECT + 1, _ => 0))
  }

  function BlockWords(b: Block, base: nat, n: nat): (ws: seq<nat>)
    requires base + n <= WORDS
    ensures |ws| == n && forall i :: 0 <= i < n ==> ws[i] == Word(b, base + i)
    ensures forall i :: 0 <= i < n ==> ws[i] < W32
  {
    seq<nat>(n, i requires 0 <= i < n => Word(b, base + i))
  }

  /** Inode i of the table on disk. */
  function InodeAt(sb: Superblock, d: Disk, i: nat): (di: Dinode)
    requires sb.Valid() && |d| == sb.size && i < sb.ninodes
    ensures di.Valid()
  {
    DinodeOf(BlockWords(d[sb.IBlock(i)], 16 * (i % IPB), 16))
  }

  /** The disk after `*dip = di` in inode i's slot. */
  function PutInode(sb: Superblock, d: Disk, i: nat, di: Dinode): (r: Disk)
    requires sb.Valid() && |d| == sb.size && i < sb.ninodes && di.Valid()
    ensures |r| == |d|
  {
    d[sb.IBlock(i) := PutWords(d[sb.IBlock(i)], 16 * (i % IPB), di.Words())]
  }

  lemma DinodeRoundTrip(di: Dinode)
    requires di.Valid()
    ensures DinodeOf(di.Words()) == di
  {}

  lemma PutInodeGet(sb: Superblock, d: Disk, i: nat, di: Dinode, j: nat)
    requires sb.Valid() && |d| == sb.size && i < sb.ninodes && j < sb.ninodes && di.Valid()
    ensures InodeAt(sb, PutInode(sb, d, i, di), j) == if i == j then di else InodeAt(sb, d, j)
  {
    hide Word, SetWord, PutWords;
    var r := PutInode(sb, d, i, di);
    if sb.IBlock(i) == sb.IBlock(j) {
      var blk, base := d[sb.IBlock(i)], 16 * (i % IPB);
      var was, now := BlockWords(blk, 16 * (j % IPB), 16), BlockWords(r[sb.IBlock(j)], 16 * (j % IPB), 16);
      forall k | 0 <= k < 16 ensures now[k] == if i == j then di.Words()[k] else was[k] {
        PutWordsGet(blk, base, di.Words(), 16 * (j % IPB) + k);
      }
      if i == j {
        assert now == di.Words();
        DinodeRoundTrip(di);
      } else {
        assert now == was;
      }
    }
  }

  // ---- the free bitmap ----

  /** Bit b of the bitmap: block b is in use. */
  predicate Bit(sb: Superblock, d: Disk, b: nat)
    requires sb.Valid() && |d| == sb.size && b < sb.size
  {
    TestBit(d[sb.BBlock(b)][b % BPB / 8], b % 8)
  }

  /** balloc finds nothing. */
  predicate Full(sb: Superblock, d: Disk) {
    sb.Valid() && |d| == sb.size && forall b :: 0 <= b < sb.size ==> Bit(sb, d, b)
  }

  /** Bit bi of the bitmap block that starts at block b. */
  lemma BitIndex(sb: Superblock, b: nat, bi: nat)
    requires b % BPB == 0 && bi < BPB
    ensures sb.BBlock(b + bi) == sb.BBlock(b) && (b + bi) % BPB == bi && (b + bi) % 8 == bi % 8
  {
    var q := b / BPB;
    assert b == BPB * q;
    Mod8(512 * q + bi / 8, bi % 8);
  }

  lemma Mod8(k: nat, m: nat)
    requires m < 8
    ensures (8 * k + m) % 8 == m
  {}

  function WriteBit(sb: Superblock, d: Disk, b: nat, v: bool): (r: Disk)
    requires sb.Valid() && |d| == sb.size && b < sb.size
    ensures |r| == |d|
  {
    var blk, i := d[sb.BBlock(b)], b % BPB / 8;
    d[sb.BBlock(b) := blk[i := if v then SetBit(blk[i], b % 8) else ClearBit(blk[i], b % 8)]]
  }

  lemma WriteBitBits(sb: Superblock, d: Disk, b: nat, v: bool, x: nat)
    requires sb.Valid() && |d| == sb.size && b < sb.size && x < sb.size
    ensures Bit(sb, WriteBit(sb, d, b, v), x) == if x == b then v else Bit(sb, d, x)
  {
    var blk := d[sb.BBlock(b)];
    hide SetBit, ClearBit, TestBit;
    if sb.BBlock(x) == sb.BBlock(b) && x % BPB / 8 == b % BPB / 8 {
      BitLaws(blk[b % BPB / 8], b % 8, x % 8);
      SameBit(sb, b, x);
    }
  }

  lemma SameBit(sb: Superblock, b: nat, x: nat)
    requires sb.BBlock(x) == sb.BBlock(b) && x % BPB / 8 == b % BPB / 8
    ensures x % 8 == b % 8 ==> x == b
  {
    BitPlace(x);
    BitPlace(b);
  }

  lemma BitOf(b: nat)
    ensures b % BPB % 8 == b % 8
  {}

  lemma BitPlace(x: nat)
    ensures x == BPB * (x / BPB) + 8 * (x % BPB / 8) + x % 8
  {}

  // ---- the blocks an inode holds ----

  /** A place a block number is kept: slot < MAXFILE is the slot-th block of the file, slot MAXFILE is
      addrs[NDIRECT], the indirect block itself. */
  datatype Slot = Slot(inum: nat, slot: nat)

  /** The block number in that slot of inode di, or 0. */
  function Ref(d: Disk, di: Dinode, slot: nat): nat
    requires di.Valid() && slot <= MAXFILE
  {
    var ind := di.addrs[NDIRECT];
    if slot < NDIRECT then di.addrs[slot]
    else if slot == MAXFILE then ind
    else if ind == 0 || ind >= |d| then 0
    else Word(d[ind], slot - NDIRECT)
  }

  ghost predicate TableValid(sb: Superblock, table: seq<Dinode>) {
    && |table| == sb.ninodes
    && forall i :: 0 <= i < |table| ==> table[i].Valid()
  }

  /** Ownership. `own` gives each block in use by a file the one slot that holds it: so no block number occurs
      twice in all the addrs[] and indirect blocks together. */
  ghost predicate RefsOk(sb: Superblock, d: Disk, table: seq<Dinode>, own: map<nat, Slot>) {
    && TableValid(sb, table)
    && (forall i, k :: 1 <= i < sb.ninodes && 0 <= k <= MAXFILE && Ref(d, table[i], k) != 0 ==>
          Ref(d, table[i], k) in own && own[Ref(d, table[i], k)] == Slot(i, k))
    && (forall b :: b in own ==>
          && sb.nmeta <= b < sb.size
          && 1 <= own[b].inum < sb.ninodes && own[b].slot <= MAXFILE
          && Ref(d, table[own[b].inum], own[b].slot) == b)
    && (forall i, k :: 1 <= i < sb.ninodes && 0 <= k <= NDIRECT && table[i].kind == 0 ==> table[i].addrs[k] == 0)
  }

  /** The set bits are exactly the metadata blocks and the owned blocks. */
  ghost predicate BitsOk(sb: Superblock, d: Disk, own: map<nat, Slot>) {
    && sb.Valid() && |d| == sb.size
    && forall b :: 0 <= b < sb.size ==> (Bit(sb, d, b) <==> b < sb.nmeta || b in own)
  }

  ghost predicate Consistent(sb: Superblock, d: Disk, table: seq<Dinode>, own: map<nat, Slot>) {
    sb.Valid() && |d| == sb.size && RefsOk(sb, d, table, own) && BitsOk(sb, d, own)
  }

  /** The inode table as it is on disk. */
  function DiskTable(sb: Superblock, d: Disk): (table: seq<Dinode>)
    requires sb.Valid() && |d| == sb.size
    ensures |table| == sb.ninodes
  {
    seq(sb.ninodes, i requires 0 <= i < sb.ninodes => InodeAt(sb, d, i))
  }

  ghost predicate HeldSomewhere(sb: Superblock, d: Disk, table: seq<Dinode>, b: nat)
    requires TableValid(sb, table)
  {
    exists i, k :: 1 <= i < sb.ninodes && 0 <= k <= MAXFILE && Ref(d, table[i], k) == b
  }

  /** The two parts of ownership in the open, with no map: distinct slots hold distinct blocks, and a block's
      bit is set exactly when it is metadata or held in some slot. */
  lemma OwnershipIsUnique(sb: Superblock, d: Disk, table: seq<Dinode>, own: map<nat, Slot>)
    requires Consistent(sb, d, table, own)
    ensures forall i, k, j, l ::
              (1 <= i < sb.ninodes && 1 <= j < sb.ninodes && 0 <= k <= MAXFILE && 0 <= l <= MAXFILE
               && Ref(d, table[i], k) != 0 && Ref(d, table[i], k) == Ref(d, table[j], l)) ==> i == j && k == l
    ensures forall b :: 0 <= b < sb.size ==>
              (Bit(sb, d, b) <==> (b < sb.nmeta || HeldSomewhere(sb, d, table, b)))
  {
    hide Bit, Ref;
    forall b | 0 <= b < sb.size
      ensures Bit(sb, d, b) <==> (b < sb.nmeta || HeldSomewhere(sb, d, table, b))
    {
      if b in own {
        assert Ref(d, table[own[b].inum], own[b].slot) == b;
      }
    }
  }

  // ---- file contents ----

  /** Every block below the size is mapped. */
  ghost predicate Mapped(d: Disk, di: Dinode)
    requires di.Valid()
  {
    di.size <= MAXFILE * BSIZE && forall bn :: 0 <= bn < MAXFILE && bn * BSIZE < di.size ==> Ref(d, di, bn) != 0
  }

  /** Byte o of the file, whether or not o is below the size. */
  function ByteAt(d: Disk, di: Dinode, o: nat): byte
    requires di.Valid() && o < MAXFILE * BSIZE
  {
    var b := Ref(d, di, o / BSIZE);
    if b == 0 || b >= |d| then 0 else d[b][o % BSIZE]
  }

  function Content(d: Disk, di: Dinode): (c: seq<byte>)
    requires di.Valid() && di.size <= MAXFILE * BSIZE
    ensures |c| == di.size
  {
    seq(di.size, o requires 0 <= o < di.size => ByteAt(d, di, o))
  }

  /** What writing src at offset off makes of contents c. */
  function Overwrite(c: seq<byte>, off: nat, src: seq<byte>): (r: seq<byte>)
    requires off <= |c|
    ensures |r| == if off + |src| <= |c| then |c| else off + |src|
  {
    c[..off] + src + (if off + |src| <= |c| then c[off + |src|..] else [])
  }
}
