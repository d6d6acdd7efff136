/** One-step facts about consistency: what an allocation, a data write and a freed file do to it. */
module FsSteps {
  import opened Bytes
  import opened FsSpec

  lemma ConsistentShape(sb: Superblock, d: Disk, table: seq<Dinode>, own: map<nat, Slot>)
    requires Consistent(sb, d, table, own)
    ensures sb.Valid() && |d| == sb.size && TableValid(sb, table)
  {}

  lemma RefIs(d: Disk, di: Dinode, k: nat)
    requires di.Valid() && k <= MAXFILE
    ensures k < NDIRECT ==> Ref(d, di, k) == di.addrs[k]
    ensures k == MAXFILE ==> Ref(d, di, k) == di.addrs[NDIRECT]
    ensures NDIRECT <= k < MAXFILE && di.addrs[NDIRECT] == 0 ==> Ref(d, di, k) == 0
    ensures NDIRECT <= k < MAXFILE && 0 < di.addrs[NDIRECT] < |d| ==>
              Ref(d, di, k) == Word(d[di.addrs[NDIRECT]], k - NDIRECT)
  {}

  lemma OwnedRef(sb: Superblock, d: Disk, table: seq<Dinode>, own: map<nat, Slot>, i: nat, k: nat)
    requires Consistent(sb, d, table, own) && 1 <= i < sb.ninodes && k <= MAXFILE
    ensures var r := Ref(d, table[i], k);
            r != 0 ==> r in own && own[r] == Slot(i, k) && sb.nmeta <= r < sb.size
  {}

  /** Slots read through an unchanged indirect block are unchanged. */
  lemma RefFrame(d: Disk, e: Disk, di: Dinode, k: nat)
    requires di.Valid() && k <= MAXFILE && |d| == |e|
    requires 0 < di.addrs[NDIRECT] < |d| ==> e[di.addrs[NDIRECT]] == d[di.addrs[NDIRECT]]
    ensures Ref(e, di, k) == Ref(d, di, k)
  {}

  /** balloc: mark block r in use, then zero it. */
  function Allocated(sb: Superblock, d: Disk, r: nat): (e: Disk)
    requires sb.Valid() && |d| == sb.size && r < sb.size
    ensures |e| == |d|
  {
    WriteBit(sb, d, r, true)[r := ZeroBlock()]
  }

  lemma AllocatedBlocks(sb: Superblock, d: Disk, r: nat)
    requires sb.Valid() && |d| == sb.size && sb.nmeta <= r < sb.size
    ensures forall x :: 0 <= x < sb.size && x != r && x != sb.BBlock(r) ==> Allocated(sb, d, r)[x] == d[x]
    ensures Allocated(sb, d, r)[r] == ZeroBlock() && sb.BBlock(r) < sb.nmeta
    ensures forall x :: 0 <= x < sb.size ==> Bit(sb, Allocated(sb, d, r), x) == (x == r || Bit(sb, d, x))
  {
    var w := WriteBit(sb, d, r, true);
    forall x | 0 <= x < sb.size ensures Bit(sb, Allocated(sb, d, r), x) == (x == r || Bit(sb, d, x)) {
      WriteBitBits(sb, d, r, true, x);
      BitFrame(sb, w, Allocated(sb, d, r), x);
    }
  }

  lemma BitFrame(sb: Superblock, d: Disk, e: Disk, x: nat)
    requires sb.Valid() && |d| == |e| == sb.size && x < sb.size
    requires e[sb.BBlock(x)] == d[sb.BBlock(x)]
    ensures Bit(sb, e, x) == Bit(sb, d, x)
  {}

  lemma BitsFrame(sb: Superblock, d: Disk, e: Disk, own: map<nat, Slot>)
    requires BitsOk(sb, d, own) && |e| == |d|
    requires forall x :: sb.bmapstart <= x < sb.nmeta ==> e[x] == d[x]
    ensures BitsOk(sb, e, own)
  {
    forall b | 0 <= b < sb.size ensures Bit(sb, e, b) == Bit(sb, d, b) {
      assert sb.bmapstart <= sb.BBlock(b) < sb.nmeta;
      BitFrame(sb, d, e, b);
    }
  }

  /** Giving a free block to an empty slot, and changing nothing else that is owned, keeps consistency. */
  lemma AssignSlot(sb: Superblock, d: Disk, table: seq<Dinode>, own: map<nat, Slot>,
                   e: Disk, di: Dinode, inum: nat, slot: nat, r: nat)
    requires Consistent(sb, d, table, own)
    requires |e| == |d| && di.Valid() && 1 <= inum < sb.ninodes && slot <= MAXFILE
    requires di.kind != 0 && sb.nmeta <= r < sb.size && r !in own
    requires forall x :: 0 <= x < sb.size ==> Bit(sb, e, x) == (x == r || Bit(sb, d, x))
    requires Ref(d, table[inum], slot) == 0 && Ref(e, di, slot) == r
    requires forall k :: 0 <= k <= MAXFILE && k != slot ==> Ref(e, di, k) == Ref(d, table[inum], k)
    requires forall i, k :: 1 <= i < sb.ninodes && i != inum && 0 <= k <= MAXFILE ==>
              Ref(e, table[i], k) == Ref(d, table[i], k)
    ensures Consistent(sb, e, table[inum := di], own[r := Slot(inum, slot)])
  {
    hide Bit, Ref;
    var t, o := table[inum := di], own[r := Slot(inum, slot)];
    forall i, k | 1 <= i < sb.ninodes && 0 <= k <= MAXFILE && Ref(e, t[i], k) != 0
      ensures Ref(e, t[i], k) in o && o[Ref(e, t[i], k)] == Slot(i, k)
    {
      if i == inum && k == slot {
      } else {
        assert Ref(e, t[i], k) == Ref(d, table[i], k);
      }
    }
  }

  /** Overwriting an owned data block changes no reference and no bit. */
  lemma DataWrite(sb: Superblock, d: Disk, table: seq<Dinode>, own: map<nat, Slot>, b: nat, v: Block)
    requires Consistent(sb, d, table, own) && b in own && own[b].slot < MAXFILE
    ensures Consistent(sb, d[b := v], table, own)
    ensures forall i, k :: 1 <= i < sb.ninodes && 0 <= k <= MAXFILE ==>
              Ref(d[b := v], table[i], k) == Ref(d, table[i], k)
  {
    var e := d[b := v];
    BitsFrame(sb, d, e, own);
    forall i, k | 1 <= i < sb.ninodes && 0 <= k <= MAXFILE ensures Ref(e, table[i], k) == Ref(d, table[i], k) {
      assert Ref(d, table[i], MAXFILE) == table[i].addrs[NDIRECT];
      RefFrame(d, e, table[i], k);
    }
    SameRefs(sb, d, table, own, e);
  }

  lemma SameRefs(sb: Superblock, d: Disk, table: seq<Dinode>, own: map<nat, Slot>, e: Disk)
    requires RefsOk(sb, d, table, own)
    requires forall i, k :: 1 <= i < sb.ninodes && 0 <= k <= MAXFILE ==> Ref(e, table[i], k) == Ref(d, table[i], k)
    ensures RefsOk(sb, e, table, own)
  {}

  // ---- what an operation logs ----

  /** From contents d with the blocks of l logged to e with those of m: every block changed was logged, and every
      block logged lies past the log. */
  ghost predicate LoggedOnly(sb: Superblock, d: Disk, l: set<nat>, e: Disk, m: set<nat>) {
    && |d| == |e| == sb.size && l <= m
    && (forall x :: x in m && x !in l ==> sb.inodestart <= x < sb.size)
    && (forall x :: 0 <= x < sb.size && x !in m ==> e[x] == d[x])
  }

  lemma LoggedNone(sb: Superblock, d: Disk, l: set<nat>)
    requires |d| == sb.size
    ensures LoggedOnly(sb, d, l, d, l)
  {}

  lemma LoggedThen(sb: Superblock, d: Disk, l: set<nat>, e: Disk, m: set<nat>, f: Disk, n: set<nat>)
    requires LoggedOnly(sb, d, l, e, m) && LoggedOnly(sb, e, m, f, n)
    ensures LoggedOnly(sb, d, l, f, n)
  {}

  lemma LoggedOne(sb: Superblock, d: Disk, l: set<nat>, b: nat, v: Block)
    requires |d| == sb.size && sb.inodestart <= b < sb.size
    ensures LoggedOnly(sb, d, l, d[b := v], l + {b})
  {}

  lemma LoggedInode(sb: Superblock, d: Disk, l: set<nat>, i: nat, di: Dinode)
    requires sb.Valid() && |d| == sb.size && i < sb.ninodes && di.Valid()
    ensures LoggedOnly(sb, d, l, PutInode(sb, d, i, di), l + {sb.IBlock(i)})
  {
    hide PutWords;
  }

  lemma LoggedAllocated(sb: Superblock, d: Disk, l: set<nat>, r: nat)
    requires sb.Valid() && |d| == sb.size && sb.nmeta <= r < sb.size
    ensures LoggedOnly(sb, d, l, Allocated(sb, d, r), l + {r, sb.BBlock(r)})
  {
    hide SetBit, ClearBit;
  }

  // ---- what an operation on one inode leaves alone ----

  /** From (d, table, own) to (e, t): the blocks of every inode but inum, and those inodes, in memory and on
      disk, are as they were. */
  ghost predicate Untouched(sb: Superblock, d: Disk, table: seq<Dinode>, own: map<nat, Slot>,
                            e: Disk, t: seq<Dinode>, inum: nat)
  {
    && sb.Valid() && |d| == |e| == sb.size && |table| == |t| == sb.ninodes
    && (forall x :: x in own && own[x].inum != inum && x < sb.size ==> e[x] == d[x])
    && (forall i :: 0 <= i < sb.ninodes && i != inum ==> t[i] == table[i])
    && (forall i :: 0 <= i < sb.ninodes && i != inum ==> InodeAt(sb, e, i) == InodeAt(sb, d, i))
  }

  /** In addition, no block changed hands: inode inum only gained some. */
  ghost predicate OthersKept(sb: Superblock, d: Disk, table: seq<Dinode>, own: map<nat, Slot>,
                             e: Disk, t: seq<Dinode>, o: map<nat, Slot>, inum: nat)
  {
    && Untouched(sb, d, table, own, e, t, inum)
    && (forall x :: x in own ==> x in o && o[x] == own[x])
    && (forall x :: x in o && x !in own ==> o[x].inum == inum)
  }

  /** The inode table on disk is the same wherever its blocks are. */
  lemma InodesFrame(sb: Superblock, d: Disk, e: Disk)
    requires sb.Valid() && |d| == |e| == sb.size
    requires forall x :: sb.inodestart <= x < sb.bmapstart ==> e[x] == d[x]
    ensures forall i :: 0 <= i < sb.ninodes ==> InodeAt(sb, e, i) == InodeAt(sb, d, i)
  {}

  lemma OthersKeptRefl(sb: Superblock, d: Disk, table: seq<Dinode>, own: map<nat, Slot>, inum: nat)
    requires sb.Valid() && |d| == sb.size && |table| == sb.ninodes
    ensures OthersKept(sb, d, table, own, d, table, own, inum)
  {}

  lemma OthersKeptTrans(sb: Superblock, d: Disk, table: seq<Dinode>, own: map<nat, Slot>,
                        e: Disk, t: seq<Dinode>, o: map<nat, Slot>,
                        f: Disk, u: seq<Dinode>, p: map<nat, Slot>, inum: nat)
    requires OthersKept(sb, d, table, own, e, t, o, inum) && OthersKept(sb, e, t, o, f, u, p, inum)
    ensures OthersKept(sb, d, table, own, f, u, p, inum)
  {}

  /** The contents of every other file are the same. */
  lemma OthersContent(sb: Superblock, d: Disk, table: seq<Dinode>, own: map<nat, Slot>,
                      e: Disk, t: seq<Dinode>, inum: nat, j: nat)
    requires Consistent(sb, d, table, own) && Untouched(sb, d, table, own, e, t, inum)
    requires 1 <= j < sb.ninodes && j != inum
    ensures t[j] == table[j]
    ensures forall k :: 0 <= k <= MAXFILE ==> Ref(e, t[j], k) == Ref(d, table[j], k)
    ensures Mapped(d, table[j]) ==> Mapped(e, t[j]) && Content(e, t[j]) == Content(d, table[j])
  {
    forall k | 0 <= k <= MAXFILE ensures Ref(e, t[j], k) == Ref(d, table[j], k) {
      assert Ref(d, table[j], MAXFILE) == table[j].addrs[NDIRECT];
      RefFrame(d, e, table[j], k);
    }
    if Mapped(d, table[j]) {
      forall i | 0 <= i < table[j].size ensures ByteAt(e, t[j], i) == ByteAt(d, table[j], i) {
        var b := Ref(d, table[j], i / BSIZE);
        assert b in own ==> own[b] == Slot(j, i / BSIZE);
      }
    }
  }

  // ---- itrunc ----

  /** The owners once slots 0 .. k of inode inum have been freed. */
  function Without(own: map<nat, Slot>, inum: nat, k: nat): map<nat, Slot> {
    map x | x in own && !(own[x].inum == inum && own[x].slot < k) :: own[x]
  }

  /** e differs from d in bitmap blocks only. */
  ghost predicate BitmapOnly(sb: Superblock, d: Disk, e: Disk) {
    && sb.Valid() && |d| == |e| == sb.size
    && forall x :: 0 <= x < sb.size && !(sb.bmapstart <= x < sb.nmeta) ==> e[x] == d[x]
  }

  /** Freeing the block of slot k: its bit is set, so bfree does not panic, and clearing it is right. */
  lemma FreeSlot(sb: Superblock, d: Disk, table: seq<Dinode>, own: map<nat, Slot>, inum: nat, k: nat, e: Disk)
    requires Consistent(sb, d, table, own) && 1 <= inum < sb.ninodes && k <= MAXFILE
    requires BitmapOnly(sb, d, e) && BitsOk(sb, e, Without(own, inum, k))
    ensures var r := Ref(d, table[inum], k);
            if r == 0 then Without(own, inum, k + 1) == Without(own, inum, k)
            else
              && sb.nmeta <= r < sb.size && Bit(sb, e, r)
              && BitmapOnly(sb, d, WriteBit(sb, e, r, false))
              && BitsOk(sb, WriteBit(sb, e, r, false), Without(own, inum, k + 1))
  {
    hide Bit, Ref;
    var r := Ref(d, table[inum], k);
    var was, now := Without(own, inum, k), Without(own, inum, k + 1);
    forall x | x in own && own[x] == Slot(inum, k) ensures x == r {}
    if r == 0 {
      assert now == was;
    } else {
      OwnedRef(sb, d, table, own, inum, k);
      var f := WriteBit(sb, e, r, false);
      assert sb.bmapstart <= sb.BBlock(r) < sb.nmeta;
      forall b | 0 <= b < sb.size ensures Bit(sb, f, b) <==> b < sb.nmeta || b in now {
        WriteBitBits(sb, e, r, false, b);
      }
    }
  }

  lemma TruncStart(sb: Superblock, d: Disk, table: seq<Dinode>, own: map<nat, Slot>, inum: nat)
    requires Consistent(sb, d, table, own)
    ensures BitmapOnly(sb, d, d) && BitsOk(sb, d, Without(own, inum, 0))
  {}

  lemma BitmapOnlyAt(sb: Superblock, d: Disk, e: Disk, x: nat)
    requires BitmapOnly(sb, d, e) && sb.nmeta <= x < sb.size
    ensures e[x] == d[x]
  {}

  /** With no indirect block the slots above NDIRECT are empty. */
  lemma NoIndirect(d: Disk, di: Dinode, own: map<nat, Slot>, sb: Superblock, table: seq<Dinode>, inum: nat)
    requires Consistent(sb, d, table, own) && 1 <= inum < sb.ninodes && di == table[inum] && di.addrs[NDIRECT] == 0
    ensures Without(own, inum, MAXFILE + 1) == Without(own, inum, NDIRECT)
  {
    hide Bit;
    forall x | x in own && own[x].inum == inum ensures own[x].slot < NDIRECT {
      assert Ref(d, di, own[x].slot) == x;
    }
  }

  /** With every slot freed and the addrs cleared, what is left is consistent. */
  lemma Truncated(sb: Superblock, d: Disk, table: seq<Dinode>, own: map<nat, Slot>, inum: nat, e: Disk, di: Dinode)
    requires Consistent(sb, d, table, own) && 1 <= inum < sb.ninodes && di.Valid()
    requires BitmapOnly(sb, d, e) && BitsOk(sb, e, Without(own, inum, MAXFILE + 1))
    requires forall k :: 0 <= k <= NDIRECT ==> di.addrs[k] == 0
    ensures Consistent(sb, e, table[inum := di], Without(own, inum, MAXFILE + 1))
    ensures Untouched(sb, d, table, own, e, table[inum := di], inum)
  {
    hide Bit, InodeAt;
    var t, o := table[inum := di], Without(own, inum, MAXFILE + 1);
    InodesFrame(sb, d, e);
    forall i, k | 1 <= i < sb.ninodes && 0 <= k <= MAXFILE
      ensures Ref(e, t[i], k) == if i == inum then 0 else Ref(d, table[i], k)
    {
      if i != inum {
        RefIs(d, table[i], MAXFILE);
        OwnedRef(sb, d, table, own, i, MAXFILE);
        RefFrame(d, e, table[i], k);
      }
    }
    TruncatedRefs(sb, d, table, own, inum, e, di);
  }

  lemma TruncatedRefs(sb: Superblock, d: Disk, table: seq<Dinode>, own: map<nat, Slot>, inum: nat, e: Disk, di: Dinode)
    requires RefsOk(sb, d, table, own) && 1 <= inum < sb.ninodes && di.Valid()
    requires forall k :: 0 <= k <= NDIRECT ==> di.addrs[k] == 0
    requires forall i, k :: 1 <= i < sb.ninodes && 0 <= k <= MAXFILE ==>
               Ref(e, table[inum := di][i], k) == if i == inum then 0 else Ref(d, table[i], k)
    ensures RefsOk(sb, e, table[inum := di], Without(own, inum, MAXFILE + 1))
  {
    hide Ref;
    var t, o := table[inum := di], Without(own, inum, MAXFILE + 1);
    forall b | b in o
      ensures sb.nmeta <= b < sb.size && 1 <= o[b].inum < sb.ninodes && o[b].slot <= MAXFILE
      ensures Ref(e, t[o[b].inum], o[b].slot) == b
    {
      assert own[b].inum != inum;
      assert Ref(d, table[own[b].inum], own[b].slot) == b;
    }
    forall i, k | 1 <= i < sb.ninodes && 0 <= k <= MAXFILE && Ref(e, t[i], k) != 0
      ensures Ref(e, t[i], k) in o && o[Ref(e, t[i], k)] == Slot(i, k)
    {
      assert i != inum && Ref(e, t[i], k) == Ref(d, table[i], k);
    }
    forall i, k | 1 <= i < sb.ninodes && 0 <= k <= NDIRECT && t[i].kind == 0 ensures t[i].addrs[k] == 0 {
      assert i != inum ==> t[i] == table[i];
    }
  }

  // ---- bmap's three allocations ----

  /** What bmap(ip, bn) may do: slot bn of inode inum, and its indirect block, may go from empty to a new block.
      All data, all other slots and the inode table on disk stay. */
  ghost predicate Extended(sb: Superblock, d: Disk, table: seq<Dinode>, own: map<nat, Slot>,
                           e: Disk, t: seq<Dinode>, o: map<nat, Slot>, inum: nat, bn: nat)
  {
    && OthersKept(sb, d, table, own, e, t, o, inum)
    && inum < sb.ninodes && table[inum].Valid() && t[inum].Valid()
    && InodeAt(sb, e, inum) == InodeAt(sb, d, inum)
    && (forall k :: 0 <= k < MAXFILE && k != bn ==> Ref(e, t[inum], k) == Ref(d, table[inum], k))
    && (forall x :: x in own && own[x].slot < MAXFILE && x < sb.size ==> e[x] == d[x])
    && (table[inum].addrs[NDIRECT] != 0 ==> t[inum].addrs[NDIRECT] == table[inum].addrs[NDIRECT])
  }

  lemma ExtendedRefl(sb: Superblock, d: Disk, table: seq<Dinode>, own: map<nat, Slot>, inum: nat, bn: nat)
    requires Consistent(sb, d, table, own) && inum < sb.ninodes
    ensures Extended(sb, d, table, own, d, table, own, inum, bn)
  {}

  lemma ExtendedTrans(sb: Superblock, d: Disk, table: seq<Dinode>, own: map<nat, Slot>,
                      e: Disk, t: seq<Dinode>, o: map<nat, Slot>,
                      f: Disk, u: seq<Dinode>, p: map<nat, Slot>, inum: nat, bn: nat)
    requires Extended(sb, d, table, own, e, t, o, inum, bn) && Extended(sb, e, t, o, f, u, p, inum, bn)
    ensures Extended(sb, d, table, own, f, u, p, inum, bn)
  {
    hide Ref, InodeAt;
  }

  /** The slot addrs[k] stands for. */
  function AddrSlot(k: nat): nat
    requires k <= NDIRECT
  {
    if k == NDIRECT then MAXFILE else k
  }

  /** addrs[k] = balloc(), for a direct block or the indirect block. */
  lemma AssignAddr(sb: Superblock, d: Disk, table: seq<Dinode>, own: map<nat, Slot>, inum: nat, k: nat, r: nat, bn: nat)
    requires Consistent(sb, d, table, own) && 1 <= inum < sb.ninodes && k <= NDIRECT && (k == NDIRECT || bn == k)
    requires table[inum].kind != 0 && table[inum].addrs[k] == 0 && r < sb.size && !Bit(sb, d, r)
    ensures var e, di, o := Allocated(sb, d, r), table[inum].(addrs := table[inum].addrs[k := r]),
              own[r := Slot(inum, AddrSlot(k))];
            && sb.nmeta <= r && r !in own && Consistent(sb, e, table[inum := di], o)
            && Extended(sb, d, table, own, e, table[inum := di], o, inum, bn)
            && e[r] == ZeroBlock() && Ref(e, di, AddrSlot(k)) == r
            && forall j :: 0 <= j <= MAXFILE && j != AddrSlot(k) ==> Ref(e, di, j) == Ref(d, table[inum], j)
  {
    hide Bit, SetWord, WriteBit, InodeAt, Ref, Allocated;
    var e, di := Allocated(sb, d, r), table[inum].(addrs := table[inum].addrs[k := r]);
    AssignAddrRefs(sb, d, table, own, inum, k, r);
    AssignSlot(sb, d, table, own, e, di, inum, AddrSlot(k), r);
    InodesFrame(sb, d, e);
  }

  /** What is found through the inodes before and after. */
  lemma AssignAddrRefs(sb: Superblock, d: Disk, table: seq<Dinode>, own: map<nat, Slot>, inum: nat, k: nat, r: nat)
    requires Consistent(sb, d, table, own) && 1 <= inum < sb.ninodes && k <= NDIRECT
    requires table[inum].kind != 0 && table[inum].addrs[k] == 0 && r < sb.size && !Bit(sb, d, r)
    ensures var e, di := Allocated(sb, d, r), table[inum].(addrs := table[inum].addrs[k := r]);
            && sb.nmeta <= r && r !in own && |e| == |d| && e[r] == ZeroBlock() && table[inum].Valid() && di.Valid()
            && (forall x :: 0 <= x < sb.size ==> Bit(sb, e, x) == (x == r || Bit(sb, d, x)))
            && (forall x :: 0 <= x < sb.size && x != r && !(sb.bmapstart <= x < sb.nmeta) ==> e[x] == d[x])
            && Ref(e, di, AddrSlot(k)) == r && Ref(d, table[inum], AddrSlot(k)) == 0
            && (forall j :: 0 <= j <= MAXFILE && j != AddrSlot(k) ==> Ref(e, di, j) == Ref(d, table[inum], j))
            && (forall i, j :: 1 <= i < sb.ninodes && i != inum && 0 <= j <= MAXFILE ==>
                                 Ref(e, table[i], j) == Ref(d, table[i], j))
            && (forall x :: x in own ==> sb.nmeta <= x < sb.size)
  {
    hide Bit, SetWord, WriteBit, InodeAt;
    var e, di := Allocated(sb, d, r), table[inum].(addrs := table[inum].addrs[k := r]);
    assert sb.nmeta <= r;
    AllocatedBlocks(sb, d, r);
    assert sb.BBlock(r) >= sb.bmapstart;
    forall j | 0 <= j <= MAXFILE && j != AddrSlot(k) ensures Ref(e, di, j) == Ref(d, table[inum], j) {
      FreshIndirect(sb, d, table, own, e, inum, k, r, j);
    }
    forall i, j | 1 <= i < sb.ninodes && i != inum && 0 <= j <= MAXFILE
      ensures Ref(e, table[i], j) == Ref(d, table[i], j)
    {
      assert Ref(d, table[i], MAXFILE) == table[i].addrs[NDIRECT];
      RefFrame(d, e, table[i], j);
    }
  }

  lemma FreshIndirect(sb: Superblock, d: Disk, table: seq<Dinode>, own: map<nat, Slot>, e: Disk, inum: nat, k: nat,
                      r: nat, j: nat)
    requires Consistent(sb, d, table, own) && 1 <= inum < sb.ninodes && k <= NDIRECT
    requires table[inum].addrs[k] == 0 && 0 < r < sb.size == |e| && e[r] == ZeroBlock()
    requires forall x :: x in own ==> e[x] == d[x]
    requires j <= MAXFILE && j != AddrSlot(k)
    ensures Ref(e, table[inum].(addrs := table[inum].addrs[k := r]), j) == Ref(d, table[inum], j)
  {
    assert Ref(d, table[inum], MAXFILE) == table[inum].addrs[NDIRECT];
    if NDIRECT <= j < MAXFILE {
      ZeroWord(j - NDIRECT);
    }
  }

  /** a[k - NDIRECT] = balloc(), in the indirect block. */
  lemma AssignWord(sb: Superblock, d: Disk, table: seq<Dinode>, own: map<nat, Slot>, inum: nat, k: nat, r: nat)
    requires Consistent(sb, d, table, own) && 1 <= inum < sb.ninodes && NDIRECT <= k < MAXFILE
    requires table[inum].kind != 0 && table[inum].addrs[NDIRECT] != 0 && Ref(d, table[inum], k) == 0
    requires r < sb.size && !Bit(sb, d, r)
    ensures var ind := table[inum].addrs[NDIRECT];
            && sb.nmeta <= r && r !in own && ind in own && own[ind] == Slot(inum, MAXFILE) && r < W32
            && Allocated(sb, d, r)[ind] == d[ind]
            && var e, o := Allocated(sb, d, r)[ind := SetWord(d[ind], k - NDIRECT, r)], own[r := Slot(inum, k)];
            && Consistent(sb, e, table, o)
            && Extended(sb, d, table, own, e, table, o, inum, k)
            && e[r] == ZeroBlock() && Ref(e, table[inum], k) == r
  {
    hide Bit, Word, SetWord, WriteBit, InodeAt, Ref, Allocated;
    AssignWordRefs(sb, d, table, own, inum, k, r);
    var ind := table[inum].addrs[NDIRECT];
    var e := Allocated(sb, d, r)[ind := SetWord(d[ind], k - NDIRECT, r)];
    assert table[inum := table[inum]] == table;
    AssignSlot(sb, d, table, own, e, table[inum], inum, k, r);
    InodesFrame(sb, d, e);
  }

  /** What is found through the inodes before and after. */
  lemma AssignWordRefs(sb: Superblock, d: Disk, table: seq<Dinode>, own: map<nat, Slot>, inum: nat, k: nat, r: nat)
    requires Consistent(sb, d, table, own) && 1 <= inum < sb.ninodes && NDIRECT <= k < MAXFILE
    requires table[inum].kind != 0 && table[inum].addrs[NDIRECT] != 0 && Ref(d, table[inum], k) == 0
    requires r < sb.size && !Bit(sb, d, r)
    ensures var ind := table[inum].addrs[NDIRECT];
            && sb.nmeta <= r && r !in own && ind in own && own[ind] == Slot(inum, MAXFILE) && r < W32
            && |Allocated(sb, d, r)| == |d| && Allocated(sb, d, r)[ind] == d[ind]
            && var e := Allocated(sb, d, r)[ind := SetWord(d[ind], k - NDIRECT, r)];
            && e[r] == ZeroBlock() && table[inum].Valid()
            && (forall x :: 0 <= x < sb.size ==> Bit(sb, e, x) == (x == r || Bit(sb, d, x)))
            && (forall x :: 0 <= x < sb.size && x != r && x != ind && !(sb.bmapstart <= x < sb.nmeta) ==> e[x] == d[x])
            && Ref(d, table[inum], k) == 0
            && (forall j :: 0 <= j <= MAXFILE ==>
                Ref(e, table[inum], j) == if j == k then r else Ref(d, table[inum], j))
            && (forall i, j :: 1 <= i < sb.ninodes && i != inum && 0 <= j <= MAXFILE ==>
                                 Ref(e, table[i], j) == Ref(d, table[i], j))
            && (forall x :: x in own ==> sb.nmeta <= x < sb.size)
  {
    hide Bit, Word, SetWord, WriteBit, InodeAt;
    var di := table[inum];
    var ind := di.addrs[NDIRECT];
    assert Ref(d, di, MAXFILE) == ind;
    assert sb.nmeta <= r;
    AllocatedBlocks(sb, d, r);
    assert sb.BBlock(r) >= sb.bmapstart;
    var a := Allocated(sb, d, r);
    var e := a[ind := SetWord(d[ind], k - NDIRECT, r)];
    forall x | 0 <= x < sb.size ensures Bit(sb, e, x) == Bit(sb, a, x) {
      assert sb.BBlock(x) < sb.nmeta;
      BitFrame(sb, a, e, x);
    }
    forall j | 0 <= j <= MAXFILE ensures Ref(e, di, j) == if j == k then r else Ref(d, di, j) {
      if NDIRECT <= j < MAXFILE {
        SetWordGet(d[ind], k - NDIRECT, r, j - NDIRECT);
      }
    }
    forall i, j | 1 <= i < sb.ninodes && i != inum && 0 <= j <= MAXFILE
      ensures Ref(e, table[i], j) == Ref(d, table[i], j)
    {
      assert Ref(d, table[i], MAXFILE) == table[i].addrs[NDIRECT];
      RefFrame(d, e, table[i], j);
    }
  }

  lemma ExtendedKeeps(sb: Superblock, d: Disk, table: seq<Dinode>, own: map<nat, Slot>,
                      e: Disk, t: seq<Dinode>, o: map<nat, Slot>, inum: nat, bn: nat)
    requires Extended(sb, d, table, own, e, t, o, inum, bn) && bn < MAXFILE
    requires Consistent(sb, d, table, own) && Consistent(sb, e, t, o)
    requires Ref(d, table[inum], bn) != 0 ==> e == d && t == table
    ensures OthersKept(sb, d, table, own, e, t, o, inum) && |e| == sb.size && TableValid(sb, t)
    ensures forall k :: 0 <= k < MAXFILE && Ref(d, table[inum], k) != 0 ==> Ref(e, t[inum], k) == Ref(d, table[inum], k)
    ensures forall x :: x in own && own[x].slot < MAXFILE ==> e[x] == d[x]
    ensures bn >= NDIRECT && Ref(e, t[inum], bn) != 0 ==> t[inum].addrs[NDIRECT] != 0
  {}

  // ---- bytes of the file being written ----

  lemma BytesKept(sb: Superblock, d: Disk, table: seq<Dinode>, own: map<nat, Slot>, e: Disk, di: Dinode, inum: nat)
    requires Consistent(sb, d, table, own) && |e| == |d| && di.Valid() && 1 <= inum < sb.ninodes
    requires forall k :: 0 <= k < MAXFILE && Ref(d, table[inum], k) != 0 ==> Ref(e, di, k) == Ref(d, table[inum], k)
    requires forall x :: x in own && own[x].slot < MAXFILE ==> e[x] == d[x]
    ensures forall o :: 0 <= o < MAXFILE * BSIZE && Ref(d, table[inum], o / BSIZE) != 0 ==>
              ByteAt(e, di, o) == ByteAt(d, table[inum], o)
  {}

  /** A chunk that stays inside one block is a slice of that block. */
  lemma ChunkBytes(d: Disk, di: Dinode, off: nat, m: nat)
    requires di.Valid() && off % BSIZE + m <= BSIZE && off / BSIZE < MAXFILE
    requires 0 < Ref(d, di, off / BSIZE) < |d|
    ensures forall i :: off <= i < off + m ==>
              i < MAXFILE * BSIZE && ByteAt(d, di, i) == d[Ref(d, di, off / BSIZE)][i - off + off % BSIZE]
  {}

  /** memmove of src into a block at offset `at`. */
  function Patch(b: Block, at: nat, src: seq<byte>): Block
    requires at + |src| <= BSIZE
  {
    b[..at] + src + b[at + |src|..]
  }

  lemma BytesPatched(sb: Superblock, d: Disk, table: seq<Dinode>, own: map<nat, Slot>, inum: nat, bn: nat, v: Block)
    requires Consistent(sb, d, table, own) && 1 <= inum < sb.ninodes && bn < MAXFILE
    requires Ref(d, table[inum], bn) != 0
    ensures var addr := Ref(d, table[inum], bn);
            && addr in own && own[addr] == Slot(inum, bn) && addr < sb.size
            && var e := d[addr := v];
            && Consistent(sb, e, table, own)
            && OthersKept(sb, d, table, own, e, table, own, inum)
            && InodeAt(sb, e, inum) == InodeAt(sb, d, inum)
            && (forall k :: 0 <= k <= MAXFILE ==> Ref(e, table[inum], k) == Ref(d, table[inum], k))
            && forall o :: 0 <= o < MAXFILE * BSIZE ==>
                 ByteAt(e, table[inum], o) == if o / BSIZE == bn then v[o % BSIZE] else ByteAt(d, table[inum], o)
  {
    hide Ref, Bit, InodeAt;
    OwnedRef(sb, d, table, own, inum, bn);
    var addr := Ref(d, table[inum], bn);
    var e := d[addr := v];
    DataWrite(sb, d, table, own, addr, v);
    InodesFrame(sb, d, e);
    forall o | 0 <= o < MAXFILE * BSIZE
      ensures ByteAt(e, table[inum], o) == if o / BSIZE == bn then v[o % BSIZE] else ByteAt(d, table[inum], o)
    {
      OwnedRef(sb, d, table, own, inum, o / BSIZE);
    }
  }

  /** iupdate touches no owned block, no bitmap block and no other inode. */
  lemma InodeWrite(sb: Superblock, d: Disk, table: seq<Dinode>, own: map<nat, Slot>, inum: nat, di: Dinode)
    requires Consistent(sb, d, table, own) && 1 <= inum < sb.ninodes && table[inum] == di
    ensures var e := PutInode(sb, d, inum, di);
            && Consistent(sb, e, table, own)
            && OthersKept(sb, d, table, own, e, table, own, inum)
            && InodeAt(sb, e, inum) == di
            && (forall x :: x in own ==> e[x] == d[x])
            && (forall k :: 0 <= k <= MAXFILE ==> Ref(e, di, k) == Ref(d, di, k))
            && forall o :: 0 <= o < MAXFILE * BSIZE ==> ByteAt(e, di, o) == ByteAt(d, di, o)
  {
    hide Bit, InodeAt, PutWords, Word;
    var e := PutInode(sb, d, inum, di);
    assert sb.IBlock(inum) < sb.bmapstart;
    BitsFrame(sb, d, e, own);
    forall i, k | 1 <= i < sb.ninodes && 0 <= k <= MAXFILE ensures Ref(e, table[i], k) == Ref(d, table[i], k) {
      RefIs(d, table[i], MAXFILE);
      OwnedRef(sb, d, table, own, i, MAXFILE);
      RefFrame(d, e, table[i], k);
    }
    SameRefs(sb, d, table, own, e);
    forall i | 0 <= i < sb.ninodes ensures InodeAt(sb, e, i) == if i == inum then di else InodeAt(sb, d, i) {
      PutInodeGet(sb, d, inum, di, i);
    }
    forall o | 0 <= o < MAXFILE * BSIZE ensures ByteAt(e, di, o) == ByteAt(d, di, o) {
      OwnedRef(sb, d, table, own, inum, o / BSIZE);
    }
  }

  /** Saving an inode whose addrs have not changed since the table had them. */
  lemma InodeSaved(sb: Superblock, d: Disk, table: seq<Dinode>, own: map<nat, Slot>, inum: nat, di: Dinode)
    requires Consistent(sb, d, table, own) && 1 <= inum < sb.ninodes && di.Valid() && di.addrs == table[inum].addrs
    requires di.kind == 0 ==> forall k :: 0 <= k <= NDIRECT ==> di.addrs[k] == 0
    ensures var t, e := table[inum := di], PutInode(sb, d, inum, di);
            && Consistent(sb, d, t, own) && Consistent(sb, e, t, own)
            && OthersKept(sb, d, table, own, e, t, own, inum)
            && InodeAt(sb, e, inum) == di
            && (Mapped(d, di) ==> Mapped(e, di) && Content(e, di) == Content(d, di))
  {
    hide Bit, InodeAt, PutWords, Word;
    var t := table[inum := di];
    forall i, k | 1 <= i < sb.ninodes && 0 <= k <= MAXFILE ensures Ref(d, t[i], k) == Ref(d, table[i], k) {}
    InodeWrite(sb, d, t, own, inum, di);
  }

  /** Part way through a write: src[..off - off0] is in the file, and the rest is as it was in (d0, di0). */
  ghost predicate Progress(d0: Disk, di0: Dinode, d: Disk, di: Dinode, off0: nat, off: nat, src: seq<byte>)
    requires di0.Valid() && di.Valid()
  {
    && off0 <= off <= off0 + |src| <= MAXFILE * BSIZE && off0 <= di0.size <= MAXFILE * BSIZE
    && (forall k :: 0 <= k < MAXFILE && (k * BSIZE < di0.size || k * BSIZE < off) ==> Ref(d, di, k) != 0)
    && forall o :: 0 <= o < MAXFILE * BSIZE && (o < di0.size || o < off) ==>
         ByteAt(d, di, o) == if off0 <= o < off then src[o - off0] else ByteAt(d0, di0, o)
  }

  /** Blocks below the size, or below what has been written, are mapped. */
  lemma ProgressMapped(d0: Disk, di0: Dinode, d: Disk, di: Dinode, off0: nat, off: nat, src: seq<byte>, bn: nat)
    requires di0.Valid() && di.Valid() && Progress(d0, di0, d, di, off0, off, src) && bn < MAXFILE
    ensures bn * BSIZE < di0.size || bn * BSIZE < off ==> Ref(d, di, bn) != 0
  {}

  /** bmap, called for any block, keeps what has been written. */
  lemma ProgressBmap(sb: Superblock, d0: Disk, di0: Dinode, d: Disk, table: seq<Dinode>, own: map<nat, Slot>,
                     e: Disk, di: Dinode, inum: nat, off0: nat, off: nat, src: seq<byte>)
    requires Consistent(sb, d, table, own) && |e| == |d| && di.Valid() && 1 <= inum < sb.ninodes && di0.Valid()
    requires Progress(d0, di0, d, table[inum], off0, off, src)
    requires forall k :: 0 <= k < MAXFILE && Ref(d, table[inum], k) != 0 ==> Ref(e, di, k) == Ref(d, table[inum], k)
    requires forall x :: x in own && own[x].slot < MAXFILE ==> e[x] == d[x]
    ensures Progress(d0, di0, e, di, off0, off, src)
  {
    hide Ref, ByteAt, Consistent;
    ConsistentShape(sb, d, table, own);
    BytesKept(sb, d, table, own, e, di, inum);
    forall o | 0 <= o < MAXFILE * BSIZE && (o < di0.size || o < off)
      ensures ByteAt(e, di, o) == if off0 <= o < off then src[o - off0] else ByteAt(d0, di0, o)
    {
      assert o / BSIZE * BSIZE <= o;
      assert Ref(d, table[inum], o / BSIZE) != 0;
    }
  }

  /** The chunk's bytes, byte by byte. */
  lemma ChunkWritten(d0: Disk, di0: Dinode, d: Disk, di: Dinode, e: Disk, off0: nat, off: nat, src: seq<byte>,
                     m: nat, o: nat)
    requires di0.Valid() && di.Valid() && Progress(d0, di0, d, di, off0, off, src)
    requires 0 < m <= |src| - (off - off0) && off % BSIZE + m <= BSIZE && 0 < Ref(d, di, off / BSIZE) < |d|
    requires o < MAXFILE * BSIZE && (o < di0.size || o < off + m)
    requires var v := Patch(d[Ref(d, di, off / BSIZE)], off % BSIZE, src[off - off0..off - off0 + m]);
             ByteAt(e, di, o) == if o / BSIZE == off / BSIZE then v[o % BSIZE] else ByteAt(d, di, o)
    ensures ByteAt(e, di, o) == if off0 <= o < off + m then src[o - off0] else ByteAt(d0, di0, o)
  {
    hide Ref;
    var bn, at := off / BSIZE, off % BSIZE;
    assert off == bn * BSIZE + at;
    if o / BSIZE == bn {
      assert o == bn * BSIZE + o % BSIZE;
      var addr := Ref(d, di, bn);
      var v := Patch(d[addr], at, src[off - off0..off - off0 + m]);
      if off <= o < off + m {
        assert v[o % BSIZE] == src[o - off0];
      } else {
        assert v[o % BSIZE] == d[addr][o % BSIZE];
        assert ByteAt(d, di, o) == d[addr][o % BSIZE];
      }
    }
  }

  lemma ProgressChunk(sb: Superblock, d0: Disk, di0: Dinode, d: Disk, table: seq<Dinode>, own: map<nat, Slot>,
                      inum: nat, off0: nat, off: nat, src: seq<byte>, m: nat)
    requires Consistent(sb, d, table, own) && 1 <= inum < sb.ninodes && di0.Valid()
    requires Progress(d0, di0, d, table[inum], off0, off, src)
    requires 0 < m <= |src| - (off - off0) && off % BSIZE + m <= BSIZE && Ref(d, table[inum], off / BSIZE) != 0
    ensures var addr := Ref(d, table[inum], off / BSIZE);
            && addr < |d|
            && Progress(d0, di0, d[addr := Patch(d[addr], off % BSIZE, src[off - off0..off - off0 + m])], table[inum],
                 off0, off + m, src)
  {
    hide Ref, ByteAt, Consistent, OthersKept, Patch;
    ConsistentShape(sb, d, table, own);
    var di, bn := table[inum], off / BSIZE;
    OwnedRef(sb, d, table, own, inum, bn);
    var addr := Ref(d, di, bn);
    var v := Patch(d[addr], off % BSIZE, src[off - off0..off - off0 + m]);
    var e := d[addr := v];
    BytesPatched(sb, d, table, own, inum, bn, v);
    forall o | 0 <= o < MAXFILE * BSIZE && (o < di0.size || o < off + m)
      ensures ByteAt(e, di, o) == if off0 <= o < off + m then src[o - off0] else ByteAt(d0, di0, o)
    {
      ChunkWritten(d0, di0, d, di, e, off0, off, src, m, o);
    }
    forall k | 0 <= k < MAXFILE && (k * BSIZE < di0.size || k * BSIZE < off + m) ensures Ref(e, di, k) != 0 {
      if k * BSIZE >= off && k * BSIZE >= di0.size {
        assert k == bn;
      }
    }
  }

  /** At the end of the write, with the size raised to the end of what was written. */
  lemma ProgressDone(d0: Disk, di0: Dinode, d: Disk, di: Dinode, di1: Dinode, off0: nat, src: seq<byte>)
    requires di0.Valid() && di.Valid() && Progress(d0, di0, d, di, off0, off0 + |src|, src)
    requires di.size == di0.size
    requires di1 == di.(size := if off0 + |src| > di.size then off0 + |src| else di.size)
    ensures di1.Valid() && Mapped(d, di1)
    ensures Content(d, di1) == Overwrite(Content(d0, di0), off0, src)
  {
    hide Word;
    forall k | 0 <= k < MAXFILE && k * BSIZE < di1.size ensures Ref(d, di1, k) != 0 {
      assert Ref(d, di1, k) == Ref(d, di, k);
    }
    forall o | 0 <= o < di1.size
      ensures Content(d, di1)[o] == Overwrite(Content(d0, di0), off0, src)[o]
    {
      assert ByteAt(d, di1, o) == ByteAt(d, di, o);
    }
  }

  // ---- the blocks one write logs ----

  /** The number of file blocks that bytes off .. off + n touch. */
  function Touched(off: nat, n: nat): nat {
    if n == 0 then 0 else (off + n - 1) / BSIZE - off / BSIZE + 1
  }

  /** Data blocks, bitmap blocks for all of them but one that a write starting inside a block finds mapped, and
      the indirect block with its bitmap block; the inode's block comes on top. */
  function WriteBound(off: nat, n: nat): int {
    2 * Touched(off, n) + 2 - if off % BSIZE != 0 then 1 else 0
  }

  lemma TouchedStep(off: nat, tot: nat, m: nat)
    requires m > 0 && (off + tot) % BSIZE + m <= BSIZE && (tot == 0 || (off + tot) % BSIZE == 0)
    ensures Touched(off, tot + m) == Touched(off, tot) + 1
  {}

  lemma {:induction false} UnionSize(s: set<nat>, a: set<nat>, b: set<nat>, c: set<nat>)
    requires s <= a + b + c
    ensures |s| <= |a| + |b| + |c|
  {
    SubsetSize(s, a + b + c);
    assert |a + b| == |a| + |b| - |a * b|;
    assert |a + b + c| == |a + b| + |c| - |(a + b) * c|;
  }

  lemma SubsetSize(a: set<nat>, b: set<nat>)
    requires a <= b
    ensures |a| <= |b|
  {
    assert b == a + (b - a);
  }

  /** The blocks bmap logs on account of the indirect block: the block itself, and its bitmap block if it is new. */
  function IndirectLogs(sb: Superblock, before: Dinode, after: Dinode, bn: nat): set<nat>
    requires before.Valid() && after.Valid()
  {
    var ind := after.addrs[NDIRECT];
    if bn < NDIRECT then {} else if before.addrs[NDIRECT] == 0 then {ind, sb.BBlock(ind)} else {ind}
  }

  /** The blocks logged so far: n data blocks at most, m bitmap blocks for them, and those of the indirect block. */
  ghost predicate Tally(sb: Superblock, logged: set<nat>, before: set<nat>, data: set<nat>, maps: set<nat>,
                        ind: nat, n: int, m: int)
  {
    && logged <= before + data + maps + (if ind == 0 then {} else {ind, sb.BBlock(ind)})
    && |data| <= n && |maps| <= m
  }

  lemma TallyMapped(sb: Superblock, logged: set<nat>, before: set<nat>, data: set<nat>, maps: set<nat>,
                    ind: nat, n: int, m: int, addr: nat)
    requires Tally(sb, logged, before, data, maps, ind, n, m)
    ensures Tally(sb, logged + {addr}, before, data + {addr}, maps, ind, n + 1, m)
  {}

  lemma TallyAllocated(sb: Superblock, logged: set<nat>, before: set<nat>, data: set<nat>, maps: set<nat>,
                       n: int, m: int, addr: nat, was: Dinode, now: Dinode, bn: nat)
    requires was.Valid() && now.Valid() && (was.addrs[NDIRECT] != 0 ==> now.addrs[NDIRECT] == was.addrs[NDIRECT])
    requires bn >= NDIRECT ==> now.addrs[NDIRECT] != 0
    requires Tally(sb, logged, before, data, maps, was.addrs[NDIRECT], n, m)
    ensures Tally(sb, logged + {addr, sb.BBlock(addr)} + IndirectLogs(sb, was, now, bn) + {addr}, before,
              data + {addr}, maps + {sb.BBlock(addr)}, now.addrs[NDIRECT], n + 1, m + 1)
  {}

  lemma TallySize(sb: Superblock, logged: set<nat>, data: set<nat>, maps: set<nat>, ind: nat, n: int, m: int)
    requires Tally(sb, logged, {}, data, maps, ind, n, m)
    ensures |logged| <= n + m + 2
  {
    var c := if ind == 0 then {} else {ind, sb.BBlock(ind)};
    UnionSize(logged, data, maps, c);
  }

  lemma UntouchedSaved(sb: Superblock, d: Disk, table: seq<Dinode>, own: map<nat, Slot>,
                       e: Disk, t: seq<Dinode>, o: map<nat, Slot>, inum: nat, di: Dinode)
    requires Untouched(sb, d, table, own, e, t, inum) && Consistent(sb, e, t, o) && 1 <= inum < sb.ninodes
              && t[inum] == di
    requires o == Without(own, inum, MAXFILE + 1)
    ensures Untouched(sb, d, table, own, PutInode(sb, e, inum, di), t, inum)
  {
    hide Bit, InodeAt, PutWords, Word, Ref;
    var f := PutInode(sb, e, inum, di);
    forall i | 0 <= i < sb.ninodes && i != inum ensures InodeAt(sb, f, i) == InodeAt(sb, d, i) {
      PutInodeGet(sb, e, inum, di, i);
    }
    assert sb.IBlock(inum) < sb.bmapstart;
    forall x | x in own && own[x].inum != inum && x < sb.size ensures f[x] == d[x] {
      assert x in o;
    }
  }

  // ---- between operations ----

  /** No operation in progress: ownership is consistent with the inodes on disk, and no file has a hole. */
  ghost predicate Quiet(sb: Superblock, d: Disk, own: map<nat, Slot>) {
    && sb.Valid() && |d| == sb.size
    && Consistent(sb, d, DiskTable(sb, d), own)
    && forall i :: 1 <= i < sb.ninodes ==> Mapped(d, InodeAt(sb, d, i))
  }

  /** An operation that leaves the other inodes untouched, and its own saved and mapped, ends quiet. */
  lemma QuietAgain(sb: Superblock, d: Disk, table: seq<Dinode>, own: map<nat, Slot>,
                   e: Disk, t: seq<Dinode>, o: map<nat, Slot>, inum: nat)
    requires Quiet(sb, d, own) && table == DiskTable(sb, d)
    requires Untouched(sb, d, table, own, e, t, inum) && Consistent(sb, e, t, o) && 1 <= inum < sb.ninodes
    requires InodeAt(sb, e, inum) == t[inum] && Mapped(e, t[inum])
    ensures Quiet(sb, e, o) && t == DiskTable(sb, e)
  {
    hide Bit, Ref, InodeAt, Mapped, Content;
    forall i | 0 <= i < sb.ninodes ensures InodeAt(sb, e, i) == t[i] {
      if i != inum {
        assert t[i] == table[i] == InodeAt(sb, d, i);
      }
    }
    assert t == DiskTable(sb, e);
    forall i | 1 <= i < sb.ninodes ensures Mapped(e, t[i]) {
      if i != inum {
        OthersContent(sb, d, table, own, e, t, inum, i);
      }
    }
  }

  lemma EmptyIsMapped(d: Disk, di: Dinode)
    requires di.Valid() && di.size == 0
    ensures Mapped(d, di)
  {}

  /** Claiming a free inode. */
  lemma Claimed(sb: Superblock, d: Disk, table: seq<Dinode>, own: map<nat, Slot>, inum: nat, di: Dinode)
    requires Consistent(sb, d, table, own) && 1 <= inum < sb.ninodes && table[inum].kind == 0
    requires di.Valid() && di.addrs == FreeInode().addrs
    ensures var t, e := table[inum := di], PutInode(sb, d, inum, di);
            Consistent(sb, e, t, own) && Untouched(sb, d, table, own, e, t, inum) && InodeAt(sb, e, inum) == di
  {
    assert di.addrs == table[inum].addrs;
    InodeSaved(sb, d, table, own, inum, di);
  }
}
