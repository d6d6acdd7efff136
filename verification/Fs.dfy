/** fs.c as code: the block allocator, the block map of an inode, and reading and writing file contents.
    The buffer cache is taken at its word: bread(b)->data is blocks[b], the data last left in block b. */
module Fs {
  import opened Bytes
  import opened FsSpec
  import opened FsSteps
  import opened FsWrite
  import opened FsRead
  import opened FsSpace

  /** struct inode: the in-memory copy of an inode. */
  class Inode {
    const inum: nat
    var ref: nat
    var valid: bool
    var kind: nat
    var major: nat
    var minor: nat
    var nlink: nat
    var size: nat
    var addrs: seq<nat>

    constructor (inum: nat)
      ensures this.inum == inum && ref == 1 && !valid
    {
      this.inum := inum;
      ref, valid := 1, false;
      kind, major, minor, nlink, size, addrs := 0, 0, 0, 0, 0, [];
    }

    function Rec(): Dinode
      reads this
    {
      Dinode(kind, major, minor, nlink, size, addrs)
    }
  }

  class FileSystem {
    const sb: Superblock
    var blocks: Disk
    var logged: set<nat>            // blocks logged since begin_op
    ghost var table: seq<Dinode>    // every inode, as the in-memory copies have it
    ghost var own: map<nat, Slot>   // who holds each block

    ghost predicate Valid()
      reads this
    {
      Consistent(sb, blocks, table, own)
    }

    ghost function Now(): Snap
      reads this
    {
      Snap(blocks, table, own, logged)
    }

    /** Inode i's slot on disk is up to date. */
    ghost predicate Synced(i: nat)
      reads this
      requires Valid() && i < sb.ninodes
    {
      InodeAt(sb, blocks, i) == table[i]
    }

    /** ip is the in-memory copy of an allocated inode. */
    ghost predicate Holds(ip: Inode)
      reads this, ip
    {
      Valid() && 1 <= ip.inum < sb.ninodes && ip.Rec() == table[ip.inum] && ip.kind != 0
    }

    constructor (sb: Superblock, image: Disk, ghost own: map<nat, Slot>)
      requires sb.Valid() && |image| == sb.size && Consistent(sb, image, DiskTable(sb, image), own)
      ensures this.sb == sb && blocks == image && this.own == own && table == DiskTable(sb, image) && logged == {}
      ensures Valid() && forall i :: 0 <= i < sb.ninodes ==> Synced(i)
    {
      this.sb, blocks, logged := sb, image, {};
      this.own, table := own, DiskTable(sb, image);
    }

    /** log_write of a buffer for block b whose data is now v. */
    method LogWrite(b: nat, v: Block)
      requires b < |blocks|
      modifies this`blocks, this`logged
      ensures blocks == old(blocks)[b := v] && logged == old(logged) + {b}
    {
      blocks := blocks[b := v];
      logged := logged + {b};
    }

    method Bzero(b: nat)
      requires b < |blocks|
      modifies this`blocks, this`logged
      ensures blocks == old(blocks)[b := ZeroBlock()] && logged == old(logged) + {b}
    {
      LogWrite(b, ZeroBlock());
    }

    /** Allocate a zeroed block: the lowest free one. ok == false is the panic "balloc: out of blocks". */
    method Balloc() returns (r: nat, ok: bool)
      requires sb.Valid() && |blocks| == sb.size
      modifies this`blocks, this`logged
      ensures |blocks| == sb.size
      ensures !ok ==> blocks == old(blocks) && logged == old(logged) && Full(sb, blocks)
      ensures ok ==> r < sb.size && !Bit(sb, old(blocks), r) && forall x :: 0 <= x < r ==> Bit(sb, old(blocks), x)
      ensures ok ==> blocks == Allocated(sb, old(blocks), r) && logged == old(logged) + {sb.BBlock(r), r}
    {
      var b := 0;
      while b < sb.size
        invariant b % BPB == 0 && blocks == old(blocks) && logged == old(logged)
        invariant forall x :: 0 <= x < b && x < sb.size ==> Bit(sb, blocks, x)
      {
        var bp := sb.BBlock(b);
        var bi := 0;
        while bi < BPB && b + bi < sb.size
          invariant bi <= BPB && blocks == old(blocks) && logged == old(logged) && bp == sb.BBlock(b)
          invariant forall x :: 0 <= x < b + bi && x < sb.size ==> Bit(sb, blocks, x)
        {
          BitIndex(sb, b, bi);
          if !TestBit(blocks[bp][bi / 8], bi % 8) { // Is block free?
            LogWrite(bp, blocks[bp][bi / 8 := SetBit(blocks[bp][bi / 8], bi % 8)]);
            Bzero(b + bi);
            return b + bi, true;
          }
          bi := bi + 1;
        }
        b := b + BPB;
      }
      r, ok := 0, false;
    }

    /** Free block b. ok == false is the panic "freeing free block". */
    method Bfree(b: nat) returns (ok: bool)
      requires sb.Valid() && |blocks| == sb.size && b < sb.size
      modifies this`blocks, this`logged
      ensures ok == Bit(sb, old(blocks), b)
      ensures blocks == if ok then WriteBit(sb, old(blocks), b, false) else old(blocks)
      ensures logged == if ok then old(logged) + {sb.BBlock(b)} else old(logged)
      ensures LoggedOnly(sb, old(blocks), old(logged), blocks, logged)
    {
      hide TestBit, SetBit, ClearBit;
      BitOf(b);
      var bp, bi := sb.BBlock(b), b % BPB;
      if !TestBit(blocks[bp][bi / 8], bi % 8) {
        return false;
      }
      LogWrite(bp, blocks[bp][bi / 8 := ClearBit(blocks[bp][bi / 8], bi % 8)]);
      ok := true;
    }

    /** ip->addrs[k] = balloc(), for block bn of the file. ok == false is the panic of balloc. */
    method GiveAddr(ip: Inode, k: nat, ghost bn: nat) returns (r: nat, ok: bool)
      requires Holds(ip) && k <= NDIRECT && (k == NDIRECT || bn == k) && ip.addrs[k] == 0
      modifies this`blocks, this`logged, this`table, this`own, ip`addrs
      ensures !ok ==> Full(sb, blocks) && Now() == old(Now()) && ip.addrs == old(ip.addrs)
      ensures ok ==> Holds(ip) && Shape(sb, old(Now()), ip.inum) && Shape(sb, Now(), ip.inum)
      ensures ok ==> ip.Rec() == old(ip.Rec()).(addrs := old(ip.addrs)[k := r]) && r != 0
      ensures ok ==> r < sb.size && blocks[r] == ZeroBlock() && logged == old(logged) + {r, sb.BBlock(r)}
      ensures ok ==> Extended(sb, old(blocks), old(table), old(own), blocks, table, own, ip.inum, bn)
      ensures ok ==> r !in old(own) && own == old(own)[r := Slot(ip.inum, AddrSlot(k))]
      ensures ok ==> Ref(blocks, table[ip.inum], AddrSlot(k)) == r
      ensures ok ==> forall j :: 0 <= j <= MAXFILE && j != AddrSlot(k) ==>
                Ref(blocks, table[ip.inum], j) == Ref(old(blocks), old(table)[ip.inum], j)
      ensures ok ==> LoggedOnly(sb, old(blocks), old(logged), blocks, logged)
    {
      hide Bit, Allocated, InodeAt, Extended, Consistent, Ref, LoggedOnly;
      ConsistentShape(sb, blocks, table, own);
      r, ok := Balloc();
      if !ok { return; }
      AssignAddr(sb, old(blocks), table, own, ip.inum, k, r, bn);
      LoggedAllocated(sb, old(blocks), old(logged), r);
      ip.addrs := ip.addrs[k := r];
      table := table[ip.inum := ip.Rec()];
      own := own[r := Slot(ip.inum, AddrSlot(k))];
      ConsistentShape(sb, blocks, table, own);
    }

    /** a[bn - NDIRECT] = balloc() in the indirect block. ok == false is the panic of balloc. */
    method GiveWord(ip: Inode, bn: nat) returns (r: nat, ok: bool)
      requires Holds(ip) && NDIRECT <= bn < MAXFILE && ip.addrs[NDIRECT] != 0
      requires Ref(blocks, table[ip.inum], bn) == 0
      modifies this`blocks, this`logged, this`own
      ensures !ok ==> Full(sb, blocks) && Now() == old(Now())
      ensures ok ==> Holds(ip) && Shape(sb, Now(), ip.inum)
      ensures ok ==> r < sb.size && r !in old(own) && blocks[r] == ZeroBlock()
      ensures ok ==> logged == old(logged) + {r, sb.BBlock(r)} + {ip.addrs[NDIRECT]}
      ensures ok ==> Extended(sb, old(blocks), table, old(own), blocks, table, own, ip.inum, bn)
      ensures ok ==> Ref(blocks, table[ip.inum], bn) == r != 0
      ensures ok ==> LoggedOnly(sb, old(blocks), old(logged), blocks, logged)
    {
      hide Bit, Allocated, SetWord, InodeAt, Extended, Consistent, Ref, LoggedOnly;
      ConsistentShape(sb, blocks, table, own);
      ghost var d := blocks;
      var ind := ip.addrs[NDIRECT];
      r, ok := Balloc();
      if !ok { return; }
      AssignWord(sb, d, table, own, ip.inum, bn, r);
      OwnedRef(sb, d, table, own, ip.inum, MAXFILE);
      RefIs(d, table[ip.inum], MAXFILE);
      LoggedAllocated(sb, d, old(logged), r);
      ghost var m, l := blocks, logged;
      assert l == old(logged) + {r, sb.BBlock(r)} && m == Allocated(sb, d, r);
      LoggedOne(sb, m, l, ind, SetWord(m[ind], bn - NDIRECT, r));
      LogWrite(ind, SetWord(blocks[ind], bn - NDIRECT, r));
      LoggedThen(sb, d, old(logged), m, l, blocks, logged);
      own := own[r := Slot(ip.inum, bn)];
      ConsistentShape(sb, blocks, table, own);
    }

    /** The block number of the bn-th block of the file, allocated if there was none. ok == false is a panic:
        out of blocks, or bn out of range. */
    method Bmap(ip: Inode, bn: nat) returns (addr: nat, ok: bool)
      requires Holds(ip)
      modifies this`blocks, this`logged, this`table, this`own, ip`addrs
      ensures Shape(sb, old(Now()), ip.inum) && Holds(ip) && Shape(sb, Now(), ip.inum)
      ensures !ok ==> bn >= MAXFILE || Stuck(sb, old(Now()), Now(), ip.inum, bn)
      ensures ok ==> Bmapped(sb, old(Now()), Now(), ip.inum, bn) && addr == Ref(blocks, table[ip.inum], bn)
      ensures ok ==> Held(blocks, ip.Rec()) == Held(old(blocks), old(ip.Rec())) + Span(bn, bn + 1)
      ensures ok && Ref(old(blocks), old(table)[ip.inum], bn) == 0 ==> addr !in old(own) && blocks[addr] == ZeroBlock()
      ensures bn < MAXFILE && Ref(old(blocks), old(table)[ip.inum], bn) != 0 ==> ok && Now() == old(Now())
      ensures ok ==> LoggedOnly(sb, old(blocks), old(logged), blocks, logged)
    {
      hide Bit, Word, InodeAt, Extended, Consistent, Ref, LoggedOnly, OthersKept, Held, Span, Full;
      ConsistentShape(sb, blocks, table, own);
      LoggedNone(sb, blocks, logged);
      ExtendedRefl(sb, blocks, table, own, ip.inum, bn);
      OthersKeptRefl(sb, blocks, table, own, ip.inum);
      ghost var s0 := Now();
      if bn < NDIRECT {
        RefIs(blocks, table[ip.inum], bn);
        addr := ip.addrs[bn];
        if addr == 0 {
          addr, ok := GiveAddr(ip, bn, bn);
          DirectTaken(sb, s0, Now(), ip.inum, bn, ok);
          return;
        }
        FoundHeld(blocks, table[ip.inum], bn);
        return addr, true;
      }
      var k := bn - NDIRECT;
      if k < NINDIRECT {
        RefIs(blocks, table[ip.inum], bn);
        if ip.addrs[NDIRECT] == 0 {
          var ind, iok := GiveAddr(ip, NDIRECT, bn);
          if !iok {
            NoneTaken(sb, s0, ip.inum, bn);
            return 0, false;
          }
        }
        ghost var s1 := Now();
        RefIs(s1.d, s1.t[ip.inum], MAXFILE);
        IndirectTaken(sb, s0, s1, ip.inum, bn);
        RefIs(s1.d, s1.t[ip.inum], bn);
        OwnedRef(sb, s1.d, s1.t, s1.o, ip.inum, MAXFILE);
        addr := Word(blocks[ip.addrs[NDIRECT]], k);
        if addr == 0 {
          addr, ok := GiveWord(ip, bn);
          WordTakenOr(sb, s0, s1, Now(), ip.inum, bn, ok);
          if !ok { return; }
          ExtendedTrans(sb, s0.d, s0.t, s0.o, s1.d, s1.t, s1.o, blocks, table, own, ip.inum, bn);
          LoggedThen(sb, s0.d, s0.l, s1.d, s1.l, blocks, logged);
        }
        return addr, true;
      }
      addr, ok := 0, false;
    }

    method Iupdate(ip: Inode)
      requires Valid() && 1 <= ip.inum < sb.ninodes && ip.Rec() == table[ip.inum]
      modifies this`blocks, this`logged
      ensures blocks == PutInode(sb, old(blocks), ip.inum, ip.Rec())
      ensures logged == old(logged) + {sb.IBlock(ip.inum)}
      ensures LoggedOnly(sb, old(blocks), old(logged), blocks, logged)
    {
      LoggedInode(sb, blocks, logged, ip.inum, ip.Rec());
      var bp := sb.IBlock(ip.inum);
      LogWrite(bp, PutWords(blocks[bp], 16 * (ip.inum % IPB), ip.Rec().Words()));
    }

    /** One turn of readi's loop, with dst read so far. */
    method ReadChunk(ip: Inode, off0: nat, dst0: seq<byte>, n: nat, ghost s0: Snap) returns (dst: seq<byte>, ok: bool)
      requires Holds(ip) && |dst0| < n && (dst0 == [] || (off0 + |dst0|) % BSIZE == 0)
      requires Grown(sb, s0, Now(), ip.inum) && ReadBack(s0.d, s0.t[ip.inum], off0, dst0)
      requires Filled(blocks, ip.Rec(), off0, |dst0|) && LoggedOnly(sb, s0.d, s0.l, blocks, logged)
      requires off0 <= MAXFILE * BSIZE ==> (off0 + |dst0|) / BSIZE <= MAXFILE
      requires off0 <= MAXFILE * BSIZE ==> Passed(sb, s0, Now(), ip.inum, off0 / BSIZE, (off0 + |dst0|) / BSIZE)
      modifies this`blocks, this`logged, this`table, this`own, ip`addrs
      ensures s0.t[ip.inum].Valid()
      ensures !ok ==> off0 + n > MAXFILE * BSIZE || |Needed(s0.d, s0.t[ip.inum], off0, n)| > |Free(sb, s0.d)|
      ensures ok ==> Holds(ip) && Grown(sb, s0, Now(), ip.inum) && LoggedOnly(sb, s0.d, s0.l, blocks, logged)
      ensures ok ==> |dst| == |dst0| + ChunkSize(off0, |dst0|, n) && dst0 <= dst
      ensures ok ==> ReadBack(s0.d, s0.t[ip.inum], off0, dst) && Filled(blocks, ip.Rec(), off0, |dst|)
      ensures ok ==> off0 + |dst| <= MAXFILE * BSIZE
                     && Passed(sb, s0, Now(), ip.inum, off0 / BSIZE, (off0 + |dst0|) / BSIZE + 1)
      ensures (off0 + |dst0|) / BSIZE < MAXFILE ==>
                (Ref(old(blocks), old(table)[ip.inum], (off0 + |dst0|) / BSIZE) != 0 ==> ok && Now() == old(Now()))
    {
      hide Bit, Ref, InodeAt, ByteAt, Consistent, Bmapped, Grown, ReadBack, Filled, Full, LoggedOnly, Held, Span, Free,
        Needed, Stuck, Passed, OthersKept;
      ConsistentShape(sb, blocks, table, own);
      GrownShape(sb, s0, Now(), ip.inum);
      var tot, off := |dst0|, off0 + |dst0|;
      ghost var s, bn := Now(), off / BSIZE;
      var addr;
      addr, ok := Bmap(ip, off / BSIZE);
      dst := dst0;
      if !ok {
        if off0 + n <= MAXFILE * BSIZE {
          ReachFits(off0, n);
          TooFew(sb, s0, s, Now(), ip.inum, off0, n, bn);
        }
        return;
      }
      ghost var e := Now();
      var m := Min(n - tot, BSIZE - off % BSIZE);
      BmappedAt(sb, s, e, ip.inum, bn);
      PassedTurn(sb, s0, s, e, ip.inum, off0 / BSIZE, bn, addr);
      LoggedThen(sb, s0.d, s0.l, s.d, s.l, blocks, logged);
      ReadStep(sb, s0, s, e, ip.inum, off0, dst0, off, bn, addr, m);
      dst := dst0 + blocks[addr][off % BSIZE..off % BSIZE + m];
    }

    /** The loop of readi. */
    method ReadBlocks(ip: Inode, off0: nat, n: nat) returns (dst: seq<byte>, ok: bool)
      requires Holds(ip) && off0 + n <= ip.size
      modifies this`blocks, this`logged, this`table, this`own, ip`addrs
      ensures ok <==> n == 0 || (off0 + n <= MAXFILE * BSIZE
                                 && |Needed(old(blocks), old(ip.Rec()), off0, n)| <= |Free(sb, old(blocks))|)
      ensures ok ==> Holds(ip) && Grown(sb, old(Now()), Now(), ip.inum)
      ensures ok ==> |dst| == n && ReadBack(old(blocks), old(ip.Rec()), off0, dst) && Filled(blocks, ip.Rec(), off0, n)
      ensures Mapped(old(blocks), old(ip.Rec())) ==> ok && Now() == old(Now()) && ip.addrs == old(ip.addrs)
      ensures ok ==> LoggedOnly(sb, old(blocks), old(logged), blocks, logged)
    {
      hide Bit, Ref, InodeAt, ByteAt, Consistent, Bmapped, Grown, ReadBack, Filled, Full, LoggedOnly, Held, Span, Free,
        Needed, Stuck, Passed, OthersKept;
      ConsistentShape(sb, blocks, table, own);
      LoggedNone(sb, blocks, logged);
      ghost var s0 := Now();
      ReadStart(sb, s0, ip.inum, off0);
      ghost var mapped := Mapped(blocks, ip.Rec());
      ghost var hi: nat := off0 / BSIZE;
      if off0 <= MAXFILE * BSIZE { PassedNone(sb, s0, ip.inum, hi); }
      dst := [];
      while |dst| < n
        invariant |dst| <= n && ip.size == old(ip.size)
        invariant Holds(ip) && Grown(sb, s0, Now(), ip.inum)
        invariant mapped ==> Now() == s0 && ip.addrs == old(ip.addrs)
        invariant ReadBack(s0.d, s0.t[ip.inum], off0, dst) && Filled(blocks, ip.Rec(), off0, |dst|)
        invariant LoggedOnly(sb, s0.d, s0.l, blocks, logged)
        invariant dst != [] ==> off0 + |dst| <= MAXFILE * BSIZE
        invariant 0 < |dst| < n ==> (off0 + |dst|) % BSIZE == 0
        invariant off0 <= MAXFILE * BSIZE ==> hi <= MAXFILE && Passed(sb, s0, Now(), ip.inum, off0 / BSIZE, hi)
        invariant hi == if |dst| < n then (off0 + |dst|) / BSIZE else Reach(off0, n)
      {
        if mapped { MappedAt(blocks, ip.Rec(), off0 + |dst|); }
        ReachNext(off0, |dst|, n);
        dst, ok := ReadChunk(ip, off0, dst, n, s0);
        if !ok { return; }
        hi := hi + 1;
      }
      if n > 0 { EnoughLeft(sb, s0, Now(), ip.inum, off0, n); }
      ok := true;
    }

    /** Read n bytes at offset off0 into dst; a hole reads as zeroes, and is filled. ok == false is a panic of bmap. */
    method Readi(ip: Inode, off0: nat, n0: nat, driver: Driver) returns (r: int, dst: seq<byte>, ok: bool)
      requires Holds(ip) && off0 < W32 && n0 < W32
      modifies this`blocks, this`logged, this`table, this`own, ip`addrs
      ensures ok <==> !ShortRead(sb, old(blocks), old(ip.Rec()), off0, n0)
      ensures ip.kind == T_DEV ==>
                ok && r == Answer(ip.major, driver) && dst == [] && Now() == old(Now()) && ip.addrs == old(ip.addrs)
      ensures ok ==> Holds(ip) && Grown(sb, old(Now()), Now(), ip.inum)
      ensures ok && ip.kind != T_DEV ==>
                r == if off0 > old(ip.size) || off0 + n0 >= W32 then -1 else Min(n0, ip.size - off0)
      ensures ok && r >= 0 && ip.kind != T_DEV ==> |dst| == r && ReadBack(old(blocks), old(ip.Rec()), off0, dst)
      ensures ok && r >= 0 && ip.kind != T_DEV ==> Filled(blocks, ip.Rec(), off0, r)
      ensures Mapped(old(blocks), old(ip.Rec())) ==> ok && Now() == old(Now()) && ip.addrs == old(ip.addrs)
      ensures Mapped(old(blocks), old(ip.Rec())) && ip.kind != T_DEV && off0 <= old(ip.size) && off0 + n0 < W32 ==>
                r >= 0 && off0 + r <= old(ip.size) && dst == Content(old(blocks), old(ip.Rec()))[off0..off0 + r]
      ensures ok ==> LoggedOnly(sb, old(blocks), old(logged), blocks, logged)
    {
      hide Bit, Ref, InodeAt, ByteAt, Consistent, Content, Grown, ReadBack, Filled, Full, LoggedOnly, Held, Span, Free,
        Needed, Mapped;
      ConsistentShape(sb, blocks, table, own);
      LoggedNone(sb, blocks, logged);
      ghost var s0, di := Now(), ip.Rec();
      ReadStart(sb, s0, ip.inum, off0);
      var n := n0;
      dst := [];
      if ip.kind == T_DEV {
        if ip.major >= NDEV || driver.NoDriver? {
          return -1, [], true;
        }
        return driver.r, [], true;
      }
      if off0 > ip.size || (off0 + n) % W32 < off0 {
        return -1, [], true;
      }
      if off0 + n > ip.size {
        n := ip.size - off0;
      }
      dst, ok := ReadBlocks(ip, off0, n);
      if !ok { return -1, dst, false; }
      r := n;
      if Mapped(s0.d, di) {
        IsContent(s0.d, di, off0, dst);
      }
    }

    /** One turn of writei's loop, tot bytes in: the next chunk goes to its block. */
    method WriteChunk(ip: Inode, src: seq<byte>, off0: nat, tot: nat, ghost s0: Snap, ghost c0: Count)
      returns (m: nat, ok: bool, ghost c: Count)
      requires Holds(ip) && tot < |src| && off0 + |src| <= MAXFILE * BSIZE && (tot == 0 || (off0 + tot) % BSIZE == 0)
      requires Writing(sb, s0, Now(), ip.inum, off0, tot, src, c0) && LoggedOnly(sb, s0.d, s0.l, blocks, logged)
      requires Passed(sb, s0, Now(), ip.inum, off0 / BSIZE, (off0 + tot) / BSIZE)
      modifies this`blocks, this`logged, this`table, this`own, ip`addrs
      ensures m == ChunkSize(off0, tot, |src|)
      ensures s0.t[ip.inum].Valid()
      ensures !ok ==> |Needed(s0.d, s0.t[ip.inum], off0, |src|)| > |Free(sb, s0.d)| && Full(sb, blocks)
      ensures ok ==> Holds(ip) && Writing(sb, s0, Now(), ip.inum, off0, tot + m, src, c)
      ensures ok ==> LoggedOnly(sb, s0.d, s0.l, blocks, logged)
      ensures ok ==> Passed(sb, s0, Now(), ip.inum, off0 / BSIZE, (off0 + tot) / BSIZE + 1)
      ensures (off0 + tot) / BSIZE + 1
              == if tot + m < |src| then (off0 + tot + m) / BSIZE else Reach(off0, |src|)
      ensures tot + m < |src| ==> (off0 + tot + m) % BSIZE == 0
    {
      hide Bit, Ref, InodeAt, Consistent, OthersKept, Writing, Bmapped, Patch, Full, LoggedOnly, Held, Span, Free,
        Needed, Stuck, Passed;
      ConsistentShape(sb, blocks, table, own);
      ghost var s, bn := Now(), (off0 + tot) / BSIZE;
      ReachNext(off0, tot, |src|);
      PassedShape(sb, s0, s, ip.inum, off0 / BSIZE, bn);
      var off := off0 + tot;
      m, c := Min(|src| - tot, BSIZE - off % BSIZE), c0;
      var addr;
      addr, ok := Bmap(ip, off / BSIZE);
      if !ok {
        ReachFits(off0, |src|);
        TooFew(sb, s0, s, Now(), ip.inum, off0, |src|, bn);
        StuckIsFull(sb, s, Now(), ip.inum, bn);
        return;
      }
      ghost var e := Now();
      ChunkDone(sb, s0, s, e, ip.inum, off0, tot, src, c);
      LogWrite(addr, Patch(blocks[addr], off % BSIZE, src[tot..tot + m]));
      assert Now() == Patched(e, ip.inum, off0, tot, src);
      c := Counted(sb, c, addr, Ref(s.d, s.t[ip.inum], bn) == 0);
    }

    /** The loop of writei. */
    method WriteBlocks(ip: Inode, src: seq<byte>, off0: nat) returns (ok: bool, ghost c: Count)
      requires Holds(ip) && off0 <= ip.size && off0 + |src| <= MAXFILE * BSIZE
      modifies this`blocks, this`logged, this`table, this`own, ip`addrs
      ensures ok <==> |Needed(old(blocks), old(ip.Rec()), off0, |src|)| <= |Free(sb, old(blocks))|
      ensures !ok ==> Full(sb, blocks)
      ensures ok ==> Holds(ip) && Writing(sb, old(Now()), Now(), ip.inum, off0, |src|, src, c)
      ensures ok ==> LoggedOnly(sb, old(blocks), old(logged), blocks, logged)
    {
      hide Bit, Ref, InodeAt, Consistent, OthersKept, Writing, Bmapped, Patch, Full, LoggedOnly, Held, Span, Free,
        Needed, Stuck, Passed;
      ConsistentShape(sb, blocks, table, own);
      LoggedNone(sb, blocks, logged);
      var n := |src|;
      ghost var s0, lo := Now(), off0 / BSIZE;
      ghost var hi: nat := lo;
      ReachFits(off0, n);
      PassedNone(sb, s0, ip.inum, lo);
      c := Count({}, {}, 0);
      WritingStart(sb, s0, ip.inum, off0, src);
      var tot := 0;
      while tot < n
        invariant tot <= n && ip.size == old(ip.size)
        invariant Holds(ip) && Writing(sb, s0, Now(), ip.inum, off0, tot, src, c)
        invariant LoggedOnly(sb, s0.d, s0.l, blocks, logged)
        invariant Passed(sb, s0, Now(), ip.inum, lo, hi) && (0 < tot < n ==> (off0 + tot) % BSIZE == 0)
        invariant hi == if tot < n then (off0 + tot) / BSIZE else Reach(off0, n)
      {
        var m;
        m, ok, c := WriteChunk(ip, src, off0, tot, s0, c);
        if !ok { return; }
        tot, hi := tot + m, hi + 1;
      }
      EnoughLeft(sb, s0, Now(), ip.inum, off0, n);
      ok := true;
    }

    /** ip->size = size; iupdate(ip). */
    method SetSize(ip: Inode, size: nat)
      requires Holds(ip) && size < W32
      modifies this`blocks, this`logged, this`table, ip`size
      ensures Holds(ip) && Synced(ip.inum) && ip.Rec() == old(ip.Rec()).(size := size)
      ensures OthersKept(sb, old(blocks), old(table), own, blocks, table, own, ip.inum)
      ensures Mapped(old(blocks), old(ip.Rec()).(size := size)) ==>
                && Mapped(blocks, ip.Rec())
                && Content(blocks, ip.Rec()) == Content(old(blocks), old(ip.Rec()).(size := size))
      ensures logged == old(logged) + {sb.IBlock(ip.inum)}
      ensures LoggedOnly(sb, old(blocks), old(logged), blocks, logged)
    {
      hide Bit, Ref, InodeAt, Consistent, OthersKept, Content, Mapped, PutInode, LoggedOnly;
      ConsistentShape(sb, blocks, table, own);
      ghost var d, t := blocks, table;
      ip.size := size;
      InodeSaved(sb, d, t, own, ip.inum, ip.Rec());
      table := table[ip.inum := ip.Rec()];
      Iupdate(ip);
    }

    /** Write src at offset off0. ok == false is the panic "balloc: out of blocks". */
    method Writei(ip: Inode, src: seq<byte>, off0: nat, driver: Driver) returns (r: int, ok: bool)
      requires Holds(ip) && off0 < W32 && |src| < W32
      modifies this`blocks, this`logged, this`table, this`own, ip`addrs, ip`size
      ensures ok <==> !Short(sb, old(blocks), old(ip.Rec()), off0, |src|)
      ensures !ok ==> Full(sb, blocks)
      ensures ip.kind == T_DEV ==>
                ok && r == Answer(ip.major, driver) && Now() == old(Now()) && ip.Rec() == old(ip.Rec())
      ensures ok ==> Holds(ip) && OthersKept(sb, old(blocks), old(table), old(own), blocks, table, own, ip.inum)
      ensures ok && ip.kind != T_DEV ==>
                r == if off0 > old(ip.size) || off0 + |src| > MAXFILE * BSIZE then -1 else |src|
      ensures ok && r >= 0 && ip.kind != T_DEV ==>
                ip.size == if r > 0 && off0 + r > old(ip.size) then off0 + r else old(ip.size)
      ensures ok && r == -1 ==>
                blocks == old(blocks) && table == old(table) && own == old(own) && logged == old(logged)
                    && ip.Rec() == old(ip.Rec())
      ensures ok && r >= 0 && ip.kind != T_DEV && Mapped(old(blocks), old(ip.Rec())) ==>
                && Mapped(blocks, ip.Rec())
                && Content(blocks, ip.Rec()) == Overwrite(Content(old(blocks), old(ip.Rec())), off0, src)
                && (old(Synced(ip.inum)) ==> Synced(ip.inum))
      ensures ok && r > 0 && ip.kind != T_DEV && Mapped(old(blocks), old(ip.Rec())) && old(logged) == {} ==>
                |logged| <= WriteBound(off0, r) + 1
      ensures ok ==> LoggedOnly(sb, old(blocks), old(logged), blocks, logged)
    {
      hide Bit, Ref, InodeAt, Consistent, OthersKept, Writing, Content, Mapped, Overwrite, Full, LoggedOnly;
      var off, n := off0, |src|;
      ConsistentShape(sb, blocks, table, own);
      OthersKeptRefl(sb, blocks, table, own, ip.inum);
      LoggedNone(sb, blocks, logged);
      if ip.kind == T_DEV {
        if ip.major >= NDEV || driver.NoDriver? {
          return -1, true;
        }
        return driver.r, true;
      }
      if off > ip.size || (off + n) % W32 < off {
        return -1, true;
      }
      if off + n > MAXFILE * BSIZE {
        return -1, true;
      }
      ghost var s0 := Now();
      ghost var c;
      ok, c := WriteBlocks(ip, src, off0);
      if !ok { return -1, false; }
      off := off + n;
      ghost var s1, di := Now(), ip.Rec().(size := if off > ip.size then off else ip.size);
      WritingEnd(sb, s0, s1, ip.inum, off0, src, c, di);
      WritingFrame(sb, s0, s1, ip.inum, off0, src, c);
      if n > 0 && off > ip.size {
        SetSize(ip, off);
        LoggedThen(sb, s0.d, s0.l, s1.d, s1.l, blocks, logged);
        OthersKeptTrans(sb, s0.d, s0.t, s0.o, s1.d, s1.t, s1.o, blocks, table, own, ip.inum);
      }
      r, ok := n, true;
    }

    /** The first loop of itrunc. */
    method FreeDirect(ip: Inode) returns (ok: bool)
      requires Holds(ip)
      modifies this`blocks, this`logged, ip`addrs
      ensures ok && |ip.addrs| == NDIRECT + 1 && |blocks| == sb.size && ip.addrs[NDIRECT] == old(ip.addrs)[NDIRECT]
      ensures forall k :: 0 <= k < NDIRECT ==> ip.addrs[k] == 0
      ensures BitmapOnly(sb, old(blocks), blocks) && BitsOk(sb, blocks, Without(own, ip.inum, NDIRECT))
      ensures LoggedOnly(sb, old(blocks), old(logged), blocks, logged)
    {
      hide Bit, Ref, Consistent, BitsOk, BitmapOnly, Without, WriteBit, LoggedOnly;
      ConsistentShape(sb, blocks, table, own);
      LoggedNone(sb, blocks, logged);
      ghost var d, t, l, inum := blocks, table, logged, ip.inum;
      TruncStart(sb, d, t, own, inum);
      var i := 0;
      while i < NDIRECT
        invariant i <= NDIRECT && |ip.addrs| == NDIRECT + 1 && |blocks| == sb.size
        invariant forall k :: 0 <= k < i ==> ip.addrs[k] == 0
        invariant forall k :: i <= k <= NDIRECT ==> ip.addrs[k] == t[inum].addrs[k]
        invariant BitmapOnly(sb, d, blocks) && BitsOk(sb, blocks, Without(own, inum, i))
        invariant LoggedOnly(sb, d, l, blocks, logged)
      {
        RefIs(d, t[inum], i);
        FreeSlot(sb, d, t, own, inum, i, blocks);
        if ip.addrs[i] != 0 {
          ghost var s := Now();
          ok := Bfree(ip.addrs[i]);
          if !ok { return; }
          LoggedThen(sb, d, l, s.d, s.l, blocks, logged);
          ip.addrs := ip.addrs[i := 0];
        }
        i := i + 1;
      }
      ok := true;
    }

    /** The second loop of itrunc, and the indirect block itself. Before the first loop the contents were d. */
    method FreeIndirect(ip: Inode, ghost d: Disk) returns (ok: bool)
      requires Consistent(sb, d, table, own) && 1 <= ip.inum < sb.ninodes && |ip.addrs| == NDIRECT + 1
      requires |blocks| == sb.size && ip.addrs[NDIRECT] == table[ip.inum].addrs[NDIRECT] != 0
      requires BitmapOnly(sb, d, blocks) && BitsOk(sb, blocks, Without(own, ip.inum, NDIRECT))
      modifies this`blocks, this`logged, ip`addrs
      ensures ok && |blocks| == sb.size && ip.addrs == old(ip.addrs)[NDIRECT := 0]
      ensures BitmapOnly(sb, d, blocks) && BitsOk(sb, blocks, Without(own, ip.inum, MAXFILE + 1))
      ensures LoggedOnly(sb, old(blocks), old(logged), blocks, logged)
    {
      hide Bit, Ref, Consistent, BitsOk, BitmapOnly, Without, WriteBit, Word, LoggedOnly;
      ConsistentShape(sb, d, table, own);
      LoggedNone(sb, blocks, logged);
      ghost var s0, inum := Now(), ip.inum;
      var ind := ip.addrs[NDIRECT];
      RefIs(d, table[inum], MAXFILE);
      OwnedRef(sb, d, table, own, inum, MAXFILE);
      BitmapOnlyAt(sb, d, blocks, ind);
      var bp := blocks[ind];
      var j := 0;
      while j < NINDIRECT
        invariant j <= NINDIRECT && |blocks| == sb.size && bp == d[ind] && ip.addrs == old(ip.addrs)
        invariant BitmapOnly(sb, d, blocks) && BitsOk(sb, blocks, Without(own, inum, NDIRECT + j))
        invariant LoggedOnly(sb, s0.d, s0.l, blocks, logged)
      {
        RefIs(d, table[inum], NDIRECT + j);
        FreeSlot(sb, d, table, own, inum, NDIRECT + j, blocks);
        if Word(bp, j) != 0 {
          ghost var s := Now();
          ok := Bfree(Word(bp, j));
          if !ok { return; }
          LoggedThen(sb, s0.d, s0.l, s.d, s.l, blocks, logged);
        }
        j := j + 1;
      }
      FreeSlot(sb, d, table, own, inum, MAXFILE, blocks);
      ghost var s := Now();
      ok := Bfree(ip.addrs[NDIRECT]);
      if !ok { return; }
      LoggedThen(sb, s0.d, s0.l, s.d, s.l, blocks, logged);
      ip.addrs := ip.addrs[NDIRECT := 0];
    }

    /** Free every block of the file. Its "freeing free block" panic is unreachable. */
    method Itrunc(ip: Inode) returns (ok: bool)
      requires Holds(ip)
      modifies this`blocks, this`logged, this`table, this`own, ip`addrs, ip`size
      ensures ok && Holds(ip) && Synced(ip.inum)
      ensures ip.size == 0 && forall k :: 0 <= k <= NDIRECT ==> ip.addrs[k] == 0
      ensures own == Without(old(own), ip.inum, MAXFILE + 1)
      ensures Untouched(sb, old(blocks), old(table), old(own), blocks, table, ip.inum)
      ensures LoggedOnly(sb, old(blocks), old(logged), blocks, logged)
    {
      hide Bit, Ref, Consistent, BitsOk, BitmapOnly, InodeAt, Untouched, Without, PutInode, LoggedOnly;
      ConsistentShape(sb, blocks, table, own);
      ghost var s0, inum := Now(), ip.inum;
      ok := FreeDirect(ip);
      if !ok { return; }
      if ip.addrs[NDIRECT] != 0 {
        ghost var s := Now();
        ok := FreeIndirect(ip, s0.d);
        if !ok { return; }
        LoggedThen(sb, s0.d, s0.l, s.d, s.l, blocks, logged);
      } else {
        NoIndirect(s0.d, s0.t[inum], s0.o, sb, s0.t, inum);
      }
      ip.size := 0;
      ghost var e, m, di := blocks, logged, ip.Rec();
      assert di.Valid();
      Truncated(sb, s0.d, s0.t, s0.o, inum, e, di);
      table := table[inum := di];
      own := Without(own, inum, MAXFILE + 1);
      InodeWrite(sb, e, table, own, inum, di);
      Iupdate(ip);
      UntouchedSaved(sb, s0.d, s0.t, s0.o, e, table, own, inum, di);
      LoggedThen(sb, s0.d, s0.l, e, m, blocks, logged);
      ok := true;
    }

    /** Read the inode in if it is not valid. ok == false is the panic "ilock: no type". */
    method Ilock(ip: Inode) returns (ok: bool)
      requires Valid() && 1 <= ip.inum < sb.ninodes && Synced(ip.inum)
      requires ip.valid ==> Holds(ip)
      modifies ip
      ensures ok == (table[ip.inum].kind != 0) && (ok ==> Holds(ip) && ip.valid) && ip.ref == old(ip.ref)
    {
      if !ip.valid {
        var dip := InodeAt(sb, blocks, ip.inum);
        ip.kind, ip.major, ip.minor, ip.nlink, ip.size, ip.addrs :=
          dip.kind, dip.major, dip.minor, dip.nlink, dip.size, dip.addrs;
        ip.valid := true;
        if ip.kind == 0 {
          return false;
        }
      }
      ok := true;
    }

    /** Claim the first free inode. ok == false is the panic "ialloc: no inodes". */
    method Ialloc(kind: nat) returns (inum: nat, ok: bool)
      requires Valid() && 0 < kind < 65536 && forall i :: 0 <= i < sb.ninodes ==> Synced(i)
      modifies this`blocks, this`logged, this`table
      ensures !ok ==> Now() == old(Now()) && forall i :: 1 <= i < sb.ninodes ==> table[i].kind != 0
      ensures ok ==> Valid() && 1 <= inum < sb.ninodes && old(table)[inum].kind == 0
      ensures ok ==> forall i :: 1 <= i < inum ==> old(table)[i].kind != 0
      ensures ok ==> table == old(table)[inum := FreeInode().(kind := kind)] && Synced(inum)
      ensures ok ==> Untouched(sb, old(blocks), old(table), own, blocks, table, inum)
      ensures ok ==> LoggedOnly(sb, old(blocks), old(logged), blocks, logged)
    {
      hide Bit, Ref, Consistent, InodeAt, Untouched, Word, PutWords, LoggedOnly;
      ConsistentShape(sb, blocks, table, own);
      inum := 1;
      while inum < sb.ninodes
        invariant 1 <= inum && Now() == old(Now())
        invariant forall i :: 1 <= i < inum && i < sb.ninodes ==> table[i].kind != 0
      {
        assert Synced(inum);
        if InodeAt(sb, blocks, inum).kind == 0 { // a free inode
          var di := FreeInode().(kind := kind);
          Claimed(sb, blocks, table, own, inum, di);
          LoggedInode(sb, blocks, logged, inum, di);
          LogWrite(sb.IBlock(inum), PutWords(blocks[sb.IBlock(inum)], 16 * (inum % IPB), di.Words()));
          table := table[inum := di];
          return inum, true;
        }
        inum := inum + 1;
      }
      ok := false;
    }

    /** Drop a reference; the last one to an inode without links frees it. */
    method Iput(ip: Inode) returns (ok: bool)
      requires Valid() && 1 <= ip.inum < sb.ninodes && ip.ref > 0 && (ip.valid ==> Holds(ip))
      modifies this`blocks, this`logged, this`table, this`own, ip
      ensures ok && Valid() && ip.ref == old(ip.ref) - 1
      ensures ip.valid == old(ip.valid && !(ip.nlink == 0 && ip.ref == 1))
      ensures !old(ip.valid && ip.nlink == 0 && ip.ref == 1) ==> Now() == old(Now())
      ensures old(ip.valid && ip.nlink == 0 && ip.ref == 1) ==>
                && table[ip.inum].kind == 0 && table[ip.inum].size == 0 && Synced(ip.inum)
                && own == Without(old(own), ip.inum, MAXFILE + 1)
                && Untouched(sb, old(blocks), old(table), old(own), blocks, table, ip.inum)
      ensures LoggedOnly(sb, old(blocks), old(logged), blocks, logged)
    {
      hide Bit, Ref, InodeAt, Untouched, Without, OthersKept, Consistent, LoggedOnly;
      ConsistentShape(sb, blocks, table, own);
      LoggedNone(sb, blocks, logged);
      if ip.valid && ip.nlink == 0 {
        if ip.ref == 1 {
          ghost var s0 := Now();
          ok := Itrunc(ip);
          ghost var s1 := Now();
          ConsistentShape(sb, blocks, table, own);
          ip.kind := 0;
          InodeSaved(sb, s1.d, s1.t, s1.o, ip.inum, ip.Rec());
          table := table[ip.inum := ip.Rec()];
          Iupdate(ip);
          UntouchedTwice(sb, s0, s1, Now(), ip.inum);
          LoggedThen(sb, s0.d, s0.l, s1.d, s1.l, blocks, logged);
          ip.valid := false;
        }
      }
      ip.ref := ip.ref - 1;
      ok := true;
    }
  }

  lemma IsContent(d: Disk, di: Dinode, off: nat, dst: seq<byte>)
    requires di.Valid() && Mapped(d, di) && off + |dst| <= di.size && ReadBack(d, di, off, dst)
    ensures dst == Content(d, di)[off..off + |dst|]
  {}

  /** The file system has fewer free blocks than a write of n bytes at off takes. */
  predicate Short(sb: Superblock, d: Disk, di: Dinode, off: nat, n: nat)
    requires sb.Valid() && |d| == sb.size && di.Valid()
  {
    di.kind != T_DEV && off <= di.size && off + n <= MAXFILE * BSIZE && |Needed(d, di, off, n)| > |Free(sb, d)|
  }

  /** It has fewer than a read of n bytes at off takes, because of holes; or the file is too long for bmap. */
  predicate ShortRead(sb: Superblock, d: Disk, di: Dinode, off: nat, n: nat)
    requires sb.Valid() && |d| == sb.size && di.Valid()
  {
    && di.kind != T_DEV && off <= di.size && off + n < W32
    && var m := Min(n, di.size - off);
       m > 0 && (off + m > MAXFILE * BSIZE || |Needed(d, di, off, m)| > |Free(sb, d)|)
  }

  lemma MappedAt(d: Disk, di: Dinode, off: nat)
    requires di.Valid() && Mapped(d, di) && off < di.size
    ensures off / BSIZE < MAXFILE && Ref(d, di, off / BSIZE) != 0
  {
    assert off / BSIZE * BSIZE <= off;
  }

  const T_DEV: nat := 3
  const NDEV: nat := 10

  /** A row of devsw: no driver, or one that returns r for the call. What it transfers is not modelled. */
  datatype Driver = NoDriver | Driver(r: int)

  /** What reading or writing a device answers. */
  function Answer(major: nat, driver: Driver): int {
    if major >= NDEV || driver.NoDriver? then -1 else driver.r
  }

  function Min(a: nat, b: nat): nat {
    if a < b then a else b
  }
}
