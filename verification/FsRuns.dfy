/** Sequences of file-system operations: every one starts and ends with the file system consistent on disk. */
module FsRuns {
  import opened Bytes
  import opened FsSpec
  import opened FsSteps
  import opened FsWrite
  import opened FsRead
  import opened FsSpace
  import opened Fs
  import Mkfs

  datatype Op =
    | Create(kind: nat)                            // ialloc
    | Write(inum: nat, off: nat, src: seq<byte>, driver: Driver) // ilock, writei
    | Read(inum: nat, off: nat, n: nat, driver: Driver)          // ilock, readi
    | Put(inum: nat, nlink: nat)                   // ilock, change nlink, iupdate, iput of the last reference

  predicate WellFormed(sb: Superblock, op: Op) {
    match op
    case Create(kind) => 0 < kind < 65536
    case Write(inum, off, src, _) => 1 <= inum < sb.ninodes && off < W32 && |src| < W32
    case Read(inum, off, n, _) => 1 <= inum < sb.ninodes && off < W32 && n < W32
    case Put(inum, nlink) => 1 <= inum < sb.ninodes && nlink < 65536
  }

  ghost predicate AtRest(fs: FileSystem)
    reads fs
  {
    Quiet(fs.sb, fs.blocks, fs.own) && fs.table == DiskTable(fs.sb, fs.blocks)
  }

  lemma AtRestMeans(fs: FileSystem)
    requires AtRest(fs)
    ensures fs.Valid() && fs.sb.Valid() && |fs.blocks| == fs.sb.size && TableValid(fs.sb, fs.table)
    ensures forall i :: 0 <= i < fs.sb.ninodes ==> fs.Synced(i)
    ensures forall i :: 1 <= i < fs.sb.ninodes ==> Mapped(fs.blocks, fs.table[i])
  {}

  /** The panics of an operation, seen from the disk it finds: "ialloc: no inodes", "ilock: no type" and "balloc: out
      of blocks". Neither bmap's "out of range" nor bfree's "freeing free block" is among them. */
  ghost predicate Panics(sb: Superblock, op: Op, d: Disk)
    requires sb.Valid() && |d| == sb.size && WellFormed(sb, op)
  {
    match op
    case Create(_) => forall i :: 1 <= i < sb.ninodes ==> InodeAt(sb, d, i).kind != 0
    case Write(inum, off, src, _) =>
      InodeAt(sb, d, inum).kind == 0 || Short(sb, d, InodeAt(sb, d, inum), off, |src|)
    case _ => InodeAt(sb, d, op.inum).kind == 0
  }

  /** The operation ran on a consistent disk d and left e, one transaction later. */
  ghost predicate Did(sb: Superblock, op: Op, d: Disk, own: map<nat, Slot>, e: Disk, o: map<nat, Slot>) {
    && Quiet(sb, d, own) && Quiet(sb, e, o) && WellFormed(sb, op)
    && match op
       case Create(kind) => exists inum: nat :: Created(sb, kind, d, own, e, inum)
       case Write(inum, off, src, _) => Wrote(sb, inum, off, src, d, own, e)
       case Read(_, _, _, _) => e == d && o == own
       case Put(inum, nlink) => Unlinked(sb, inum, nlink, d, own, e, o)
  }

  /** The first free inode is in use, empty. */
  ghost predicate Created(sb: Superblock, kind: nat, d: Disk, own: map<nat, Slot>, e: Disk, inum: nat) {
    && sb.Valid() && |d| == |e| == sb.size && 1 <= inum < sb.ninodes
    && (forall i :: 1 <= i <= inum ==> (InodeAt(sb, d, i).kind == 0 <==> i == inum))
    && InodeAt(sb, e, inum) == FreeInode().(kind := kind)
    && Untouched(sb, d, DiskTable(sb, d), own, e, DiskTable(sb, e), inum)
  }

  /** The file is overwritten, or nothing happened to it, and every other file is as it was. */
  ghost predicate Wrote(sb: Superblock, inum: nat, off: nat, src: seq<byte>, d: Disk, own: map<nat, Slot>, e: Disk) {
    && sb.Valid() && |d| == |e| == sb.size && 1 <= inum < sb.ninodes
    && Untouched(sb, d, DiskTable(sb, d), own, e, DiskTable(sb, e), inum)
    && var di, dj := InodeAt(sb, d, inum), InodeAt(sb, e, inum);
       && di.kind == dj.kind != 0
       && if di.kind == T_DEV || off > di.size || off + |src| > MAXFILE * BSIZE then e == d
          else Mapped(d, di) && Mapped(e, dj) && Content(e, dj) == Overwrite(Content(d, di), off, src)
  }

  /** The inode has nlink links; with none it is free, and so are its blocks. */
  ghost predicate Unlinked(sb: Superblock, inum: nat, nlink: nat, d: Disk, own: map<nat, Slot>,
                           e: Disk, o: map<nat, Slot>)
  {
    && sb.Valid() && |d| == |e| == sb.size && 1 <= inum < sb.ninodes
    && Untouched(sb, d, DiskTable(sb, d), own, e, DiskTable(sb, e), inum)
    && var di, dj := InodeAt(sb, d, inum), InodeAt(sb, e, inum);
       && di.kind != 0
       && if nlink == 0 then dj.kind == 0 && o == Without(own, inum, MAXFILE + 1)
          else
            && dj == di.(nlink := nlink) && o == own
            && Mapped(d, di) && Mapped(e, dj) && Content(e, dj) == Content(d, di)
  }

  /** One operation, in a transaction of its own. ok == false: the kernel panicked. */
  method RunOp(fs: FileSystem, op: Op) returns (ok: bool)
    requires AtRest(fs) && WellFormed(fs.sb, op)
    modifies fs
    ensures ok ==> AtRest(fs) && Did(fs.sb, op, old(fs.blocks), old(fs.own), fs.blocks, fs.own)
    ensures ok ==> LoggedOnly(fs.sb, old(fs.blocks), {}, fs.blocks, fs.logged) && (op.Read? ==> fs.logged == {})
    ensures fs.sb.Valid() && |old(fs.blocks)| == fs.sb.size && (ok <==> !Panics(fs.sb, op, old(fs.blocks)))
  {
    hide Bit, Ref, InodeAt, Consistent, Untouched, OthersKept, Quiet, LoggedOnly, Full, Created, Wrote, Unlinked,
        Without;
    fs.logged := {}; // begin_op
    ghost var s0 := fs.Now();
    AtRestMeans(fs);
    TablesAre(fs.sb, s0.d);
    LoggedNone(fs.sb, s0.d, {});
    match op
    case Create(kind) =>
      var inum;
      inum, ok := fs.Ialloc(kind);
      if ok {
        EmptyIsMapped(fs.blocks, fs.table[inum]);
        QuietAgain(fs.sb, s0.d, s0.t, s0.o, fs.blocks, fs.table, fs.own, inum);
        IsCreated(fs.sb, kind, s0, fs.Now(), inum);
      }
    case Write(_, _, _, _) => ok := RunWrite(fs, op);
    case Read(inum, off, n, driver) =>
      var ip := new Inode(inum);
      ok := fs.Ilock(ip);
      if !ok { return; }
      var r, dst;
      r, dst, ok := fs.Readi(ip, off, n, driver);
    case Put(inum, nlink) => ok := RunPut(fs, inum, nlink);
  }

  lemma IsCreated(sb: Superblock, kind: nat, s: Snap, e: Snap, inum: nat)
    requires Quiet(sb, s.d, s.o) && s.t == DiskTable(sb, s.d) && Quiet(sb, e.d, e.o) && e.t == DiskTable(sb, e.d)
    requires 1 <= inum < sb.ninodes && s.t[inum].kind == 0 && forall i :: 1 <= i < inum ==> s.t[i].kind != 0
    requires e.t == s.t[inum := FreeInode().(kind := kind)] && Untouched(sb, s.d, s.t, s.o, e.d, e.t, inum)
    ensures Created(sb, kind, s.d, s.o, e.d, inum)
  {
    hide Bit, Ref, InodeAt, Consistent, Untouched;
    forall i | 1 <= i <= inum ensures InodeAt(sb, s.d, i).kind == 0 <==> i == inum {
      assert s.t[i] == InodeAt(sb, s.d, i);
    }
    assert e.t[inum] == InodeAt(sb, e.d, inum);
  }

  method RunWrite(fs: FileSystem, op: Op) returns (ok: bool)
    requires AtRest(fs) && op.Write? && WellFormed(fs.sb, op) && fs.logged == {}
    modifies fs
    ensures ok ==> AtRest(fs) && Did(fs.sb, op, old(fs.blocks), old(fs.own), fs.blocks, fs.own)
    ensures ok ==> LoggedOnly(fs.sb, old(fs.blocks), {}, fs.blocks, fs.logged)
    ensures fs.sb.Valid() && |old(fs.blocks)| == fs.sb.size && (ok <==> !Panics(fs.sb, op, old(fs.blocks)))
  {
    hide Bit, Ref, InodeAt, Mapped, Content, Overwrite, Short, Consistent, Untouched, OthersKept, Quiet, LoggedOnly,
        Full;
    ghost var s0 := fs.Now();
    AtRestMeans(fs);
    var ip := new Inode(op.inum);
    ok := fs.Ilock(ip);
    if !ok { return; }
    var r;
    r, ok := fs.Writei(ip, op.src, op.off, op.driver);
    if ok {
      OthersUntouched(fs.sb, s0, fs.Now(), op.inum);
      QuietAgain(fs.sb, s0.d, s0.t, s0.o, fs.blocks, fs.table, fs.own, op.inum);
      TableIs(fs.sb, s0.d, op.inum);
      TableIs(fs.sb, fs.blocks, op.inum);
    }
  }

  lemma TableIs(sb: Superblock, d: Disk, inum: nat)
    requires sb.Valid() && |d| == sb.size && inum < sb.ninodes
    ensures DiskTable(sb, d)[inum] == InodeAt(sb, d, inum)
  {}

  lemma TablesAre(sb: Superblock, d: Disk)
    requires sb.Valid() && |d| == sb.size
    ensures forall i :: 0 <= i < sb.ninodes ==> DiskTable(sb, d)[i] == InodeAt(sb, d, i)
  {}

  method RunPut(fs: FileSystem, inum: nat, nlink: nat) returns (ok: bool)
    requires AtRest(fs) && WellFormed(fs.sb, Put(inum, nlink)) && fs.logged == {}
    modifies fs
    ensures ok == (old(fs.table)[inum].kind != 0) && (!ok ==> fs.Now() == old(fs.Now()))
    ensures ok ==> AtRest(fs) && Unlinked(fs.sb, inum, nlink, old(fs.blocks), old(fs.own), fs.blocks, fs.own)
    ensures ok ==> LoggedOnly(fs.sb, old(fs.blocks), {}, fs.blocks, fs.logged)
  {
    hide Bit, Ref, InodeAt, Mapped, Content, Consistent, Untouched, OthersKept, Quiet, Without, LoggedOnly;
    ghost var s0 := fs.Now();
    AtRestMeans(fs);
    var ip := new Inode(inum);
    ok := fs.Ilock(ip);
    if !ok { return; }
    ip.nlink := nlink;
    MappedIgnoresLinks(s0.d, s0.t[inum], ip.Rec());
    InodeSaved(fs.sb, s0.d, s0.t, s0.o, inum, ip.Rec());
    fs.table := fs.table[inum := ip.Rec()];
    fs.Iupdate(ip);
    ghost var s1 := fs.Now();
    OthersUntouched(fs.sb, s0, s1, inum);
    ok := fs.Iput(ip);
    LoggedThen(fs.sb, s0.d, {}, s1.d, s1.l, fs.blocks, fs.logged);
    if nlink == 0 {
      UntouchedThen(fs.sb, s0, s1, fs.Now(), inum);
      ConsistentShape(fs.sb, fs.blocks, fs.table, fs.own);
      EmptyIsMapped(fs.blocks, fs.table[inum]);
    }
    QuietAgain(fs.sb, s0.d, s0.t, s0.o, fs.blocks, fs.table, fs.own, inum);
    TableIs(fs.sb, s0.d, inum);
    TableIs(fs.sb, fs.blocks, inum);
  }

  lemma OthersUntouched(sb: Superblock, s: Snap, e: Snap, inum: nat)
    requires OthersKept(sb, s.d, s.t, s.o, e.d, e.t, e.o, inum)
    ensures Untouched(sb, s.d, s.t, s.o, e.d, e.t, inum)
  {}

  lemma UntouchedThen(sb: Superblock, s0: Snap, s1: Snap, s2: Snap, inum: nat)
    requires OthersKept(sb, s0.d, s0.t, s0.o, s1.d, s1.t, s1.o, inum)
    requires Untouched(sb, s1.d, s1.t, s1.o, s2.d, s2.t, inum)
    ensures Untouched(sb, s0.d, s0.t, s0.o, s2.d, s2.t, inum)
  {}

  lemma MappedIgnoresLinks(d: Disk, di: Dinode, dj: Dinode)
    requires di.Valid() && dj.Valid() && dj.addrs == di.addrs && dj.size == di.size
    ensures Mapped(d, di) ==> Mapped(d, dj) && Content(d, dj) == Content(d, di)
  {
    forall k | 0 <= k <= MAXFILE ensures Ref(d, dj, k) == Ref(d, di, k) {}
  }

  /** Operations ops[..n] took the disk through ds, owned as os says, each doing its work. */
  ghost predicate Ran(sb: Superblock, ops: seq<Op>, n: nat, ds: seq<Disk>, os: seq<map<nat, Slot>>) {
    && n <= |ops| && |ds| == |os| == n + 1
    && (forall i :: 0 <= i <= n ==> Quiet(sb, ds[i], os[i]))
    && (forall i :: 0 <= i < n ==>
          Did(sb, ops[i], ds[i], os[i], ds[i + 1], os[i + 1]) && !Panics(sb, ops[i], ds[i]))
  }

  lemma RanNone(sb: Superblock, ops: seq<Op>, d: Disk, o: map<nat, Slot>)
    requires Quiet(sb, d, o)
    ensures Ran(sb, ops, 0, [d], [o])
  {}

  lemma RanMore(sb: Superblock, ops: seq<Op>, n: nat, ds: seq<Disk>, os: seq<map<nat, Slot>>, e: Disk,
                o: map<nat, Slot>)
    requires Ran(sb, ops, n, ds, os) && n < |ops| && Did(sb, ops[n], ds[n], os[n], e, o) && !Panics(sb, ops[n], ds[n])
    ensures Ran(sb, ops, n + 1, ds + [e], os + [o])
  {
    hide Quiet, Created, Wrote, Unlinked, Panics;
  }

  /** Any sequence of operations: the disk is consistent after each, and each did its work on what the one before
      left. The sequence is cut short exactly by an operation that panics on the disk it finds. */
  method RunOps(fs: FileSystem, ops: seq<Op>)
    returns (n: nat, ok: bool, ghost ds: seq<Disk>, ghost os: seq<map<nat, Slot>>)
    requires AtRest(fs) && forall i :: 0 <= i < |ops| ==> WellFormed(fs.sb, ops[i])
    modifies fs
    ensures Ran(fs.sb, ops, n, ds, os) && ds[0] == old(fs.blocks) && os[0] == old(fs.own)
    ensures ok ==> n == |ops| && AtRest(fs) && ds[n] == fs.blocks && os[n] == fs.own
    ensures !ok ==> n < |ops| && fs.sb.Valid() && |ds[n]| == fs.sb.size && Panics(fs.sb, ops[n], ds[n])
  {
    hide Quiet, Did, Panics, Ran;
    n, ok, ds, os := 0, true, [fs.blocks], [fs.own];
    AtRestMeans(fs);
    RanNone(fs.sb, ops, fs.blocks, fs.own);
    while n < |ops|
      invariant n <= |ops| && ok && AtRest(fs) && Ran(fs.sb, ops, n, ds, os)
      invariant |ds| == |os| == n + 1
      invariant ds[0] == old(fs.blocks) && os[0] == old(fs.own) && ds[n] == fs.blocks && os[n] == fs.own
      invariant |fs.blocks| == fs.sb.size
    {
      ok := RunOp(fs, ops[n]);
      if !ok { return; }
      AtRestMeans(fs);
      RanMore(fs.sb, ops, n, ds, os, fs.blocks, fs.own);
      ds, os := ds + [fs.blocks], os + [fs.own];
      n := n + 1;
    }
  }

  /** Every run from a fresh image: make the file system, then perform any sequence of operations. After each of them
      no block number is held in two places, and the set bits are exactly the metadata and the blocks held. */
  method FromMkfs(files: seq<Mkfs.Source>, ops: seq<Op>)
    returns (fs: FileSystem?, n: nat, ok: bool, ghost ds: seq<Disk>, ghost os: seq<map<nat, Slot>>)
    requires (|files| + 2) % 32 != 0
    requires forall i :: 0 <= i < |ops| ==> WellFormed(Mkfs.SB, ops[i])
    ensures fs != null ==> Ran(Mkfs.SB, ops, n, ds, os) && Mkfs.Holds(ds[0], files)
    ensures fs != null ==> forall i :: 0 <= i <= n ==> Exclusive(Mkfs.SB, ds[i])
    ensures fs != null && !ok ==> n < |ops| && |ds[n]| == Mkfs.SB.size && Panics(Mkfs.SB, ops[n], ds[n])
    ensures ok ==> fs != null && fs.sb == Mkfs.SB && n == |ops| && AtRest(fs) && ds[n] == fs.blocks
    ensures fs != null <==> Mkfs.Fits(files)
  {
    hide Quiet, Panics, Exclusive, Mkfs.Holds, Mkfs.Fits;
    fs, n, ds, os := null, 0, [], [];
    var image;
    ghost var own;
    image, own, ok := Mkfs.MakeFs(files);
    if !ok { return; }
    var f := new FileSystem(Mkfs.SB, image, own);
    fs := f;
    n, ok, ds, os := RunOps(f, ops);
    forall i | 0 <= i <= n ensures Exclusive(Mkfs.SB, ds[i]) {
      OwnedExclusive(Mkfs.SB, ds[i], os[i]);
    }
  }

  /** No block number occurs twice in the inodes on disk and their indirect blocks, and a block's bit is set exactly
      when it is metadata or occurs. */
  ghost predicate Exclusive(sb: Superblock, d: Disk) {
    && sb.Valid() && |d| == sb.size
    && var t := DiskTable(sb, d);
       && TableValid(sb, t)
       && (forall i, k, j, l ::
            (1 <= i < sb.ninodes && 1 <= j < sb.ninodes && 0 <= k <= MAXFILE && 0 <= l <= MAXFILE
             && Ref(d, t[i], k) != 0 && Ref(d, t[i], k) == Ref(d, t[j], l)) ==> i == j && k == l)
       && forall b :: 0 <= b < sb.size ==> (Bit(sb, d, b) <==> (b < sb.nmeta || HeldSomewhere(sb, d, t, b)))
  }

  lemma OwnedExclusive(sb: Superblock, d: Disk, own: map<nat, Slot>)
    requires Quiet(sb, d, own)
    ensures Exclusive(sb, d)
  {
    hide Bit, Ref, InodeAt;
    OwnershipIsUnique(sb, d, DiskTable(sb, d), own);
  }

  /** Without the condition of FromMkfs the guarantee fails: on any fresh image, reading the root directory from end
      to end leaves the disk consistent exactly when the image has no hole. The read needs a block for the hole. */
  method ReadRoot(files: seq<Mkfs.Source>) returns (fs: FileSystem?, dst: seq<byte>, ok: bool)
    ensures ok <==> Mkfs.Fits(files) && ((|files| + 2) % 32 != 0 || Mkfs.Used(files) < Mkfs.FSSIZE)
    ensures ok ==> fs != null && fs.sb == Mkfs.SB && fs.Valid() && |dst| == fs.table[Mkfs.ROOTINO].size
    ensures ok ==> |Mkfs.RootEntries(files)| <= |dst| && dst[..|Mkfs.RootEntries(files)|] == Mkfs.RootEntries(files)
    ensures ok ==> ((exists own: map<nat, Slot> :: Consistent(fs.sb, fs.blocks, DiskTable(fs.sb, fs.blocks), own))
                    <==> (|files| + 2) % 32 != 0)
  {
    hide Bit, Ref, InodeAt, Consistent, Quiet, Grown, ReadBack, Filled, Mkfs.RootEntries, Mkfs.RootPadded, Content,
      Needed, Free, Mkfs.Used;
    fs, dst := null, [];
    var image;
    ghost var own;
    image, own, ok := Mkfs.MakeFs(files);
    if !ok { return; }
    var f := new FileSystem(Mkfs.SB, image, own);
    fs := f;
    var ip := new Inode(Mkfs.ROOTINO);
    ok := f.Ilock(ip);
    ghost var s, di := f.Now(), f.table[Mkfs.ROOTINO];
    assert di == InodeAt(Mkfs.SB, image, Mkfs.ROOTINO);
    if !ok { return; }
    RootNeeds(image, |files| + 2);
    var r;
    r, dst, ok := f.Readi(ip, 0, ip.size, NoDriver);
    if !ok { return; }
    WholeFile(s.d, di, dst);
    RootHoleFilled(s, f.Now(), own, |files| + 2);
  }

  lemma RootNeeds(d: Disk, n: nat)
    requires Mkfs.SB.Valid() && |d| == Mkfs.FSSIZE && Mkfs.RootPadded(d, n) && n <= Mkfs.NINODES
    ensures var root := InodeAt(Mkfs.SB, d, Mkfs.ROOTINO);
            && 0 < root.size <= MAXFILE * BSIZE
            && |Needed(d, root, 0, root.size)| == if n % 32 == 0 then 1 else 0
  {
    hide InodeAt, Ref;
    var root := InodeAt(Mkfs.SB, d, Mkfs.ROOTINO);
    var q := n / 32;
    assert n == 32 * q + n % 32 && Reach(0, root.size) == q + 1;
    assert Needed(d, root, 0, root.size) == if n % 32 == 0 then {q} else {};
  }

  lemma WholeFile(d: Disk, di: Dinode, dst: seq<byte>)
    requires di.Valid() && di.size <= MAXFILE * BSIZE && |dst| == di.size && ReadBack(d, di, 0, dst)
    ensures dst == Content(d, di)
  {}

  lemma RootHoleFilled(s: Snap, e: Snap, own: map<nat, Slot>, n: nat)
    requires Mkfs.SB.Valid() && |s.d| == Mkfs.FSSIZE && s.t == DiskTable(Mkfs.SB, s.d) && s.o == own
              && n < Mkfs.NINODES + 1
    requires Grown(Mkfs.SB, s, e, Mkfs.ROOTINO) && Mkfs.RootPadded(s.d, n)
    requires Quiet(Mkfs.SB, s.d, own) <==> n % 32 != 0
    requires s.t[Mkfs.ROOTINO].Valid() && (Mapped(s.d, s.t[Mkfs.ROOTINO]) ==> e == s)
    requires Filled(e.d, e.t[Mkfs.ROOTINO], 0, s.t[Mkfs.ROOTINO].size)
    ensures (exists own2: map<nat, Slot> :: Consistent(Mkfs.SB, e.d, DiskTable(Mkfs.SB, e.d), own2)) <==> n % 32 != 0
  {
    hide Bit, InodeAt, Consistent, ReadBack, Ref;
    SavedIff(Mkfs.SB, s, e, Mkfs.ROOTINO);
    if n % 32 == 0 {
      RefIs(s.d, s.t[Mkfs.ROOTINO], n / 32);
      RefIs(e.d, e.t[Mkfs.ROOTINO], n / 32);
    }
  }
}
