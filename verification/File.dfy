/** file.c's filewrite: one write cut into transactions small enough for the log. */
module File {
  import opened Bytes
  import opened LogSpec
  import opened FsSpec
  import opened FsSteps
  import opened FsWrite
  import opened Fs

  const MAXBYTES: nat := (MAXOPBLOCKS - 1 - 1 - 2) / 2 * 512

  /** The blocks one iteration logs: at most four of data, four of bitmap, the indirect block and the inode. */
  lemma IterationFits(off: nat, n: nat)
    requires 0 < n <= MAXBYTES
    ensures WriteBound(off, n) + 1 <= MAXOPBLOCKS
  {}

  lemma OverwriteAppend(c: seq<byte>, off: nat, a: seq<byte>, b: seq<byte>)
    requires off <= |c|
    ensures Overwrite(Overwrite(c, off, a), off + |a|, b) == Overwrite(c, off, a + b)
  {}

  /** From (s0, di0) to (e, di): the first i bytes of addr have been written at offset foff0. */
  ghost predicate Wrote(s0: Snap, di0: Dinode, e: Snap, di: Dinode, foff0: nat, addr: seq<byte>, i: nat) {
    && i <= |addr| && di0.Valid() && di.Valid()
    && (i == 0 ==> e == s0 && di == di0)
    && (i > 0 ==> foff0 <= di0.size && foff0 + i <= di.size && foff0 + i <= MAXFILE * BSIZE)
    && (Mapped(s0.d, di0) ==>
          && Mapped(e.d, di)
          && (foff0 <= di0.size ==> Content(e.d, di) == Overwrite(Content(s0.d, di0), foff0, addr[..i])))
  }

  /** The file system, the blocks logged aside. */
  ghost function Files(fs: FileSystem): Snap
    reads fs
  {
    fs.Now().(l := {})
  }

  /** The length of the piece that starts at byte i of n. */
  function Piece(n: nat, i: nat): (m: nat)
    requires i <= n
    ensures i < n ==> 0 < m <= MAXBYTES && i + m <= n
  {
    if n - i > MAXBYTES then MAXBYTES else n - i
  }

  /** What a device answers to that piece. */
  function Said(major: nat, driver: (nat, nat) -> Driver, n: nat, i: nat): int
    requires i <= n
  {
    Answer(major, driver(i, Piece(n, i)))
  }

  /** A device has taken the pieces below byte k, each with its own length. */
  ghost predicate Took(major: nat, driver: (nat, nat) -> Driver, n: nat, k: nat) {
    && k <= n && (k == n || k % MAXBYTES == 0)
    && (forall i :: 0 <= i < k && i % MAXBYTES == 0 ==> Said(major, driver, n, i) == Piece(n, i))
  }

  /** And it does not take the next, if there is one. */
  ghost predicate StopsAt(major: nat, driver: (nat, nat) -> Driver, n: nat, k: nat) {
    Took(major, driver, n, k) && (k < n ==> Said(major, driver, n, k) != Piece(n, k))
  }

  lemma StopsOnce(major: nat, driver: (nat, nat) -> Driver, n: nat, k: nat, l: nat)
    requires StopsAt(major, driver, n, k) && StopsAt(major, driver, n, l)
    ensures k == l
  {}

  /** What filewrite makes of a device that stops at byte stop: n when it took everything, -1 when it refused a piece,
      and a panic when it answered a piece otherwise. The offset advances by all it took. */
  ghost predicate Answered(major: nat, driver: (nat, nat) -> Driver, n: nat, foff0: nat, stop: nat, r: int, foff: nat,
                           ok: bool)
  {
    && StopsAt(major, driver, n, stop)
    && if stop == n then ok && r == n && foff == (foff0 + n) % W32
       else
         var a := Said(major, driver, n, stop);
         && (ok <==> a < 0) && (ok ==> r == -1)
         && foff == (foff0 + stop + if a > 0 then a else 0) % W32
  }

  lemma ModAdd(a: nat, r: nat)
    ensures (a % W32 + r) % W32 == (a + r) % W32
  {
    var q := a / W32;
    assert a == q * W32 + a % W32;
    ModShift(q, a % W32 + r);
  }

  lemma ModShift(q: nat, b: nat)
    ensures (q * W32 + b) % W32 == b % W32
  {}

  /** One piece, answered with r. */
  lemma PieceSaid(major: nat, driver: (nat, nat) -> Driver, n: nat, k: nat, foff0: nat, foff: nat, r: int)
    requires Took(major, driver, n, k) && k < n && r == Said(major, driver, n, k) && foff == (foff0 + k) % W32
    ensures r == Piece(n, k) ==> Took(major, driver, n, k + r) && (foff + r) % W32 == (foff0 + (k + r)) % W32
    ensures r != Piece(n, k) ==>
              var foff' := if r > 0 then (foff + r) % W32 else foff;
              Answered(major, driver, n, foff0, k, if r < 0 then -1 else r, foff', r < 0)
  {
    if r > 0 { ModAdd(foff0 + k, r); }
    if r == Piece(n, k) {
      TookMore(major, driver, n, k);
    }
  }

  lemma TookMore(major: nat, driver: (nat, nat) -> Driver, n: nat, k: nat)
    requires Took(major, driver, n, k) && k < n && Said(major, driver, n, k) == Piece(n, k)
    ensures Took(major, driver, n, k + Piece(n, k))
  {
    hide Said;
    var m := Piece(n, k);
    forall i | 0 <= i < k + m && i % MAXBYTES == 0 ensures Said(major, driver, n, i) == Piece(n, i) {
      if i > k {
        NoneBetween(k, i);
      }
    }
    if m == MAXBYTES { NextPiece(k); }
  }

  lemma NoneBetween(k: nat, i: nat)
    requires k % MAXBYTES == 0 && i % MAXBYTES == 0 && k < i
    ensures k + MAXBYTES <= i
  {
    var a, b := k / MAXBYTES, i / MAXBYTES;
    assert k == a * MAXBYTES && i == b * MAXBYTES;
  }

  lemma NextPiece(k: nat)
    requires k % MAXBYTES == 0
    ensures (k + MAXBYTES) % MAXBYTES == 0
  {}

  lemma TookNothing(major: nat, driver: (nat, nat) -> Driver, n: nat)
    ensures Took(major, driver, n, 0)
  {}

  lemma TookEverything(major: nat, driver: (nat, nat) -> Driver, n: nat, foff0: nat)
    requires Took(major, driver, n, n)
    ensures Answered(major, driver, n, foff0, n, n, (foff0 + n) % W32, true)
  {}

  /** writei of src at off took the file system from (s, di) to (e, dj) in one transaction, and answered r. */
  ghost predicate Turn(sb: Superblock, s: Snap, di: Dinode, e: Snap, dj: Dinode, inum: nat, off: nat, src: seq<byte>,
                       driver: Driver, r: int, log: set<nat>)
  {
    && sb.Valid() && |s.d| == |e.d| == sb.size && |s.t| == |e.t| == sb.ninodes && inum < sb.ninodes
    && dj.kind == di.kind && OthersKept(sb, s.d, s.t, s.o, e.d, e.t, e.o, inum)
    && (di.kind == T_DEV || r == -1 ==> e == s && dj == di)
    && if di.kind == T_DEV then r == Answer(di.major, driver)
       else
         && di.Valid() && dj.Valid()
         && r == (if off > di.size || off + |src| > MAXFILE * BSIZE then -1 else |src|)
         && (r == |src| ==> Wrote(s, di, e, dj, off, src, |src|))
         && (Mapped(s.d, di) ==>
               |log| <= MAXOPBLOCKS && (InodeAt(sb, s.d, inum) == s.t[inum] ==> InodeAt(sb, e.d, inum) == e.t[inum]))
  }

  /** One turn of filewrite's loop, a transaction: n1 bytes of addr from byte i on. */
  method WriteTurn(fs: FileSystem, ip: Inode, src: seq<byte>, foff: nat, driver: Driver)
    returns (r: int, ghost log: set<nat>, ok: bool)
    requires fs.Holds(ip) && foff < W32 && 0 < |src| <= MAXBYTES
    modifies fs, ip`addrs, ip`size
    ensures !ok ==> Full(fs.sb, fs.blocks) && ip.kind != T_DEV
    ensures ok ==> fs.Holds(ip)
    ensures ok ==> Turn(fs.sb, old(Files(fs)), old(ip.Rec()), Files(fs), ip.Rec(), ip.inum, foff, src, driver, r, log)
  {
    hide Bit, Ref, InodeAt, OthersKept, Consistent, Mapped, Content, Overwrite, Full, Wrote, Short, LoggedOnly;
    ghost var s, di := Files(fs), ip.Rec();
    fs.logged := {}; // begin_op
    ConsistentShape(fs.sb, fs.blocks, fs.table, fs.own);
    r, ok := fs.Writei(ip, src, foff, driver);
    if !ok { return r, {}, false; }
    ConsistentShape(fs.sb, fs.blocks, fs.table, fs.own);
    log := fs.logged; // end_op
    if ip.kind != T_DEV && r == |src| {
      WroteOnce(s, di, Files(fs), ip.Rec(), foff, src);
      IterationFits(foff, |src|);
    }
  }

  lemma WroteOnce(s: Snap, di: Dinode, e: Snap, dj: Dinode, off: nat, src: seq<byte>)
    requires di.Valid() && dj.Valid() && src != [] && off <= di.size && off + |src| <= MAXFILE * BSIZE
    requires dj.size == if off + |src| > di.size then off + |src| else di.size
    requires Mapped(s.d, di) ==> Mapped(e.d, dj) && Content(e.d, dj) == Overwrite(Content(s.d, di), off, src)
    ensures Wrote(s, di, e, dj, off, src, |src|)
  {
    hide Ref, Content, Overwrite;
    assert src[..|src|] == src;
  }

  /** The first i bytes have been dealt with, and f->off has come from foff0 to foff. */
  ghost predicate Turned(sb: Superblock, s0: Snap, di0: Dinode, s: Snap, di: Dinode, inum: nat,
                         driver: (nat, nat) -> Driver, addr: seq<byte>, foff0: nat, i: nat, foff: nat,
                         logs: seq<set<nat>>)
  {
    && i <= |addr| && foff < W32 && di.kind == di0.kind
    && sb.Valid() && |s.d| == |s0.d| == sb.size && |s.t| == |s0.t| == sb.ninodes && inum < sb.ninodes
    && OthersKept(sb, s0.d, s0.t, s0.o, s.d, s.t, s.o, inum)
    && if di.kind == T_DEV then
         s == s0 && di == di0 && Took(di.major, driver, |addr|, i) && foff == (foff0 + i) % W32
       else
         && di0.Valid() && di.Valid() && foff == foff0 + i && Wrote(s0, di0, s, di, foff0, addr, i)
         && (Mapped(s0.d, di0) ==>
               && (InodeAt(sb, s0.d, inum) == s0.t[inum] ==> InodeAt(sb, s.d, inum) == s.t[inum])
               && forall k :: 0 <= k < |logs| ==> |logs[k]| <= MAXOPBLOCKS)
  }

  lemma TurnedNone(sb: Superblock, s: Snap, di: Dinode, inum: nat, driver: (nat, nat) -> Driver, addr: seq<byte>,
                   foff0: nat)
    requires sb.Valid() && |s.d| == sb.size && |s.t| == sb.ninodes && di.Valid() && foff0 < W32 && inum < sb.ninodes
    ensures Turned(sb, s, di, s, di, inum, driver, addr, foff0, 0, foff0, [])
  {
    hide Wrote, OthersKept, Said, InodeAt;
    OthersKeptRefl(sb, s.d, s.t, s.o, inum);
    WroteNothing(s, di, foff0, addr);
    TookNothing(di.major, driver, |addr|);
  }

  /** After one more turn: all of its piece is dealt with, or writei refused it, or a device took another amount. */
  lemma TurnedMore(sb: Superblock, s0: Snap, di0: Dinode, s: Snap, di: Dinode, e: Snap, dj: Dinode, inum: nat,
                   driver: (nat, nat) -> Driver, addr: seq<byte>, foff0: nat, i: nat, foff: nat, n1: nat, r: int,
                   logs: seq<set<nat>>, log: set<nat>)
    requires Turned(sb, s0, di0, s, di, inum, driver, addr, foff0, i, foff, logs) && i < |addr|
    requires n1 == Piece(|addr|, i) && Turn(sb, s, di, e, dj, inum, foff, addr[i..i + n1], driver(i, n1), r, log)
    ensures r == n1 ==>
              Turned(sb, s0, di0, e, dj, inum, driver, addr, foff0, i + n1, (foff + r) % W32, logs + [log])
    ensures r < 0 ==> Turned(sb, s0, di0, e, dj, inum, driver, addr, foff0, i, foff, logs + [log])
    ensures r < 0 && di0.kind != T_DEV ==> foff0 > di0.size || foff0 + |addr| > MAXFILE * BSIZE
    ensures r != n1 && di0.kind == T_DEV ==>
              Answered(di0.major, driver, |addr|, foff0, i, if r < 0 then -1 else r,
                       if r > 0 then (foff + r) % W32 else foff, r < 0)
    ensures r != n1 && r >= 0 ==> di0.kind == T_DEV
  {
    hide Took, Wrote, OthersKept, Piece, Answered, InodeAt, Mapped;
    OthersKeptTrans(sb, s0.d, s0.t, s0.o, s.d, s.t, s.o, e.d, e.t, e.o, inum);
    if di.kind == T_DEV {
      PieceSaid(di.major, driver, |addr|, i, foff0, foff, r);
    } else {
      WroteIs(s0, di0, s, di, foff0, addr, i);
      if r == n1 { WroteMore(s0, di0, s, di, e, dj, foff0, addr, i, n1); }
    }
  }

  /** What has been written when Filewrite returns. */
  lemma TurnedEnds(sb: Superblock, s0: Snap, di0: Dinode, s: Snap, di: Dinode, inum: nat,
                   driver: (nat, nat) -> Driver, addr: seq<byte>, foff0: nat, i: nat, foff: nat, logs: seq<set<nat>>)
    requires Turned(sb, s0, di0, s, di, inum, driver, addr, foff0, i, foff, logs)
    ensures OthersKept(sb, s0.d, s0.t, s0.o, s.d, s.t, s.o, inum) && i <= |addr| && foff < W32
    ensures di.kind == T_DEV ==> s == s0 && di == di0
    ensures di.kind == T_DEV && i == |addr| ==> Answered(di.major, driver, |addr|, foff0, i, |addr|, foff, true)
    ensures di.kind != T_DEV ==> foff == foff0 + i && Wrote(s0, di0, s, di, foff0, addr, i)
    ensures di.kind != T_DEV && i == |addr| > 0 ==> foff0 <= di0.size && foff0 + |addr| <= MAXFILE * BSIZE
    ensures di.kind != T_DEV && di0.Valid() && Mapped(s0.d, di0) && inum < |s0.t| && inum < |s.t| ==>
              && sb.Valid() && |s0.d| == |s.d| == sb.size && inum < sb.ninodes
              && (InodeAt(sb, s0.d, inum) == s0.t[inum] ==> InodeAt(sb, s.d, inum) == s.t[inum])
              && forall k :: 0 <= k < |logs| ==> |logs[k]| <= MAXOPBLOCKS
  {
    hide Took, Wrote, OthersKept, InodeAt, Mapped;
    if di.kind == T_DEV {
      if i == |addr| { TookEverything(di.major, driver, |addr|, foff0); }
    } else {
      WroteIs(s0, di0, s, di, foff0, addr, i);
    }
  }

  lemma HoldsMeans(fs: FileSystem, ip: Inode)
    requires fs.Holds(ip)
    ensures fs.Valid() && fs.sb.Valid() && |fs.blocks| == fs.sb.size && |fs.table| == fs.sb.ninodes
    ensures ip.inum < fs.sb.ninodes && ip.Rec().Valid()
  {
    ConsistentShape(fs.sb, fs.blocks, fs.table, fs.own);
  }

  /** f->off is foff0 before and foff after; logs lists the blocks logged by each transaction. driver(i, n) is the
      row of devsw when n bytes from byte i on go to a device, which stops at byte stop. ok == false is a panic:
      balloc's, or, for a device that neither takes a piece nor refuses it, "short filewrite". */
  method Filewrite(fs: FileSystem, ip: Inode, addr: seq<byte>, foff0: nat, driver: (nat, nat) -> Driver)
    returns (r: int, foff: nat, ghost logs: seq<set<nat>>, ok: bool, ghost stop: nat)
    requires fs.Holds(ip) && |addr| < 0x8000_0000 && foff0 < W32
    modifies fs, ip`addrs, ip`size
    ensures !ok ==> Full(fs.sb, fs.blocks) || ip.kind == T_DEV
    ensures ip.kind == T_DEV ==> Answered(ip.major, driver, |addr|, foff0, stop, r, foff, ok)
    ensures ok ==> fs.Holds(ip) && foff < W32 && (r == |addr| || r == -1)
    ensures ok && ip.kind == T_DEV ==> Files(fs) == old(Files(fs)) && ip.Rec() == old(ip.Rec())
    ensures ok && ip.kind != T_DEV ==> foff0 <= foff <= foff0 + |addr| && (r == |addr| <==> foff == foff0 + |addr|)
    ensures ok && ip.kind != T_DEV ==>
              (r == |addr| <==> |addr| == 0 || (foff0 <= old(ip.size) && foff0 + |addr| <= MAXFILE * BSIZE))
    ensures ok && ip.kind != T_DEV ==>
              Wrote(old(Files(fs)), old(ip.Rec()), Files(fs), ip.Rec(), foff0, addr, foff - foff0)
    ensures ok && ip.kind != T_DEV && Mapped(old(fs.blocks), old(ip.Rec())) ==>
              && (old(fs.Synced(ip.inum)) ==> fs.Synced(ip.inum))
              && forall i :: 0 <= i < |logs| ==> |logs[i]| <= MAXOPBLOCKS
    ensures ok ==> OthersKept(fs.sb, old(fs.blocks), old(fs.table), old(fs.own), fs.blocks, fs.table, fs.own, ip.inum)
  {
    hide Bit, Ref, InodeAt, OthersKept, Mapped, Full, Wrote, Answered, Turned, Turn, fs.Holds, fs.Valid;
    HoldsMeans(fs, ip);
    logs, stop := [], 0;
    foff, r := foff0, 0;
    ghost var s0, di0 := Files(fs), ip.Rec();
    TurnedNone(fs.sb, s0, di0, ip.inum, driver, addr, foff0);
    var n, i := |addr|, 0;
    while i < n
      invariant i <= n && stop == i && foff < W32 && fs.Holds(ip) && ip.kind == di0.kind && ip.major == di0.major
      invariant Turned(fs.sb, s0, di0, Files(fs), ip.Rec(), ip.inum, driver, addr, foff0, i, foff, logs)
    {
      var n1 := n - i;
      if n1 > MAXBYTES {
        n1 := MAXBYTES;
      }
      ghost var s, di, log := Files(fs), ip.Rec(), {};
      r, log, ok := WriteTurn(fs, ip, addr[i..i + n1], foff, driver(i, n1));
      if !ok { return; }
      TurnedMore(fs.sb, s0, di0, s, di, Files(fs), ip.Rec(), ip.inum, driver, addr, foff0, i, foff, n1, r, logs, log);
      logs := logs + [log];
      if r > 0 {
        foff := (foff + r) % W32;
      }
      if r < 0 {
        break;
      }
      if r != n1 {
        return r, foff, logs, false, stop; // short filewrite
      }
      i := i + r;
      stop := i;
    }
    HoldsMeans(fs, ip);
    TurnedEnds(fs.sb, s0, di0, Files(fs), ip.Rec(), ip.inum, driver, addr, foff0, i, foff, logs);
    r := if i == n then n else -1;
    ok := true;
  }

  lemma WroteIs(s0: Snap, di0: Dinode, e: Snap, di: Dinode, foff0: nat, addr: seq<byte>, i: nat)
    requires Wrote(s0, di0, e, di, foff0, addr, i)
    ensures i <= |addr| && di0.Valid() && di.Valid() && (Mapped(s0.d, di0) ==> Mapped(e.d, di))
    ensures i == 0 ==> di == di0
    ensures i > 0 ==> foff0 <= di0.size && foff0 + i <= di.size && foff0 + i <= MAXFILE * BSIZE
  {}

  lemma WroteNothing(s0: Snap, di0: Dinode, foff0: nat, addr: seq<byte>)
    requires di0.Valid()
    ensures Wrote(s0, di0, s0, di0, foff0, addr, 0)
  {
    hide Ref, ByteAt;
    if foff0 <= di0.size && Mapped(s0.d, di0) { OverwriteNothing(s0.d, di0, foff0, addr); }
  }

  /** One turn of the loop, from (s, di) to (e, dj), wrote n1 bytes more. */
  lemma WroteMore(s0: Snap, di0: Dinode, s: Snap, di: Dinode, e: Snap, dj: Dinode, foff0: nat, addr: seq<byte>,
                  i: nat, n1: nat)
    requires Wrote(s0, di0, s, di, foff0, addr, i) && i + n1 <= |addr| && n1 > 0 && foff0 + i <= di.size
    requires foff0 + i + n1 <= MAXFILE * BSIZE && Wrote(s, di, e, dj, foff0 + i, addr[i..i + n1], n1)
    ensures Wrote(s0, di0, e, dj, foff0, addr, i + n1)
  {
    hide Ref, ByteAt, Content, Overwrite;
    if Mapped(s0.d, di0) && foff0 <= di0.size {
      assert addr[i..i + n1][..n1] == addr[i..i + n1];
      OverwriteAppend(Content(s0.d, di0), foff0, addr[..i], addr[i..i + n1]);
      assert addr[..i] + addr[i..i + n1] == addr[..i + n1];
    }
  }

  lemma OverwriteNothing(d: Disk, di: Dinode, off: nat, src: seq<byte>)
    requires di.Valid() && di.size <= MAXFILE * BSIZE && off <= di.size
    ensures Overwrite(Content(d, di), off, src[..0]) == Content(d, di)
  {}
}
