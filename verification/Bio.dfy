/** memide.c: the disk image in memory, as bytes. */
module Memide {
  import opened Bytes

  /** Block n of the image. */
  function BlockAt(image: seq<byte>, n: nat): Block
    requires (n + 1) * BSIZE <= |image|
  {
    image[n * BSIZE..(n + 1) * BSIZE]
  }

  function Store(image: seq<byte>, n: nat, data: Block): (r: seq<byte>)
    requires (n + 1) * BSIZE <= |image|
    ensures |r| == |image|
  {
    image[..n * BSIZE] + data + image[(n + 1) * BSIZE..]
  }

  lemma StoreGet(image: seq<byte>, n: nat, data: Block, k: nat)
    requires (n + 1) * BSIZE <= |image| && (k + 1) * BSIZE <= |image|
    ensures BlockAt(Store(image, n, data), k) == if k == n then data else BlockAt(image, k)
  {}
}

/** The list of buffers of bio.c: links by index, with the head at index |buf|. */
module BufferRing {
  /** Entry i of the ring; the head stands on both sides of it. */
  function At(order: seq<nat>, i: int, head: nat): nat {
    if 0 <= i < |order| then order[i] else head
  }

  predicate LinkAt(next: seq<nat>, prev: seq<nat>, order: seq<nat>, head: nat, i: int) {
    var a, b := At(order, i, head), At(order, i + 1, head);
    a < |next| && b < |prev| && next[a] == b && prev[b] == a
  }

  /** Going round by next from the head passes order, by prev its reverse. */
  ghost predicate Linked(next: seq<nat>, prev: seq<nat>, order: seq<nat>, head: nat) {
    && |next| == |prev| == head + 1
    && (forall i :: 0 <= i < |order| ==> order[i] < head)
    && (forall i, j :: 0 <= i < j < |order| ==> order[i] != order[j])
    && (forall i :: -1 <= i < |order| ==> LinkAt(next, prev, order, head, i))
  }

  function Without(order: seq<nat>, k: nat): seq<nat>
    requires k < |order|
  {
    order[..k] + order[k + 1..]
  }

  /** b->next->prev = b->prev; b->prev->next = b->next */
  function UnlinkNext(next: seq<nat>, prev: seq<nat>, b: nat): (r: seq<nat>)
    requires b < |next| && b < |prev| && prev[b] < |next|
    ensures |r| == |next|
  {
    next[prev[b] := next[b]]
  }

  function UnlinkPrev(next: seq<nat>, prev: seq<nat>, b: nat): (r: seq<nat>)
    requires b < |next| && b < |prev| && next[b] < |prev|
    ensures |r| == |prev|
  {
    prev[next[b] := prev[b]]
  }

  lemma Unlinked(next: seq<nat>, prev: seq<nat>, order: seq<nat>, head: nat, k: nat)
    requires Linked(next, prev, order, head) && k < |order|
    ensures order[k] < head && prev[order[k]] <= head && next[order[k]] <= head
    ensures Linked(UnlinkNext(next, prev, order[k]), UnlinkPrev(next, prev, order[k]), Without(order, k), head)
  {
    var b, r := order[k], Without(order, k);
    assert LinkAt(next, prev, order, head, k) && LinkAt(next, prev, order, head, k - 1);
    var next', prev' := UnlinkNext(next, prev, b), UnlinkPrev(next, prev, b);
    forall i | -1 <= i < |r| ensures LinkAt(next', prev', r, head, i) {
      var m := if i < k then i else i + 1;
      assert LinkAt(next, prev, order, head, m);
      assert At(r, i, head) == At(order, m, head);
      if i != k - 1 {
        assert At(r, i + 1, head) == At(order, m + 1, head);
      } else {
        assert At(r, i + 1, head) == At(order, k + 1, head);
      }
    }
  }

  /** b->next = head.next; b->prev = &head; head.next->prev = b; head.next = b */
  function PushNext(next: seq<nat>, b: nat, head: nat): (r: seq<nat>)
    requires b < head < |next|
    ensures |r| == |next|
  {
    next[b := next[head]][head := b]
  }

  function PushPrev(next: seq<nat>, prev: seq<nat>, b: nat, head: nat): (r: seq<nat>)
    requires b < head < |next| && b < |prev| && next[head] < |prev|
    ensures |r| == |prev|
  {
    prev[b := head][next[head] := b]
  }

  lemma Pushed(next: seq<nat>, prev: seq<nat>, order: seq<nat>, head: nat, b: nat)
    requires Linked(next, prev, order, head) && b < head && b !in order
    ensures next[head] <= head
    ensures Linked(PushNext(next, b, head), PushPrev(next, prev, b, head), [b] + order, head)
  {
    var r := [b] + order;
    assert LinkAt(next, prev, order, head, -1);
    var next', prev' := PushNext(next, b, head), PushPrev(next, prev, b, head);
    forall i | -1 <= i < |r| ensures LinkAt(next', prev', r, head, i) {
      if i >= 0 {
        assert LinkAt(next, prev, order, head, i - 1);
        assert At(r, i + 1, head) == At(order, i, head);
        assert i > 0 ==> At(r, i, head) == At(order, i - 1, head);
      }
    }
  }

  lemma WithoutShape(order: seq<nat>, k: nat)
    requires k < |order| && forall i, j :: 0 <= i < j < |order| ==> order[i] != order[j]
    ensures order[k] !in Without(order, k) && |Without(order, k)| == |order| - 1
    ensures forall b :: b in Without(order, k) <==> b in order && b != order[k]
  {
    var r := Without(order, k);
    forall b | b in order && b != order[k] ensures b in r {
      var i :| 0 <= i < |order| && order[i] == b;
      assert b == if i < k then r[i] else r[i - 1];
    }
  }
}

/** bio.c: the buffer cache over memide.c's disk. The processes are its callers: one method call is what one of them
    does without giving way, so any interleaving of processes is a sequence of calls. */
module Bio {
  import opened Bytes
  import opened Memide
  import opened BufferRing

  const NBUF: nat := 30
  const DISK: nat := 1 // the only device iderw serves

  datatype Option<T> = None | Some(value: T)

  /** locked stands for the buffer's sleeplock. */
  datatype Buf = Buf(dev: nat, blockno: nat, valid: bool, dirty: bool, refcnt: nat, locked: bool, data: Block)

  predicate Caches(b: Buf, dev: nat, blockno: nat) {
    b.dev == dev && b.blockno == blockno
  }

  /** May be given to another block. */
  predicate Unused(b: Buf) {
    b.refcnt == 0 && !b.dirty
  }

  function DiskBlock(image: seq<byte>, n: nat): Block {
    if (n + 1) * BSIZE <= |image| then BlockAt(image, n) else ZeroBlock()
  }

  function Latest(latest: seq<Block>, n: nat): Block {
    if n < |latest| then latest[n] else ZeroBlock()
  }

  /** One buffer against the disk and the last data left in each block. A buffer nobody has locked agrees with what
      was last left, and unless it is dirty so does the disk. */
  predicate BufOk(b: Buf, image: seq<byte>, latest: seq<Block>) {
    && (b.locked ==> b.refcnt > 0)
    && (b.dirty ==> b.valid)
    && (b.valid ==> b.dev == DISK && b.blockno < |latest|)
    && (b.valid && !b.locked ==> b.data == Latest(latest, b.blockno))
    && (b.valid && !b.locked && !b.dirty ==> DiskBlock(image, b.blockno) == Latest(latest, b.blockno))
  }

  predicate Holds(buf: seq<Buf>, n: nat) {
    exists b :: 0 <= b < |buf| && buf[b].valid && buf[b].blockno == n
  }

  /** A block no buffer holds is on the disk as it was last left. */
  ghost predicate DiskOk(buf: seq<Buf>, image: seq<byte>, latest: seq<Block>) {
    forall n: nat :: n < |latest| && !Holds(buf, n) ==> DiskBlock(image, n) == Latest(latest, n)
  }

  /** No block of a real device has two buffers. */
  ghost predicate NoTwo(buf: seq<Buf>) {
    forall b, c :: 0 <= b < |buf| && 0 <= c < |buf| && buf[b].dev != 0 && Caches(buf[c], buf[b].dev, buf[b].blockno) ==>
        b == c
  }

  /** Each buffer is in the ring, the later released ones nearer to its front. */
  ghost predicate Stamped(order: seq<nat>, stamp: seq<nat>, clock: nat) {
    && |order| == |stamp| == NBUF
    && (forall b: nat :: b < NBUF ==> b in order)
    && (forall i :: 0 <= i < NBUF ==> order[i] < NBUF)
    && (forall i, j :: 0 <= i < j < NBUF ==> stamp[order[i]] > stamp[order[j]])
    && (forall b :: 0 <= b < NBUF ==> stamp[b] < clock)
  }

  lemma DiskBlockStore(image: seq<byte>, n: nat, data: Block)
    requires (n + 1) * BSIZE <= |image|
    ensures forall k: nat :: DiskBlock(Store(image, n, data), k) == if k == n then data else DiskBlock(image, k)
  {
    forall k: nat ensures DiskBlock(Store(image, n, data), k) == if k == n then data else DiskBlock(image, k) {
      if (k + 1) * BSIZE <= |image| {
        StoreGet(image, n, data, k);
      }
    }
  }

  class Cache {
    const disksize: nat
    var memdisk: seq<byte>
    var buf: seq<Buf>
    var next: seq<nat>
    var prev: seq<nat>
    ghost var order: seq<nat>
    ghost var stamp: seq<nat> // when each buffer was last released by everyone
    ghost var clock: nat
    ghost var latest: seq<Block> // what was last left in each block

    ghost predicate Valid()
      reads this
    {
      && |buf| == NBUF && |memdisk| == disksize * BSIZE && |latest| == disksize
      && Linked(next, prev, order, NBUF) && Stamped(order, stamp, clock)
      && Coherent(buf, memdisk, latest)
    }

    /** binit, over the image that is linked into the kernel. */
    constructor (image: seq<byte>, blocks: nat)
      requires |image| == blocks * BSIZE
      ensures Valid() && memdisk == image && disksize == blocks
      ensures forall n: nat :: n < blocks ==> latest[n] == DiskBlock(image, n)
    {
      disksize := blocks;
      memdisk := image;
      buf := seq(NBUF, _ => Buf(0, 0, false, false, 0, false, ZeroBlock()));
      next := seq(NBUF + 1, _ => NBUF);
      prev := seq(NBUF + 1, _ => NBUF);
      order := [];
      stamp := seq(NBUF, b => if b < 0 then 0 else b);
      clock := NBUF;
      latest := seq(blocks, n requires 0 <= n < blocks => DiskBlock(image, n));
      new;
      var b := 0;
      while b < NBUF
        invariant 0 <= b <= NBUF && |order| == b && forall i :: 0 <= i < b ==> order[i] == b - 1 - i
        invariant Linked(next, prev, order, NBUF)
        modifies this`next, this`prev, this`order
      {
        Pushed(next, prev, order, NBUF, b);
        next := next[b := next[NBUF]];
        prev := prev[b := NBUF];
        prev := prev[next[NBUF] := b];
        next := next[NBUF := b];
        order := [b] + order;
        b := b + 1;
      }
      forall c: nat | c < NBUF ensures c in order {
        assert order[NBUF - 1 - c] == c;
      }
    }

    method Bget(dev: nat, blockno: nat) returns (r: Option<nat>)
      requires Valid()
      modifies this`buf
      ensures Valid()
      ensures r.Some? ==> r.value < NBUF && Caches(buf[r.value], dev, blockno) && buf[r.value].refcnt > 0
      ensures (exists c :: 0 <= c < NBUF && Caches(old(buf)[c], dev, blockno)) ==>
                r.Some? && buf == old(buf)[r.value := old(buf)[r.value].(refcnt := old(buf)[r.value].refcnt + 1)]
      ensures !(exists c :: 0 <= c < NBUF && Caches(old(buf)[c], dev, blockno)) ==>
                if r.Some? then Recycled(old(buf), buf, stamp, r.value, dev, blockno)
                else buf == old(buf) && forall c :: 0 <= c < NBUF ==> !Unused(buf[c])
    {
      hide Linked, Stamped, BufOk, DiskOk, NoTwo;
      StampedShape(order, stamp, clock);
      RingStep(next, prev, order, NBUF, -1);
      var b := next[NBUF];
      ghost var i := 0;
      while b != NBUF
        invariant unchanged(this)
        invariant 0 <= i <= |order| == NBUF && b == At(order, i, NBUF) && (i < NBUF ==> b < NBUF)
        invariant forall j :: 0 <= j < i ==> order[j] < NBUF && !Caches(buf[order[j]], dev, blockno)
        decreases NBUF - i
      {
        RingStep(next, prev, order, NBUF, i);
        if buf[b].dev == dev && buf[b].blockno == blockno {
          MorePins(buf, b, memdisk, latest);
          buf := buf[b := buf[b].(refcnt := buf[b].refcnt + 1)];
          return Some(b);
        }
        b := next[b];
        i := i + 1;
      }
      forall c | 0 <= c < NBUF ensures !Caches(buf[c], dev, blockno) {
        var j := Find(order, stamp, clock, c);
      }
      RingStep(next, prev, order, NBUF, NBUF - 1);
      b := prev[NBUF];
      i := NBUF - 1;
      while b != NBUF
        invariant unchanged(this)
        invariant -1 <= i < NBUF && b == At(order, i, NBUF) && (i >= 0 ==> b < NBUF)
        invariant forall j :: i < j < NBUF ==> order[j] < NBUF && !Unused(buf[order[j]])
        decreases i
      {
        RingStep(next, prev, order, NBUF, i - 1);
        if buf[b].refcnt == 0 && !buf[b].dirty {
          Reuse(buf, b, memdisk, latest, dev, blockno);
          LeastRecent(buf, order, stamp, clock, i);
          buf := buf[b := buf[b].(dev := dev, blockno := blockno, valid := false, dirty := false, refcnt := 1)];
          return Some(b);
        }
        b := prev[b];
        i := i - 1;
      }
      forall c | 0 <= c < NBUF ensures !Unused(buf[c]) {
        var j := Find(order, stamp, clock, c);
      }
      return None;
    }

    /** The end of bget and the rest of bread, once the buffer's lock is free: it comes with the block's last data. */
    method LockRead(b: nat)
      requires Valid() && b < NBUF && buf[b].refcnt > 0 && !buf[b].locked
      requires buf[b].dev == DISK && buf[b].blockno < disksize
      modifies this`buf, this`memdisk
      ensures Valid() && memdisk == old(memdisk)
      ensures buf == old(buf)[b := old(buf)[b].(locked := true, valid := true, data := latest[old(buf)[b].blockno])]
    {
      hide Linked, Stamped, BufOk, DiskOk, NoTwo, BlockAt;
      LockedOk(buf, b, memdisk, latest);
      buf := buf[b := buf[b].(locked := true)];
      if !buf[b].valid {
        ReadOk(buf, b, memdisk, latest);
        Iderw(b);
      }
    }

    /** The disk transfer: a dirty buffer is written, an invalid one is read. */
    method Iderw(b: nat)
      requires b < |buf| && buf[b].locked && (buf[b].dirty || !buf[b].valid)
      requires buf[b].dev == DISK && buf[b].blockno < disksize && |memdisk| == disksize * BSIZE
      modifies this`buf, this`memdisk
      ensures |memdisk| == disksize * BSIZE
      ensures old(buf)[b].dirty ==> buf == old(buf)[b := old(buf)[b].(dirty := false, valid := true)]
      ensures old(buf)[b].dirty ==> memdisk == Store(old(memdisk), old(buf)[b].blockno, old(buf)[b].data)
      ensures !old(buf)[b].dirty ==> memdisk == old(memdisk)
      ensures !old(buf)[b].dirty ==>
                buf == old(buf)[b := old(buf)[b].(valid := true, data := BlockAt(memdisk, old(buf)[b].blockno))]
    {
      if buf[b].dirty {
        buf := buf[b := buf[b].(dirty := false)];
        memdisk := Store(memdisk, buf[b].blockno, buf[b].data);
      } else {
        buf := buf[b := buf[b].(data := BlockAt(memdisk, buf[b].blockno))];
      }
      buf := buf[b := buf[b].(valid := true)];
    }

    /** The holder changes the data. */
    method Modify(b: nat, data: Block)
      requires Valid() && b < NBUF && buf[b].locked && buf[b].valid
      modifies this`buf
      ensures Valid() && buf == old(buf)[b := old(buf)[b].(data := data)]
    {
      hide Linked, Stamped, DiskOk, NoTwo;
      Update(buf, b, memdisk, latest, buf[b].(data := data));
      buf := buf[b := buf[b].(data := data)];
    }

    /** log_write's part: from now on the buffer is not recycled. */
    method MarkDirty(b: nat)
      requires Valid() && b < NBUF && buf[b].locked && buf[b].valid
      modifies this`buf
      ensures Valid() && buf == old(buf)[b := old(buf)[b].(dirty := true)]
    {
      hide Linked, Stamped, DiskOk, NoTwo;
      Update(buf, b, memdisk, latest, buf[b].(dirty := true));
      buf := buf[b := buf[b].(dirty := true)];
    }

    /** The block is on the disk when this returns. */
    method Bwrite(b: nat)
      requires Valid() && b < NBUF && buf[b].locked && buf[b].valid
      modifies this`buf, this`memdisk
      ensures Valid() && buf == old(buf)[b := old(buf)[b].(dirty := false)]
      ensures forall n: nat ::
                DiskBlock(memdisk, n) == if n == buf[b].blockno then buf[b].data else DiskBlock(old(memdisk), n)
    {
      hide Linked, Stamped, BufOk, DiskOk, NoTwo, BlockAt, Store;
      WriteOk(buf, b, memdisk, latest);
      DiskBlockStore(memdisk, buf[b].blockno, buf[b].data);
      buf := buf[b := buf[b].(dirty := true)];
      Iderw(b);
      assert buf == old(buf)[b := old(buf)[b].(dirty := false)];
    }

    /** The first half of brelse. The holder logged or wrote what it changed; others now see it. */
    method Unlock(b: nat)
      requires Valid() && b < NBUF && buf[b].locked && buf[b].valid
      requires buf[b].dirty || DiskBlock(memdisk, buf[b].blockno) == buf[b].data
      modifies this`buf, this`latest
      ensures Valid() && buf == old(buf)[b := old(buf)[b].(locked := false)]
      ensures buf[b].blockno < |old(latest)| && latest == old(latest)[buf[b].blockno := buf[b].data]
    {
      hide Linked, Stamped, DiskOk, NoTwo;
      UnlockOk(buf, b, memdisk, latest);
      buf := buf[b := buf[b].(locked := false)];
      latest := latest[buf[b].blockno := buf[b].data];
    }

    /** Unlinks b and puts it right after the head. */
    method MoveToFront(b: nat, ghost k: nat)
      requires Linked(next, prev, order, NBUF) && k < |order| && order[k] == b
      modifies this`next, this`prev, this`order
      ensures order == [b] + Without(old(order), k) && Linked(next, prev, order, NBUF)
    {
      Unlinked(next, prev, order, NBUF, k);
      Distinct(next, prev, order, NBUF);
      WithoutShape(order, k);
      Pushed(UnlinkNext(next, prev, b), UnlinkPrev(next, prev, b), Without(order, k), NBUF, b);
      hide Linked;
      prev := prev[next[b] := prev[b]];
      next := next[prev[b] := next[b]];
      next := next[b := next[NBUF]];
      prev := prev[b := NBUF];
      prev := prev[next[NBUF] := b];
      next := next[NBUF := b];
      order := [b] + Without(order, k);
    }

    /** The second half of brelse: the last one out moves the buffer to the front of the ring. */
    method Unpin(b: nat)
      requires Valid() && b < NBUF && buf[b].refcnt > 0 && (buf[b].refcnt > 1 || !buf[b].locked)
      modifies this`buf, this`next, this`prev, this`order, this`stamp, this`clock
      ensures Valid() && buf == old(buf)[b := old(buf)[b].(refcnt := old(buf)[b].refcnt - 1)]
      ensures buf[b].refcnt > 0 ==> order == old(order) && stamp == old(stamp)
      ensures buf[b].refcnt == 0 ==> |stamp| == |old(stamp)| && stamp[b] == old(clock)
                                     && forall c :: 0 <= c < NBUF && c != b ==> stamp[c] == old(stamp)[c] < stamp[b]
    {
      hide Linked, DiskOk, NoTwo;
      UnpinOk(buf, b, memdisk, latest);
      buf := buf[b := buf[b].(refcnt := buf[b].refcnt - 1)];
      if buf[b].refcnt == 0 {
        ghost var k := Find(order, stamp, clock, b);
        FrontStamped(order, stamp, clock, k);
        MoveToFront(b, k);
        stamp := stamp[b := clock];
        clock := clock + 1;
      }
    }
  }

  ghost predicate Coherent(buf: seq<Buf>, image: seq<byte>, latest: seq<Block>) {
    (forall b :: 0 <= b < |buf| ==> BufOk(buf[b], image, latest)) && DiskOk(buf, image, latest) && NoTwo(buf)
  }

  /** Buffer b was the least recently released of the unused ones, and now stands for the block, to be read. */
  ghost predicate Recycled(was: seq<Buf>, now: seq<Buf>, stamp: seq<nat>, b: nat, dev: nat, blockno: nat) {
    && |was| == |stamp| == NBUF && b < NBUF && Unused(was[b])
    && (forall c :: 0 <= c < NBUF && Unused(was[c]) ==> stamp[b] <= stamp[c])
    && now == was[b := Buf(dev, blockno, false, false, 1, was[b].locked, was[b].data)]
  }

  lemma StillHolds(buf: seq<Buf>, buf': seq<Buf>, b: nat, n: nat)
    requires Holds(buf, n) && b < |buf| == |buf'| && forall c :: 0 <= c < |buf| && c != b ==> buf'[c] == buf[c]
    requires buf[b].valid && buf[b].blockno == n ==> buf'[b].valid && buf'[b].blockno == n
    ensures Holds(buf', n)
  {
    var c :| 0 <= c < |buf| && buf[c].valid && buf[c].blockno == n;
    assert buf'[c].valid && buf'[c].blockno == n;
  }

  /** A buffer of the same block changes, and stays as good as it was. */
  lemma Update(buf: seq<Buf>, b: nat, image: seq<byte>, latest: seq<Block>, nb: Buf)
    requires Coherent(buf, image, latest) && b < |buf| && BufOk(nb, image, latest)
    requires nb.dev == buf[b].dev && nb.blockno == buf[b].blockno && (buf[b].valid ==> nb.valid)
    ensures Coherent(buf[b := nb], image, latest)
  {
    hide BufOk;
    var buf' := buf[b := nb];
    forall n: nat | n < |latest| && !Holds(buf', n) ensures DiskBlock(image, n) == Latest(latest, n) {
      if Holds(buf, n) {
        StillHolds(buf, buf', b, n);
      }
    }
  }

  lemma MorePins(buf: seq<Buf>, b: nat, image: seq<byte>, latest: seq<Block>)
    requires Coherent(buf, image, latest) && b < |buf|
    ensures Coherent(buf[b := buf[b].(refcnt := buf[b].refcnt + 1)], image, latest)
  {
    Update(buf, b, image, latest, buf[b].(refcnt := buf[b].refcnt + 1));
  }

  lemma LockedOk(buf: seq<Buf>, b: nat, image: seq<byte>, latest: seq<Block>)
    requires Coherent(buf, image, latest) && b < |buf| && buf[b].refcnt > 0 && !buf[b].locked
    requires buf[b].blockno < |latest|
    ensures Coherent(buf[b := buf[b].(locked := true)], image, latest)
    ensures buf[b].valid ==> buf[b].data == latest[buf[b].blockno]
    ensures !buf[b].valid ==> !buf[b].dirty
  {
    Update(buf, b, image, latest, buf[b].(locked := true));
  }

  lemma ReadOk(buf: seq<Buf>, b: nat, image: seq<byte>, latest: seq<Block>)
    requires Coherent(buf, image, latest) && b < |buf| && buf[b].locked && !buf[b].valid && buf[b].dev == DISK
    requires buf[b].blockno < |latest| && |image| == |latest| * BSIZE
    ensures (buf[b].blockno + 1) * BSIZE <= |image|
    ensures BlockAt(image, buf[b].blockno) == latest[buf[b].blockno]
    ensures Coherent(buf[b := buf[b].(valid := true, data := latest[buf[b].blockno])], image, latest)
  {
    var n := buf[b].blockno;
    assert !Holds(buf, n);
    assert DiskBlock(image, n) == Latest(latest, n);
    Update(buf, b, image, latest, buf[b].(valid := true, data := latest[n]));
  }

  lemma Reuse(buf: seq<Buf>, b: nat, image: seq<byte>, latest: seq<Block>, dev: nat, blockno: nat)
    requires Coherent(buf, image, latest) && b < |buf| && Unused(buf[b])
    requires forall c :: 0 <= c < |buf| ==> !Caches(buf[c], dev, blockno)
    ensures Coherent(buf[b := Buf(dev, blockno, false, false, 1, buf[b].locked, buf[b].data)], image, latest)
    ensures !buf[b].locked
  {
    var buf' := buf[b := Buf(dev, blockno, false, false, 1, buf[b].locked, buf[b].data)];
    assert BufOk(buf[b], image, latest);
    forall n: nat | n < |latest| && !Holds(buf', n) ensures DiskBlock(image, n) == Latest(latest, n) {
      if Holds(buf, n) && !(buf[b].valid && buf[b].blockno == n) {
        StillHolds(buf, buf', b, n);
      }
    }
  }

  lemma WriteOk(buf: seq<Buf>, b: nat, image: seq<byte>, latest: seq<Block>)
    requires Coherent(buf, image, latest) && b < |buf| && buf[b].locked && buf[b].valid && |image| == |latest| * BSIZE
    ensures buf[b].dev == DISK && buf[b].blockno < |latest| && (buf[b].blockno + 1) * BSIZE <= |image|
    ensures Coherent(buf[b := buf[b].(dirty := false)], Store(image, buf[b].blockno, buf[b].data), latest)
  {
    assert BufOk(buf[b], image, latest);
    var n := buf[b].blockno;
    var buf', image' := buf[b := buf[b].(dirty := false)], Store(image, n, buf[b].data);
    DiskBlockStore(image, n, buf[b].data);
    hide Store, DiskBlock;
    forall c | 0 <= c < |buf'| ensures BufOk(buf'[c], image', latest) {
      assert BufOk(buf[c], image, latest);
    }
    forall k: nat | k < |latest| && !Holds(buf', k) ensures DiskBlock(image', k) == Latest(latest, k) {
      assert buf'[b].valid && buf'[b].blockno == n;
      if Holds(buf, k) {
        StillHolds(buf, buf', b, k);
      }
    }
  }

  lemma UnlockOk(buf: seq<Buf>, b: nat, image: seq<byte>, latest: seq<Block>)
    requires Coherent(buf, image, latest) && b < |buf| && buf[b].locked && buf[b].valid
    requires buf[b].dirty || DiskBlock(image, buf[b].blockno) == buf[b].data
    ensures buf[b].blockno < |latest|
    ensures Coherent(buf[b := buf[b].(locked := false)], image, latest[buf[b].blockno := buf[b].data])
  {
    assert BufOk(buf[b], image, latest);
    var buf', latest' := buf[b := buf[b].(locked := false)], latest[buf[b].blockno := buf[b].data];
    hide DiskBlock;
    forall c | 0 <= c < |buf'| ensures BufOk(buf'[c], image, latest') {
      assert BufOk(buf[c], image, latest);
      if c != b && buf[c].valid {
        assert !Caches(buf[c], buf[b].dev, buf[b].blockno);
      }
    }
    forall k: nat | k < |latest'| && !Holds(buf', k) ensures DiskBlock(image, k) == Latest(latest', k) {
      assert buf'[b].valid;
      if Holds(buf, k) {
        StillHolds(buf, buf', b, k);
      }
    }
  }

  lemma UnpinOk(buf: seq<Buf>, b: nat, image: seq<byte>, latest: seq<Block>)
    requires Coherent(buf, image, latest) && b < |buf| && buf[b].refcnt > 0 && (buf[b].refcnt > 1 || !buf[b].locked)
    ensures Coherent(buf[b := buf[b].(refcnt := buf[b].refcnt - 1)], image, latest)
  {
    assert BufOk(buf[b], image, latest);
    Update(buf, b, image, latest, buf[b].(refcnt := buf[b].refcnt - 1));
  }

  lemma Distinct(next: seq<nat>, prev: seq<nat>, order: seq<nat>, head: nat)
    requires Linked(next, prev, order, head)
    ensures forall i, j :: 0 <= i < j < |order| ==> order[i] != order[j]
  {}

  lemma FrontStamped(order: seq<nat>, stamp: seq<nat>, clock: nat, k: nat)
    requires Stamped(order, stamp, clock) && k < NBUF
    ensures Stamped([order[k]] + Without(order, k), stamp[order[k] := clock], clock + 1)
  {
    var b, r := order[k], [order[k]] + Without(order, k);
    assert forall i, j :: 0 <= i < j < |order| ==> order[i] != order[j];
    WithoutShape(order, k);
    forall c: nat | c < NBUF ensures c in r {
      if c != b {
        assert c in Without(order, k);
      }
    }
  }

  lemma RingStep(next: seq<nat>, prev: seq<nat>, order: seq<nat>, head: nat, i: int)
    requires Linked(next, prev, order, head) && -1 <= i < |order|
    ensures var a, b := At(order, i, head), At(order, i + 1, head);
            a <= head && b <= head && next[a] == b && prev[b] == a
    ensures |next| == |prev| == head + 1
    ensures 0 <= i + 1 < |order| ==> At(order, i + 1, head) < head
    ensures 0 <= i ==> At(order, i, head) < head
  {
    assert LinkAt(next, prev, order, head, i);
  }

  lemma StampedShape(order: seq<nat>, stamp: seq<nat>, clock: nat)
    requires Stamped(order, stamp, clock)
    ensures |order| == |stamp| == NBUF && forall i :: 0 <= i < NBUF ==> order[i] < NBUF
  {}

  lemma Find(order: seq<nat>, stamp: seq<nat>, clock: nat, b: int) returns (i: nat)
    requires Stamped(order, stamp, clock) && 0 <= b < NBUF
    ensures i < NBUF && order[i] == b
  {
    var n: nat := b;
    assert n in order;
    i :| i < NBUF && order[i] == n;
  }

  lemma LeastRecent(buf: seq<Buf>, order: seq<nat>, stamp: seq<nat>, clock: nat, i: int)
    requires Stamped(order, stamp, clock) && |buf| == NBUF && 0 <= i < NBUF
    requires forall j :: i < j < NBUF ==> order[j] < NBUF && !Unused(buf[order[j]])
    ensures order[i] < NBUF && forall c :: 0 <= c < NBUF && Unused(buf[c]) ==> stamp[order[i]] <= stamp[c]
  {
    forall c | 0 <= c < NBUF && Unused(buf[c]) ensures stamp[order[i]] <= stamp[c] {
      var j := Find(order, stamp, clock, c);
      assert j <= i;
    }
  }
}
