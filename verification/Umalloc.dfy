/** umalloc.c: the Kernighan and Ritchie allocator. Addresses count headers: an address is a multiple of
    sizeof(Header), and p + 1 is the next one. */
module UmallocSpec {
  import opened Sbrk

  const UNIT: nat := 8 // sizeof(Header)

  datatype Header = Header(ptr: nat, size: nat)

  /** The allocator's memory, with what is in it: the ring of free blocks in address order from base, the blocks
      handed out, and for each unit obtained from sbrk the block it belongs to. */
  datatype Heap = Heap(base: nat, mem: map<nat, Header>, ring: seq<nat>, live: map<nat, nat>, own: map<nat, nat>) {
    predicate IsBlock(a: nat) {
      a in live || (a in ring && a != base)
    }

    /** The ring entry after the i-th: the next one up, or base. */
    function Next(i: nat): nat {
      if i + 1 < |ring| then ring[i + 1] else base
    }
  }

  ghost predicate Sorted(ring: seq<nat>) {
    forall i, j :: 0 <= i < j < |ring| ==> ring[i] < ring[j]
  }

  ghost predicate Linked(h: Heap, i: nat) {
    i < |h.ring| && h.ring[i] in h.mem && h.mem[h.ring[i]].ptr == h.Next(i)
  }

  /** A block of the ring is not empty, and does not touch the next free block. */
  ghost predicate Spaced(h: Heap, i: nat) {
    && i < |h.ring| && h.ring[i] in h.mem && (h.mem[h.ring[i]].size > 0 <==> i > 0)
    && (i + 1 < |h.ring| ==> h.ring[i] + h.mem[h.ring[i]].size < h.ring[i + 1])
  }

  /** One ring through base, in address order with a single wrap; no two free blocks touch. The link of entry
      `except` is left open while free relinks it. */
  ghost predicate RingOk(h: Heap, except: int) {
    && |h.ring| >= 1 && h.ring[0] == h.base > 0
    && Sorted(h.ring)
    && (forall i :: 0 <= i < |h.ring| && i != except ==> Linked(h, i))
    && (forall i :: 0 <= i < |h.ring| ==> Spaced(h, i))
  }

  /** Every unit of the block [a, a + n) is marked a. */
  ghost predicate Covers(own: map<nat, nat>, a: nat, n: nat) {
    forall u :: a <= u < a + n ==> u in own && own[u] == a
  }

  /** Live and free blocks partition the units obtained from sbrk. */
  ghost predicate BlocksOk(h: Heap) {
    && (forall a :: a in h.live ==> a in h.mem && h.mem[a].size == h.live[a] > 0 && a !in h.ring)
    && (forall u :: u in h.own ==>
          h.IsBlock(h.own[u]) && h.own[u] in h.mem && h.base < h.own[u] <= u < h.own[u] + h.mem[h.own[u]].size)
    && (forall a :: h.IsBlock(a) && a in h.mem ==> Covers(h.own, a, h.mem[a].size))
  }

  ghost predicate Inv(h: Heap) {
    RingOk(h, -1) && BlocksOk(h)
  }

  // ---- free ----

  /** Entry j is the last one below bp. */
  predicate Before(ring: seq<nat>, j: nat, bp: nat) {
    j < |ring| && ring[j] < bp && (j + 1 < |ring| ==> bp < ring[j + 1])
  }

  function Remark(own: map<nat, nat>, from: nat, to: nat): map<nat, nat> {
    map u | u in own :: if own[u] == from then to else own[u]
  }

  function Without(ring: seq<nat>, k: nat): seq<nat>
    requires k < |ring|
  {
    ring[..k] + ring[k + 1..]
  }

  function With(ring: seq<nat>, k: nat, a: nat): seq<nat>
    requires k <= |ring|
  {
    ring[..k] + [a] + ring[k..]
  }

  lemma WithoutShape(ring: seq<nat>, k: nat)
    requires Sorted(ring) && k < |ring|
    ensures var r := Without(ring, k);
            && |r| == |ring| - 1 && Sorted(r)
            && (forall i {:trigger r[i]} :: 0 <= i < |r| ==> r[i] == if i < k then ring[i] else ring[i + 1])
            && (forall a :: a in r <==> a in ring && a != ring[k])
  {}

  lemma WithShape(ring: seq<nat>, j: nat, a: nat)
    requires Sorted(ring) && Before(ring, j, a)
    ensures var r := With(ring, j + 1, a);
            && |r| == |ring| + 1 && Sorted(r)
            && (forall i {:trigger r[i]} ::
                  0 <= i < |r| ==> r[i] == if i <= j then ring[i] else if i == j + 1 then a else ring[i - 1])
            && (forall b :: b in r <==> b in ring || b == a)
  {}

  /** First half of free: bp absorbs the block above it, or points to it. */
  function JoinUpper(h: Heap, j: nat, bp: nat): Heap
    requires bp in h.mem && j < |h.ring|
  {
    var next := h.Next(j);
    if bp + h.mem[bp].size == next && next in h.mem && j + 1 < |h.ring| then
      h.(mem := h.mem[bp := Header(h.mem[next].ptr, h.mem[bp].size + h.mem[next].size)],
         ring := Without(h.ring, j + 1),
         live := h.live[bp := h.mem[bp].size + h.mem[next].size],
         own := Remark(h.own, next, bp))
    else h.(mem := h.mem[bp := Header(next, h.mem[bp].size)])
  }

  /** Second half: the block below absorbs bp, or points to it. */
  function JoinLower(h: Heap, j: nat, bp: nat): Heap
    requires j < |h.ring| && bp in h.mem && h.ring[j] in h.mem
  {
    var p := h.ring[j];
    if p + h.mem[p].size == bp then
      h.(mem := h.mem[p := Header(h.mem[bp].ptr, h.mem[p].size + h.mem[bp].size)],
         live := h.live - {bp}, own := Remark(h.own, bp, p))
    else
      h.(mem := h.mem[p := Header(bp, h.mem[p].size)],
         ring := With(h.ring, j + 1, bp), live := h.live - {bp})
  }

  /** Between the halves: bp is still live, its header already points where the ring goes on. */
  ghost predicate Half(h: Heap, j: nat, bp: nat) {
    && RingOk(h, j) && BlocksOk(h) && bp in h.live && Gap(h, j, bp)
  }

  ghost predicate Gap(h: Heap, j: nat, bp: nat) {
    && Before(h.ring, j, bp) && h.ring[j] in h.mem && bp in h.mem && bp !in h.ring && h.mem[bp].size > 0
    && h.mem[bp].ptr == h.Next(j)
    && (j + 1 < |h.ring| ==> bp + h.mem[bp].size < h.ring[j + 1])
  }

  /** Two blocks never overlap: the lower one ends before the higher one starts. */
  lemma Apart(h: Heap, a: nat, b: nat)
    requires BlocksOk(h) && h.IsBlock(a) && h.IsBlock(b) && a < b && a in h.mem && b in h.mem && h.mem[b].size > 0
    ensures a + h.mem[a].size <= b
  {
    assert Covers(h.own, a, h.mem[a].size) && Covers(h.own, b, h.mem[b].size);
    assert b in h.own && h.own[b] == b;
  }

  lemma AboveBase(h: Heap, j: nat)
    requires RingOk(h, -1) && 0 < j < |h.ring|
    ensures h.base < h.ring[j] && h.IsBlock(h.ring[j]) && h.ring[j] in h.mem && h.mem[h.ring[j]].size > 0
  {
    assert Spaced(h, j);
  }

  /** The n units from a lie in one free block. */
  ghost predicate Holds(h: Heap, a: nat, n: nat) {
    exists b :: b in h.ring && b in h.mem && b <= a && a + n <= b + h.mem[b].size
  }

  lemma UpperKeeps(h: Heap, j: nat, bp: nat)
    requires Inv(h) && bp in h.live && Before(h.ring, j, bp)
    ensures Half(JoinUpper(h, j, bp), j, bp)
    ensures JoinUpper(h, j, bp).live.Keys == h.live.Keys && JoinUpper(h, j, bp).own.Keys == h.own.Keys
    ensures forall a :: a in h.live && a != bp ==> JoinUpper(h, j, bp).live[a] == h.live[a]
    ensures JoinUpper(h, j, bp).live[bp] >= h.live[bp]
  {
    hide Covers, Sorted, Without;
    assert Spaced(h, j);
    if j + 1 < |h.ring| {
      AboveBase(h, j + 1);
      Apart(h, bp, h.ring[j + 1]);
    }
    if j + 1 < |h.ring| && bp + h.mem[bp].size == h.ring[j + 1] {
      UpperRing(h, j, bp);
      UpperBlocks(h, j, bp);
    } else {
      UpperLinked(h, j, bp);
    }
  }

  lemma UpperLinked(h: Heap, j: nat, bp: nat)
    requires Inv(h) && bp in h.live && Before(h.ring, j, bp)
    requires j + 1 < |h.ring| ==> bp + h.mem[bp].size < h.ring[j + 1]
    ensures Half(JoinUpper(h, j, bp), j, bp)
  {
    hide Covers, Sorted;
    var g := JoinUpper(h, j, bp);
    assert Spaced(h, j) && bp !in h.ring;
    forall i | 0 <= i < |g.ring| ensures Spaced(g, i) && (i != j ==> Linked(g, i)) {
      assert Spaced(h, i) && Linked(h, i);
      assert h.ring[i] != bp;
    }
  }

  lemma UpperRing(h: Heap, j: nat, bp: nat)
    requires RingOk(h, -1) && bp in h.mem && bp !in h.ring && Before(h.ring, j, bp)
    requires j + 1 < |h.ring| && bp + h.mem[bp].size == h.ring[j + 1]
    ensures RingOk(JoinUpper(h, j, bp), j) && Gap(JoinUpper(h, j, bp), j, bp)
  {
    hide Sorted, Without;
    var g := JoinUpper(h, j, bp);
    assert Linked(h, j + 1) && Spaced(h, j + 1) && Spaced(h, j);
    WithoutShape(h.ring, j + 1);
    forall i | 0 <= i < |g.ring| ensures Spaced(g, i) && (i != j ==> Linked(g, i)) {
      var k := if i <= j then i else i + 1;
      assert Spaced(h, k) && Linked(h, k);
      assert h.ring[k] == g.ring[i] != bp;
      if i + 1 < |g.ring| {
        var n := i + 1;
        assert g.ring[n] == if n < j + 1 then h.ring[n] else h.ring[n + 1];
      }
    }
  }

  lemma UpperBlocks(h: Heap, j: nat, bp: nat)
    requires RingOk(h, -1) && BlocksOk(h) && bp in h.live && Before(h.ring, j, bp)
    requires j + 1 < |h.ring| && bp + h.mem[bp].size == h.ring[j + 1]
    ensures BlocksOk(JoinUpper(h, j, bp))
  {
    WithoutShape(h.ring, j + 1);
    AboveBase(h, j + 1);
    Merged(h, JoinUpper(h, j, bp), bp, h.ring[j + 1]);
  }

  /** The block q just above p was absorbed by p. */
  lemma Merged(h: Heap, g: Heap, p: nat, q: nat)
    requires BlocksOk(h) && p in h.mem && q in h.mem && q == p + h.mem[p].size && h.IsBlock(p) && h.IsBlock(q)
    requires h.mem[q].size > 0 && h.base < p < q
    requires g.base == h.base && g.own == Remark(h.own, q, p) && g.mem.Keys == h.mem.Keys
    requires g.mem[p].size == h.mem[p].size + h.mem[q].size
    requires forall a :: a in h.mem && a != p ==> g.mem[a] == h.mem[a]
    requires forall a :: g.IsBlock(a) <==> h.IsBlock(a) && a != q
    requires forall a :: a in g.live ==>
              a in h.live && a !in g.ring && g.live[a] == if a == p then g.mem[p].size else h.live[a]
    ensures BlocksOk(g)
  {
    hide Covers;
    forall a | g.IsBlock(a) && a in g.mem ensures Covers(g.own, a, g.mem[a].size) {
      MergedCover(h.own, p, h.mem[p].size, h.mem[q].size, a, h.mem[a].size);
    }
    forall u | u in g.own
      ensures g.IsBlock(g.own[u]) && g.own[u] in g.mem && g.base < g.own[u] <= u < g.own[u] + g.mem[g.own[u]].size
    {
      assert h.base < h.own[u] <= u < h.own[u] + h.mem[h.own[u]].size;
    }
  }

  lemma MergedCover(own: map<nat, nat>, p: nat, np: nat, nq: nat, a: nat, na: nat)
    requires Covers(own, p, np) && Covers(own, p + np, nq) && Covers(own, a, na) && np > 0
    requires a != p + np && (a == p ==> na == np)
    ensures Covers(Remark(own, p + np, p), a, if a == p then np + nq else na)
  {}

  lemma LowerKeeps(h: Heap, j: nat, bp: nat)
    requires Half(h, j, bp)
    ensures Inv(JoinLower(h, j, bp))
    ensures JoinLower(h, j, bp).live == h.live - {bp} && JoinLower(h, j, bp).own.Keys == h.own.Keys
    ensures h.ring[j] in JoinLower(h, j, bp).ring && Holds(JoinLower(h, j, bp), bp, h.live[bp])
  {
    hide Covers, Sorted, With;
    var g := JoinLower(h, j, bp);
    assert exists b :: b in g.ring && b in g.mem && b <= bp && bp + h.live[bp] <= b + g.mem[b].size by {
      WithShape(h.ring, j, bp);
      assert if h.ring[j] + h.mem[h.ring[j]].size == bp then h.ring[j] in g.ring else bp in g.ring;
    }
    if h.ring[j] + h.mem[h.ring[j]].size == bp {
      LowerJoined(h, j, bp);
    } else {
      LowerRing(h, j, bp);
      LowerBlocks(h, j, bp);
    }
  }

  lemma LowerJoined(h: Heap, j: nat, bp: nat)
    requires Half(h, j, bp) && h.ring[j] + h.mem[h.ring[j]].size == bp
    ensures Inv(JoinLower(h, j, bp)) && h.ring[j] in JoinLower(h, j, bp).ring
  {
    LowerJoinedRing(h, j, bp);
    RingIndex(h.ring, j);
    assert Spaced(h, j);
    hide Covers, Sorted, With;
    Merged(h, JoinLower(h, j, bp), h.ring[j], bp);
  }

  lemma LowerJoinedRing(h: Heap, j: nat, bp: nat)
    requires RingOk(h, j) && Gap(h, j, bp) && h.ring[j] + h.mem[h.ring[j]].size == bp
    ensures RingOk(JoinLower(h, j, bp), -1)
  {
    var g, p := JoinLower(h, j, bp), h.ring[j];
    RingIndex(h.ring, j);
    hide Sorted, With;
    assert Spaced(h, j);
    forall i | 0 <= i < |g.ring| ensures Spaced(g, i) && Linked(g, i) {
      assert Spaced(h, i) && (i != j ==> Linked(h, i));
    }
  }

  lemma RingIndex(ring: seq<nat>, j: nat)
    requires Sorted(ring) && j < |ring|
    ensures forall i :: 0 <= i < |ring| && i != j ==> ring[i] != ring[j]
    ensures j > 0 ==> ring[j] > ring[0]
  {}

  lemma LowerRing(h: Heap, j: nat, bp: nat)
    requires Half(h, j, bp) && h.ring[j] + h.mem[h.ring[j]].size != bp
    ensures RingOk(JoinLower(h, j, bp), -1)
  {
    var p := h.ring[j];
    assert Spaced(h, j);
    RingIndex(h.ring, j);
    if j > 0 {
      Apart(h, p, bp);
    }
    LowerLinked(h, j, bp);
  }

  lemma LowerLinked(h: Heap, j: nat, bp: nat)
    requires RingOk(h, j) && Gap(h, j, bp) && h.ring[j] + h.mem[h.ring[j]].size < bp
    ensures RingOk(JoinLower(h, j, bp), -1)
  {
    var g := JoinLower(h, j, bp);
    RingIndex(h.ring, j);
    hide Sorted, With, Linked, Spaced;
    WithShape(h.ring, j, bp);
    forall i: nat | i < |g.ring| ensures Spaced(g, i) && Linked(g, i) {
      LowerLinkedAt(h, j, bp, i);
    }
  }

  lemma LowerLinkedAt(h: Heap, j: nat, bp: nat, i: nat)
    requires Gap(h, j, bp) && h.ring[j] + h.mem[h.ring[j]].size < bp && i < |h.ring| + 1 && Sorted(h.ring)
    requires Spaced(h, j) && (i < j ==> Linked(h, i) && Spaced(h, i))
    requires i > j + 1 ==> Linked(h, i - 1) && Spaced(h, i - 1)
    requires forall k :: 0 <= k < |h.ring| && k != j ==> h.ring[k] != h.ring[j]
    ensures Spaced(JoinLower(h, j, bp), i) && Linked(JoinLower(h, j, bp), i)
  {
    hide Sorted, With;
    WithShape(h.ring, j, bp);
    var g, p := JoinLower(h, j, bp), h.ring[j];
    assert g.ring == With(h.ring, j + 1, bp);
    assert g.ring[i] == if i <= j then h.ring[i] else if i == j + 1 then bp else h.ring[i - 1];
    if i + 1 < |g.ring| {
      var n := i + 1;
      assert g.ring[n] == if n <= j then h.ring[n] else if n == j + 1 then bp else h.ring[n - 1];
    }
    if i <= j {
      assert h.ring[i] in h.ring;
    }
  }

  lemma LowerBlocks(h: Heap, j: nat, bp: nat)
    requires Half(h, j, bp) && h.ring[j] + h.mem[h.ring[j]].size != bp
    ensures BlocksOk(JoinLower(h, j, bp)) && h.ring[j] in JoinLower(h, j, bp).ring
  {
    hide With, Covers;
    WithShape(h.ring, j, bp);
    var g := JoinLower(h, j, bp);
    assert bp != h.base by { RingIndex(h.ring, 0); }
    hide Sorted;
    forall a | g.IsBlock(a) && a in g.mem ensures Covers(g.own, a, g.mem[a].size) {
      assert Covers(h.own, a, h.mem[a].size);
    }
  }

  /** Some entry of the sorted ring is the last one below bp. */
  lemma SomewhereBefore(ring: seq<nat>, bp: nat) returns (j: nat)
    requires |ring| >= 1 && ring[0] < bp && bp !in ring
    ensures Before(ring, j, bp)
  {
    j := 0;
    while j + 1 < |ring| && ring[j + 1] < bp
      invariant j < |ring| && ring[j] < bp
    {
      j := j + 1;
    }
  }

  // ---- malloc ----

  /** nunits = (nbytes + sizeof(Header) - 1)/sizeof(Header) + 1, in 32 bits. */
  function Units(nbytes: nat): (n: nat)
    requires nbytes < W32
    ensures 1 <= n <= W32 / UNIT
  {
    (nbytes + UNIT - 1) % W32 / UNIT + 1
  }

  /** The block has room for its header and the bytes asked for, and less than a unit more. */
  predicate Room(nbytes: nat)
    requires nbytes < W32
  {
    nbytes <= (Units(nbytes) - 1) * UNIT < nbytes + UNIT
  }

  /** That is so exactly when the rounding up does not wrap. */
  lemma RoomIff(nbytes: nat)
    requires nbytes < W32
    ensures Room(nbytes) <==> nbytes <= W32 - UNIT
  {}

  function Chunk(nu: nat): nat {
    if nu < 4096 then 4096 else nu
  }

  /** The bytes malloc needs from sbrk when no free block will do. */
  function Bytes(nbytes: nat): (b: nat)
    requires nbytes < W32
    ensures 0 < b <= W32
  {
    Chunk(Units(nbytes)) * UNIT
  }

  /** What sbrk answers to nu * sizeof(Header), which is cut to 32 bits and taken for an int. */
  function Asked(s: Space, bytes: nat, enough: bool): Answer {
    SysSbrk(s, Int32(bytes % W32), enough)
  }

  /** A block with room for what was asked, in memory that sbrk has granted or else refused: malloc can keep that
      promise exactly below 2^31 - 15 bytes. */
  lemma PromiseIff(s: Space, nbytes: nat, enough: bool)
    requires nbytes < W32 && 0 < s.sz == s.mapped < KERNBASE
    ensures Room(nbytes) && Honest(s, Bytes(nbytes), Asked(s, Bytes(nbytes), enough)) <==> nbytes < KERNBASE - 15
    ensures Bytes(nbytes) < KERNBASE <==> nbytes < KERNBASE - 15 || nbytes > W32 - UNIT
  {
    HonestIff(s, Bytes(nbytes), enough);
    RoomIff(nbytes);
  }

  /** At 2^32 - 8 bytes the request is for nothing, and succeeds. */
  lemma AsksForNothing(s: Space, enough: bool)
    requires 0 < s.sz == s.mapped < KERNBASE
    ensures Room(W32 - UNIT) && Bytes(W32 - UNIT) == W32 && Asked(s, Bytes(W32 - UNIT), enough) == Answer(s.sz, s)
  {}

  /** A page less, and it takes a page away from the blocks at the top of the heap. */
  lemma AsksForLess(s: Space, enough: bool)
    requires 4096 < s.sz == s.mapped < KERNBASE
    ensures var nbytes := W32 - 4096 - UNIT;
            Room(nbytes) && Asked(s, Bytes(nbytes), enough) == Answer(s.sz, Space(s.sz - 4096, s.sz - 4096))
  {
    assert (s.sz - 4096) % W32 == s.sz - 4096;
  }

  /** sbrk's part: the units [a, a + n) are above base and new to the heap. */
  ghost predicate Fresh(h: Heap, a: nat, n: nat) {
    && a > h.base && n > 0
    && (forall u :: u in h.own ==> !(a <= u < a + n))
    && (forall b: nat :: h.IsBlock(b) ==> !(a <= b < a + n))
  }

  predicate Within(u: nat, a: nat, n: nat) {
    a <= u < a + n
  }

  function Region(a: nat, n: nat): set<nat> {
    set u: nat | u < a + n && Within(u, a, n)
  }

  /** The new units, as a block to be freed. */
  function Granted(h: Heap, a: nat, n: nat): Heap {
    h.(mem := h.mem[a := Header(0, n)], live := h.live[a := n], own := h.own + map u | u in Region(a, n) :: a)
  }

  lemma GrantedKeeps(h: Heap, a: nat, n: nat)
    requires Inv(h) && Fresh(h, a, n)
    ensures Inv(Granted(h, a, n))
    ensures Granted(h, a, n).own.Keys == h.own.Keys + Region(a, n)
  {
    GrantedRing(h, a, n);
    GrantedBlocks(h, a, n);
  }

  lemma RingIsBlock(h: Heap, i: nat)
    requires RingOk(h, -1) && i < |h.ring|
    ensures h.ring[i] == h.base || h.IsBlock(h.ring[i])
  {}

  lemma GrantedRing(h: Heap, a: nat, n: nat)
    requires RingOk(h, -1) && Fresh(h, a, n)
    ensures RingOk(Granted(h, a, n), -1) && a !in h.ring
  {
    hide Sorted;
    var g := Granted(h, a, n);
    forall i | 0 <= i < |g.ring| ensures Spaced(g, i) && Linked(g, i) && g.ring[i] != a {
      assert Spaced(h, i) && Linked(h, i);
      RingIsBlock(h, i);
    }
  }

  lemma GrantedBlocks(h: Heap, a: nat, n: nat)
    requires BlocksOk(h) && Fresh(h, a, n) && a !in h.ring
    ensures BlocksOk(Granted(h, a, n))
  {
    GrantedOwn(h, a, n);
    assert !h.IsBlock(a);
    FreshBlock(h, Granted(h, a, n), a, n);
  }

  lemma FreshBlock(h: Heap, g: Heap, a: nat, n: nat)
    requires BlocksOk(h) && !h.IsBlock(a) && a !in h.ring && a > h.base && n > 0
    requires g.ring == h.ring && g.live == h.live[a := n] && g.base == h.base
    requires g.mem.Keys == h.mem.Keys + {a} && g.mem[a].size == n
    requires forall b :: b in h.mem && b != a ==> g.mem[b] == h.mem[b]
    requires forall u :: u in h.own ==> u in g.own && g.own[u] == h.own[u]
    requires forall u :: u in g.own ==> u in h.own || (g.own[u] == a && a <= u < a + n)
    requires Covers(g.own, a, n)
    ensures BlocksOk(g)
  {
    hide Covers;
    forall b | g.IsBlock(b) && b in g.mem ensures Covers(g.own, b, g.mem[b].size) {
      if b != a {
        CoverGrows(h.own, g.own, b, h.mem[b].size);
      }
    }
    forall u | u in g.own
      ensures g.IsBlock(g.own[u]) && g.own[u] in g.mem && g.base < g.own[u] <= u < g.own[u] + g.mem[g.own[u]].size
    {
      if u in h.own {
        assert h.IsBlock(h.own[u]);
      }
    }
  }

  lemma CoverGrows(own: map<nat, nat>, more: map<nat, nat>, b: nat, n: nat)
    requires Covers(own, b, n) && forall u :: u in own ==> u in more && more[u] == own[u]
    ensures Covers(more, b, n)
  {}

  lemma GrantedOwn(h: Heap, a: nat, n: nat)
    ensures var g := Granted(h, a, n);
            forall u :: (u in g.own <==> u in h.own || a <= u < a + n)
              && (u in g.own ==> g.own[u] == if a <= u < a + n then a else h.own[u])
    ensures Covers(Granted(h, a, n).own, a, n)
  {}

  /** The whole entry k goes out: the one before it takes over its link. */
  function TakeAll(h: Heap, k: nat): Heap
    requires 0 < k < |h.ring| && h.ring[k] in h.mem && h.ring[k - 1] in h.mem
  {
    var p, q := h.ring[k], h.ring[k - 1];
    h.(mem := h.mem[q := Header(h.mem[p].ptr, h.mem[q].size)],
       ring := Without(h.ring, k), live := h.live[p := h.mem[p].size])
  }

  /** The last n units of entry k go out. */
  function TakeTail(h: Heap, k: nat, n: nat): Heap
    requires 0 < k < |h.ring| && h.ring[k] in h.mem && n <= h.mem[h.ring[k]].size
  {
    var p, left := h.ring[k], h.mem[h.ring[k]].size - n;
    var bp := p + left;
    var m := h.mem[p := Header(h.mem[p].ptr, left)];
    h.(mem := m[bp := Header(if bp in m then m[bp].ptr else 0, n)],
       live := h.live[bp := n], own := map u | u in h.own :: if bp <= u < bp + n then bp else h.own[u])
  }

  lemma TakeAllKeeps(h: Heap, k: nat)
    requires Inv(h) && 0 < k < |h.ring| && h.ring[k] in h.mem && h.ring[k - 1] in h.mem
    ensures Inv(TakeAll(h, k)) && h.ring[k] !in h.live && h.ring[k - 1] in TakeAll(h, k).ring
  {
    AboveBase(h, k);
    TakeAllRing(h, k);
    hide Sorted, Without;
    WithoutShape(h.ring, k);
    RingIndex(h.ring, k);
    var g := TakeAll(h, k);
    assert g.ring[k - 1] == h.ring[k - 1];
    TakeAllBlocks(h, g, k);
  }

  lemma TakeAllRing(h: Heap, k: nat)
    requires RingOk(h, -1) && 0 < k < |h.ring| && h.ring[k] in h.mem && h.ring[k - 1] in h.mem
    ensures RingOk(TakeAll(h, k), -1)
  {
    WithoutShape(h.ring, k);
    RingIndex(h.ring, k - 1);
    hide Sorted, Without, Linked, Spaced;
    var g := TakeAll(h, k);
    forall i: nat | i < |g.ring| ensures Spaced(g, i) && Linked(g, i) {
      TakeAllAt(h, k, i);
    }
  }

  lemma TakeAllAt(h: Heap, k: nat, i: nat)
    requires 0 < k < |h.ring| && h.ring[k] in h.mem && h.ring[k - 1] in h.mem && i + 1 < |h.ring| && Sorted(h.ring)
    requires Spaced(h, k - 1) && Spaced(h, k) && Linked(h, k)
    requires var m := if i < k then i else i + 1; Spaced(h, m) && Linked(h, m)
    requires forall m :: 0 <= m < |h.ring| && m != k - 1 ==> h.ring[m] != h.ring[k - 1]
    ensures Spaced(TakeAll(h, k), i) && Linked(TakeAll(h, k), i)
  {}

  lemma TakeAllBlocks(h: Heap, g: Heap, k: nat)
    requires BlocksOk(h) && 0 < k < |h.ring| && h.ring[k] in h.mem && h.ring[k - 1] in h.mem
    requires h.ring[k - 1] != h.ring[k] && h.ring[k] != h.base && h.mem[h.ring[k]].size > 0
    requires g == TakeAll(h, k)
    requires forall a :: a in g.ring <==> a in h.ring && a != h.ring[k]
    ensures BlocksOk(g)
  {
    hide Without, Covers;
    forall a | g.IsBlock(a) && a in g.mem ensures Covers(g.own, a, g.mem[a].size) {
      assert Covers(h.own, a, h.mem[a].size);
    }
  }

  lemma TakeTailKeeps(h: Heap, k: nat, n: nat)
    requires Inv(h) && 0 < k < |h.ring| && h.ring[k] in h.mem && 0 < n < h.mem[h.ring[k]].size
    ensures Inv(TakeTail(h, k, n)) && h.ring[k] + h.mem[h.ring[k]].size - n !in h.live
    ensures TakeTail(h, k, n).own.Keys == h.own.Keys
  {
    hide Covers, Sorted, RingOk, BlocksOk;
    AboveBase(h, k);
    var p, bp := h.ring[k], h.ring[k] + h.mem[h.ring[k]].size - n;
    TailIsNew(h, k, bp);
    TakeTailRing(h, k, n);
    TakeTailBlocks(h, TakeTail(h, k, n), p, bp, n);
  }

  lemma TailIsNew(h: Heap, k: nat, a: nat)
    requires Inv(h) && 0 < k < |h.ring| && h.ring[k] in h.mem
    requires h.ring[k] < a < h.ring[k] + h.mem[h.ring[k]].size
    ensures a !in h.ring && a !in h.live
  {
    AboveBase(h, k);
    NotInside(h, k, a);
    hide RingOk, Covers;
    if a in h.live {
      Apart(h, h.ring[k], a);
    }
  }

  lemma RingOrder(ring: seq<nat>, k: nat, i: nat)
    requires Sorted(ring) && k < |ring| && i < |ring|
    ensures if i <= k then ring[i] <= ring[k] else ring[k + 1] <= ring[i]
  {}

  lemma NotInside(h: Heap, k: nat, a: nat)
    requires RingOk(h, -1) && 0 < k < |h.ring| && h.ring[k] in h.mem
    requires h.ring[k] < a < h.ring[k] + h.mem[h.ring[k]].size
    ensures a !in h.ring
  {
    assert Spaced(h, k);
    if a in h.ring {
      var i :| 0 <= i < |h.ring| && h.ring[i] == a;
      RingOrder(h.ring, k, i);
    }
  }

  lemma TakeTailRing(h: Heap, k: nat, n: nat)
    requires RingOk(h, -1) && 0 < k < |h.ring| && h.ring[k] in h.mem && 0 < n < h.mem[h.ring[k]].size
    requires h.ring[k] + h.mem[h.ring[k]].size - n !in h.ring
    ensures RingOk(TakeTail(h, k, n), -1)
  {
    RingIndex(h.ring, k);
    hide Sorted;
    var g := TakeTail(h, k, n);
    forall i | 0 <= i < |g.ring| ensures Spaced(g, i) && Linked(g, i) {
      assert Spaced(h, i) && Linked(h, i);
    }
  }

  /** g is h with the last n units of the free block p made a live block bp. */
  ghost predicate TailCut(h: Heap, g: Heap, p: nat, bp: nat, n: nat) {
    && p in h.mem && p in h.ring && h.base < p < bp && n > 0
    && h.mem[p].size == bp - p + n && !h.IsBlock(bp) && bp !in h.ring
    && g.base == h.base && g.ring == h.ring && g.live == h.live[bp := n]
    && g.own == (map u | u in h.own :: if bp <= u < bp + n then bp else h.own[u])
    && g.mem.Keys == h.mem.Keys + {bp} && g.mem[bp].size == n && g.mem[p].size == bp - p
    && forall a :: a in h.mem && a != p && a != bp ==> g.mem[a] == h.mem[a]
  }

  lemma TakeTailBlocks(h: Heap, g: Heap, p: nat, bp: nat, n: nat)
    requires BlocksOk(h) && TailCut(h, g, p, bp, n)
    ensures BlocksOk(g)
  {
    TakeTailOwns(h, g, p, bp, n);
    TakeTailCovers(h, g, p, bp, n);
  }

  lemma TakeTailCovers(h: Heap, g: Heap, p: nat, bp: nat, n: nat)
    requires BlocksOk(h) && TailCut(h, g, p, bp, n)
    ensures forall a :: g.IsBlock(a) && a in g.mem ==> Covers(g.own, a, g.mem[a].size)
  {
    hide Covers;
    assert Covers(h.own, p, h.mem[p].size);
    forall a | g.IsBlock(a) && a in g.mem ensures Covers(g.own, a, g.mem[a].size) {
      if a != bp {
        assert h.IsBlock(a) && Covers(h.own, a, h.mem[a].size);
      }
      TakeTailCover(h, g, p, bp, n, a);
    }
  }

  lemma TakeTailOwns(h: Heap, g: Heap, p: nat, bp: nat, n: nat)
    requires BlocksOk(h) && TailCut(h, g, p, bp, n)
    ensures forall u :: u in g.own ==>
              g.IsBlock(g.own[u]) && g.own[u] in g.mem && g.base < g.own[u] <= u < g.own[u] + g.mem[g.own[u]].size
  {
    hide Covers;
    assert Covers(h.own, p, h.mem[p].size);
    forall u | u in g.own
      ensures g.IsBlock(g.own[u]) && g.own[u] in g.mem && g.base < g.own[u] <= u < g.own[u] + g.mem[g.own[u]].size
    {
      TakeTailOwn(h, g, p, bp, n, u);
    }
  }

  lemma TakeTailOwn(h: Heap, g: Heap, p: nat, bp: nat, n: nat, u: nat)
    requires TailCut(h, g, p, bp, n) && Covers(h.own, p, h.mem[p].size)
    requires u in g.own && u in h.own ==>
               h.IsBlock(h.own[u]) && h.own[u] in h.mem && h.base < h.own[u] <= u < h.own[u] + h.mem[h.own[u]].size
    requires u in g.own
    ensures g.IsBlock(g.own[u]) && g.own[u] in g.mem && g.base < g.own[u] <= u < g.own[u] + g.mem[g.own[u]].size
  {}

  lemma TakeTailCover(h: Heap, g: Heap, p: nat, bp: nat, n: nat, a: nat)
    requires TailCut(h, g, p, bp, n) && Covers(h.own, p, h.mem[p].size) && a in g.mem
    requires a != bp && a in h.mem ==> Covers(h.own, a, h.mem[a].size)
    ensures Covers(g.own, a, g.mem[a].size)
  {}

  // ---- what the invariant means to the program ----

  /** Every unit got from sbrk lies in exactly one block, live or free. */
  lemma UnitsPartition(h: Heap, u: nat)
    requires Inv(h)
    ensures u in h.own <==> exists a: nat :: h.IsBlock(a) && a in h.mem && a <= u < a + h.mem[a].size
    ensures forall a: nat, b: nat ::
              (h.IsBlock(a) && a in h.mem && a <= u < a + h.mem[a].size
               && h.IsBlock(b) && b in h.mem && b <= u < b + h.mem[b].size) ==> a == b
  {}

  /** The units after the header of a live block hold no header of the allocator, so whatever the program writes
      there leaves the allocator's state as it was. */
  lemma PayloadIsPrivate(h: Heap, bp: nat, mem: map<nat, Header>)
    requires Inv(h) && bp in h.live && mem.Keys >= h.mem.Keys
    requires forall a :: a in h.mem && !(bp < a < bp + h.live[bp]) ==> mem[a] == h.mem[a]
    ensures Inv(h.(mem := mem))
  {
    var g := h.(mem := mem);
    assert Covers(h.own, bp, h.mem[bp].size);
    forall a | (a in h.live || a in h.ring) && a in h.mem ensures mem[a] == h.mem[a] {
      if bp < a < bp + h.live[bp] {
        PayloadHasNoBlock(h, bp, a);
      }
    }
    hide Covers, Sorted;
    forall i | 0 <= i < |g.ring| ensures Spaced(g, i) && Linked(g, i) {
      assert Spaced(h, i) && Linked(h, i);
    }
    forall a | g.IsBlock(a) && a in g.mem ensures Covers(g.own, a, g.mem[a].size) {
      BlockInMem(h, a);
      assert Covers(h.own, a, h.mem[a].size);
    }
  }

  lemma BlockInMem(h: Heap, a: nat)
    requires Inv(h) && h.IsBlock(a)
    ensures a in h.mem && h.mem[a].size > 0
  {
    if a in h.ring {
      var i :| 0 <= i < |h.ring| && h.ring[i] == a;
      assert Spaced(h, i);
    }
  }

  lemma PayloadHasNoBlock(h: Heap, bp: nat, a: nat)
    requires Inv(h) && bp in h.live && bp < a < bp + h.live[bp]
    ensures !h.IsBlock(a) && a != h.base
  {
    assert Covers(h.own, bp, h.mem[bp].size);
    assert bp in h.own && a in h.own;
    if h.IsBlock(a) {
      BlockInMem(h, a);
      Apart(h, bp, a);
    }
  }
}

/** The allocator itself: freep and the headers in memory, with the ring kept beside them as ghost state. */
module Umalloc {
  import opened Sbrk
  import opened UmallocSpec

  /** How far entry f is ahead of entry k, going round a ring of n. */
  function Ahead(k: nat, f: nat, n: nat): nat
    requires k < n && f < n
  {
    if k <= f then f - k else f - k + n
  }

  function Step(k: nat, n: nat): (s: nat)
    requires k < n
    ensures s < n
  {
    if k + 1 < n then k + 1 else 0
  }

  /** No free block has n units. */
  ghost predicate NoneFits(h: Heap, n: nat) {
    forall i :: 0 <= i < |h.ring| && h.ring[i] in h.mem ==> h.mem[h.ring[i]].size < n
  }

  /** The entries passed on the way from freep's to entry k have fewer than n units. */
  ghost predicate Seen(h: Heap, f: nat, k: nat, n: nat) {
    && f < |h.ring| && k < |h.ring|
    && forall i :: (0 <= i < |h.ring| && h.ring[i] in h.mem && Ahead(i, f, |h.ring|) > Ahead(k, f, |h.ring|)) ==>
                     h.mem[h.ring[i]].size < n
  }

  lemma SeenNone(h: Heap, f: nat, n: nat)
    requires f < |h.ring|
    ensures Seen(h, f, Step(f, |h.ring|), n)
  {}

  lemma SeenMore(h: Heap, f: nat, k: nat, n: nat)
    requires Seen(h, f, k, n) && h.ring[k] in h.mem && h.mem[h.ring[k]].size < n
    ensures k != f ==> Seen(h, f, Step(k, |h.ring|), n)
                       && Ahead(Step(k, |h.ring|), f, |h.ring|) < Ahead(k, f, |h.ring|)
    ensures k == f ==> NoneFits(h, n)
  {}

  lemma FirstRing(h: Heap)
    requires h.base > 0 && h.ring == [h.base] && h.live == map[] && h.own == map[]
    requires h.base in h.mem && h.mem[h.base] == Header(h.base, 0)
    ensures Inv(h) && h.base in h.ring
  {}

  /** The units from the break up are new to the heap. */
  lemma FreshAtBreak(h: Heap, brk: nat, n: nat)
    requires Inv(h) && h.base < brk && n > 0 && forall u :: u in h.own ==> u < brk
    ensures Fresh(h, brk, n)
  {
    forall b: nat | h.IsBlock(b) ensures b < brk {
      BlockInMem(h, b);
      assert Covers(h.own, b, h.mem[b].size);
      assert b in h.own;
    }
  }

  /** No block has as many units as there are below the break. */
  lemma NoneThatBig(h: Heap, brk: nat, n: nat)
    requires Inv(h) && brk <= n && n > 0 && forall u :: u in h.own ==> u < brk
    ensures NoneFits(h, n)
  {
    forall i | 0 <= i < |h.ring| && h.ring[i] in h.mem ensures h.mem[h.ring[i]].size < n {
      var a, m := h.ring[i], h.mem[h.ring[i]].size;
      assert Spaced(h, i);
      RingIsBlock(h, i);
      if m > 0 {
        RingIndex(h.ring, i);
        assert h.IsBlock(a) && Covers(h.own, a, m);
        assert a + m - 1 in h.own;
      }
    }
  }

  /** An entry that fits. */
  lemma Fits(h: Heap, k: nat, n: nat)
    requires k < |h.ring| && h.ring[k] in h.mem && h.mem[h.ring[k]].size >= n
    ensures !NoneFits(h, n)
  {}

  lemma SameFits(h: Heap, g: Heap, n: nat)
    requires g.ring == h.ring && g.mem.Keys == h.mem.Keys
    requires forall a :: a in h.mem ==> g.mem[a].size == h.mem[a].size
    ensures NoneFits(g, n) <==> NoneFits(h, n)
  {}

  lemma GrantedShape(h: Heap, a: nat, n: nat)
    requires Fresh(h, a, n)
    ensures var g := Granted(h, a, n);
            && g.mem == h.mem[a := Header(0, n)] && g.live == h.live[a := n] && g.ring == h.ring && g.base == h.base
            && a !in h.live
  {
    if a in h.live {
      assert h.IsBlock(a);
    }
  }

  lemma StepNext(h: Heap, k: nat)
    requires Inv(h) && k < |h.ring|
    ensures Step(k, |h.ring|) < |h.ring| && h.Next(k) == h.ring[Step(k, |h.ring|)]
  {}

  lemma NotFirst(h: Heap, kp: nat, n: nat)
    requires Inv(h) && kp < |h.ring| && n > 0 && h.Next(kp) in h.mem && h.mem[h.Next(kp)].size >= n
    ensures Step(kp, |h.ring|) == kp + 1 < |h.ring|
  {
    assert Spaced(h, 0);
  }

  lemma OneIndex(h: Heap, i: nat, j: nat)
    requires Inv(h) && i < |h.ring| && j < |h.ring| && h.ring[i] == h.ring[j]
    ensures i == j
  {}

  lemma HoldsFits(h: Heap, a: nat, n: nat)
    requires Holds(h, a, n)
    ensures !NoneFits(h, n)
  {
    var b :| b in h.ring && b in h.mem && b <= a && a + n <= b + h.mem[b].size;
    var i :| 0 <= i < |h.ring| && h.ring[i] == b;
  }

  /** The heap lies between base and the break, which is where exec left it or whole headers further. */
  ghost predicate BelowBreak(space: Space, base: nat, own: map<nat, nat>) {
    && space.mapped == space.sz < KERNBASE && space.sz % UNIT == 0 && 0 < base < space.sz / UNIT
    && forall u :: u in own ==> u < space.sz / UNIT
  }

  lemma NoneLeft(h: Heap, space: Space, nbytes: nat)
    requires Inv(h) && BelowBreak(space, h.base, h.own) && nbytes < W32 && Bytes(nbytes) >= KERNBASE
    ensures NoneFits(h, Units(nbytes))
  {
    NoneThatBig(h, space.sz / UNIT, Units(nbytes));
  }

  class Allocator {
    const base: nat
    var mem: map<nat, Header>
    var freep: nat
    var space: Space // the process, as the kernel has it
    ghost var ring: seq<nat>
    ghost var live: map<nat, nat>
    ghost var own: map<nat, nat>

    ghost function H(): Heap
      reads this
    {
      Heap(base, mem, ring, live, own)
    }

    ghost predicate Valid()
      reads this
    {
      && base > 0 && base in mem && BelowBreak(space, base, own)
      && if freep == 0 then mem[base].size == 0 && ring == [base] && live == map[] && own == map[]
         else Inv(H()) && freep in ring
    }

    constructor (b: nat, space: Space)
      requires BelowBreak(space, b, map[])
      ensures Valid() && base == b && freep == 0 && live == map[] && own == map[] && this.space == space
    {
      base := b;
      this.space := space;
      mem := map[b := Header(0, 0)];
      freep := 0;
      ring := [b];
      live := map[];
      own := map[];
    }

    /** The block goes back to the ring, merged with the free blocks it touches; nothing else changes hands. */
    method Free(ap: nat)
      requires Valid() && ap > 0 && ap - 1 in live
      modifies this`mem, this`freep, this`ring, this`live, this`own
      ensures Valid() && freep != 0
      ensures live == old(live) - {ap - 1} && own.Keys == old(own.Keys)
      ensures Holds(H(), ap - 1, old(live)[ap - 1])
    {
      hide RingOk, BlocksOk, Half, Before, JoinUpper, JoinLower, Holds;
      var bp := ap - 1;
      ghost var h0 := H();
      LiveAbove(h0, bp);
      var p, j := FindBelow(bp);
      UpperKeeps(h0, j, bp);
      JoinAbove(bp, p, j);
      LowerKeeps(H(), j, bp);
      ghost var n := live[bp];
      JoinBelow(bp, p, j);
      HoldsLess(H(), bp, n, h0.live[bp]);
      freep := p;
      InRing(H(), p);
    }

    /** The search loop of free: the last free block below bp. */
    method FindBelow(bp: nat) returns (p: nat, ghost j: nat)
      requires Inv(H()) && freep in ring && bp in live
      ensures p in mem && Before(ring, j, bp) && ring[j] == p
    {
      hide RingOk, BlocksOk;
      p := freep;
      LiveAbove(H(), bp);
      ghost var n := |ring|;
      ghost var t := SomewhereBefore(ring, bp);
      j :| j < n && ring[j] == p;
      PtrIs(H(), j);
      while !(bp > p && bp < mem[p].ptr)
        invariant j < n && p == ring[j] && p in mem && mem[p].ptr == H().Next(j)
        decreases Ahead(j, t, n)
      {
        RingIndex(ring, j);
        RingIndex(ring, 0);
        if p >= mem[p].ptr && (bp > p || bp < mem[p].ptr) {
          break;
        }
        p := mem[p].ptr;
        j := Step(j, n);
        PtrIs(H(), j);
      }
      RingIndex(ring, 0);
      RingIndex(ring, j);
    }

    /** The second if of free. */
    method JoinBelow(bp: nat, p: nat, ghost j: nat)
      requires Half(H(), j, bp) && ring[j] == p
      modifies this`mem, this`ring, this`live, this`own
      ensures H() == JoinLower(old(H()), j, bp)
    {
      hide RingOk, BlocksOk;
      ghost var g := JoinLower(H(), j, bp);
      if p + mem[p].size == bp {
        mem := mem[p := Header(mem[p].ptr, mem[p].size + mem[bp].size)];
        mem := mem[p := Header(mem[bp].ptr, mem[p].size)];
      } else {
        mem := mem[p := Header(bp, mem[p].size)];
      }
      ring, live, own := g.ring, g.live, g.own;
    }

    /** A chunk of at least nu units from sbrk, freed at once; freep is left just below a free block that big.
        ok == false: sbrk has taken the request for another number, and what follows uses memory never granted. */
    method Morecore(nu: nat, enough: bool) returns (p: nat, ok: bool)
      requires Valid() && freep != 0 && 0 < nu <= W32 / UNIT
      modifies this
      ensures ok <==> Chunk(nu) * UNIT < KERNBASE
      ensures space == Asked(old(space), Chunk(nu) * UNIT, enough).space
      ensures !ok ==> H() == old(H()) && freep == old(freep)
      ensures ok ==> Valid() && freep != 0 && live == old(live)
      ensures ok && Refuses(old(space.sz), Chunk(nu) * UNIT, enough) ==>
                p == 0 && H() == old(H()) && freep == old(freep) && space == old(space)
      ensures ok && !Refuses(old(space.sz), Chunk(nu) * UNIT, enough) ==>
                && p == freep && own.Keys == old(own.Keys) + Region(old(space.sz) / UNIT, Chunk(nu))
                && Holds(H(), old(space.sz) / UNIT, nu) && space.sz == old(space.sz) + Chunk(nu) * UNIT
    {
      hide RingOk, BlocksOk, Fresh, Granted, Holds, Region, SysSbrk;
      var n := nu;
      if n < 4096 {
        n := 4096;
      }
      var answer := SysSbrk(space, Int32(n * UNIT % W32), enough);
      ghost var sz := space.sz;
      space := answer.space;
      if n * UNIT >= KERNBASE {
        return 0, false;
      }
      RefusedIff(old(space), n * UNIT, enough);
      if answer.ret < 0 {
        return 0, true;
      }
      var hp := answer.ret / UNIT;
      FreshAtBreak(H(), hp, n);
      GrantedKeeps(H(), hp, n);
      GrantedShape(H(), hp, n);
      ghost var g := Granted(H(), hp, n);
      mem := mem[hp := Header(0, n)];
      live, own := g.live, g.own;
      GrantedBelow(old(space), space, base, old(own), own, n);
      Free(hp + 1);
      HoldsLess(H(), hp, n, nu);
      InRing(H(), freep);
      return freep, true;
    }

    /** A fit: all of the block, or its last nunits units. */
    method Take(prevp: nat, fit: nat, nunits: nat, ghost kp: nat) returns (ap: nat)
      requires Inv(H()) && kp < |ring| && ring[kp] == prevp && fit == H().Next(kp) && fit in mem && prevp in mem
      requires 0 < nunits <= mem[fit].size && BelowBreak(space, base, own)
      modifies this`mem, this`freep, this`ring, this`live, this`own
      ensures Valid() && freep == prevp != 0 && own.Keys == old(own.Keys)
      ensures ap > 1 && ap - 1 !in old(live) && live == old(live)[ap - 1 := nunits]
    {
      hide RingOk, BlocksOk, TakeAll, TakeTail;
      NotFirst(H(), kp, nunits);
      var p := fit;
      ghost var k := kp + 1;
      AboveBase(H(), k);
      if mem[p].size == nunits {
        TakeAllKeeps(H(), k);
        ghost var g := TakeAll(H(), k);
        TakeAllIs(H(), k);
        mem := mem[prevp := Header(mem[p].ptr, mem[prevp].size)];
        ring, live := g.ring, g.live;
        assert H() == g;
      } else {
        TakeTailKeeps(H(), k, nunits);
        ghost var g := TakeTail(H(), k, nunits);
        TakeTailIs(H(), k, nunits);
        mem := mem[p := Header(mem[p].ptr, mem[p].size - nunits)];
        p := p + mem[p].size;
        mem := mem[p := Header(if p in mem then mem[p].ptr else 0, nunits)];
        live, own := g.live, g.own;
        assert H() == g;
      }
      freep := prevp;
      InRing(H(), freep);
      return p + 1;
    }

    /** The first call makes a ring of base alone. */
    method Start(nunits: nat) returns (prevp: nat)
      requires Valid() && nunits > 0
      modifies this`mem, this`freep
      ensures Valid() && freep == prevp != 0 && freep in ring
      ensures NoneFits(H(), nunits) <==> NoneFits(old(H()), nunits)
    {
      prevp := freep;
      if prevp == 0 {
        mem := mem[base := Header(base, 0)];
        freep := base;
        prevp := base;
        FirstRing(H());
        SameFits(old(H()), H(), nunits);
      }
    }

    /** A block of exactly Units(nbytes) units, new to the program; the heap grows only when no free block would do,
        and the call fails exactly when then sbrk refuses. ok == false, exactly from 2^31 - 15 bytes up to where the
        rounding wraps: sbrk has not granted what was asked. */
    method Malloc(nbytes: nat, enough: bool) returns (ap: nat, ok: bool)
      requires Valid() && nbytes < W32
      modifies this
      ensures ok <==> Bytes(nbytes) < KERNBASE
      ensures ok ==> Valid() && space.sz >= old(space.sz)
      ensures ok && ap != 0 ==> ap - 1 !in old(live) && live == old(live)[ap - 1 := Units(nbytes)]
      ensures ok && ap == 0 ==> live == old(live) && own == old(own) && space == old(space)
      ensures ok ==>
                (ap == 0 <==> old(NoneFits(H(), Units(nbytes))) && Refuses(old(space.sz), Bytes(nbytes), enough))
      ensures ok && !old(NoneFits(H(), Units(nbytes))) ==> own.Keys == old(own.Keys) && space == old(space)
      ensures ok && ap != 0 && old(NoneFits(H(), Units(nbytes))) ==>
                && own.Keys == old(own.Keys) + Region(old(space.sz) / UNIT, Chunk(Units(nbytes)))
                && space.sz == old(space.sz) + Bytes(nbytes)
    {
      hide RingOk, BlocksOk, Fresh, Region, Holds, Step, Ahead, Seen, NoneFits, SysSbrk, BelowBreak, Refuses;
      var nunits := Units(nbytes);
      var prevp := Start(nunits);
      ghost var h0 := H();
      ghost var grown := false;
      InRing(H(), freep);
      ghost var f: nat :| f < |ring| && ring[f] == freep;
      ghost var kp: nat := f;
      PtrIs(H(), kp);
      StepNext(H(), kp);
      var p := mem[prevp].ptr;
      SeenNone(H(), f, nunits);
      if Bytes(nbytes) >= KERNBASE { NoneLeft(h0, space, nbytes); }
      while true
        invariant base == h0.base && Inv(H()) && freep in ring && live == h0.live && freep != 0
        invariant f < |ring| && kp < |ring| && ring[f] == freep && ring[kp] == prevp
        invariant p == ring[Step(kp, |ring|)] && p in mem && prevp in mem && mem[prevp].ptr == p
        invariant Seen(H(), f, Step(kp, |ring|), nunits) && BelowBreak(space, base, own)
        invariant !grown ==> H() == h0 && space == old(space)
        invariant grown ==> !NoneFits(H(), nunits) && NoneFits(h0, nunits) && Bytes(nbytes) < KERNBASE
                            && !Refuses(old(space.sz), Bytes(nbytes), enough)
                            && own.Keys == h0.own.Keys + Region(old(space.sz) / UNIT, Chunk(nunits))
                            && space.sz == old(space.sz) + Bytes(nbytes)
        decreases !grown, Ahead(Step(kp, |ring|), f, |ring|)
      {
        ghost var k: nat := Step(kp, |ring|);
        if mem[p].size >= nunits {
          PtrIs(H(), kp);
          StepNext(H(), kp);
          Fits(H(), k, nunits);
          ap := Take(prevp, p, nunits, kp);
          return ap, true;
        }
        SeenMore(H(), f, k, nunits);
        if p == freep {
          OneIndex(H(), k, f);
          p, ok := Morecore(nunits, enough);
          if !ok {
            return 0, false;
          }
          if p == 0 {
            return 0, true;
          }
          grown := true;
          InRing(H(), freep);
          f :| f < |ring| && ring[f] == freep;
          kp := f;
          HoldsFits(H(), old(space.sz) / UNIT, nunits);
          SeenNone(H(), f, nunits);
        } else {
          kp := k;
        }
        prevp := p;
        PtrIs(H(), kp);
        StepNext(H(), kp);
        p := mem[p].ptr;
      }
    }

    /** The first if of free. */
    method JoinAbove(bp: nat, p: nat, ghost j: nat)
      requires Inv(H()) && bp in live && Before(ring, j, bp) && p == ring[j] && p in mem && bp in mem
      modifies this`mem, this`ring, this`live, this`own
      ensures H() == JoinUpper(old(H()), j, bp) && ring[j] == p
    {
      PtrIs(H(), j);
      LiveAbove(H(), bp);
      hide BlocksOk, RingOk, Before;
      ghost var g := JoinUpper(H(), j, bp);
      if bp + mem[bp].size == mem[p].ptr {
        mem := mem[bp := Header(mem[bp].ptr, mem[bp].size + mem[mem[p].ptr].size)];
        mem := mem[bp := Header(mem[mem[p].ptr].ptr, mem[bp].size)];
      } else {
        mem := mem[bp := Header(mem[p].ptr, mem[bp].size)];
      }
      ring, live, own := g.ring, g.live, g.own;
    }
  }

  lemma GrantedBelow(s: Space, t: Space, base: nat, own: map<nat, nat>, more: map<nat, nat>, n: nat)
    requires BelowBreak(s, base, own) && more.Keys == own.Keys + Region(s.sz / UNIT, n)
    requires t == Space(s.sz + n * UNIT, s.sz + n * UNIT) && t.sz < KERNBASE
    ensures BelowBreak(t, base, more)
  {
    assert t.sz / UNIT == s.sz / UNIT + n;
    forall u | u in more ensures u < t.sz / UNIT {
      assert u in own || u in Region(s.sz / UNIT, n);
    }
  }

  lemma TakeAllIs(h: Heap, k: nat)
    requires 0 < k < |h.ring| && h.ring[k] in h.mem && h.ring[k - 1] in h.mem
    ensures var g, p, q := TakeAll(h, k), h.ring[k], h.ring[k - 1];
            && g.mem == h.mem[q := Header(h.mem[p].ptr, h.mem[q].size)] && g.live == h.live[p := h.mem[p].size]
            && g.base == h.base && g.own == h.own
  {}

  lemma TakeTailIs(h: Heap, k: nat, n: nat)
    requires 0 < k < |h.ring| && h.ring[k] in h.mem && n <= h.mem[h.ring[k]].size
    ensures var g, p, left := TakeTail(h, k, n), h.ring[k], h.mem[h.ring[k]].size - n;
            var m := h.mem[p := Header(h.mem[p].ptr, left)];
            && g.mem == m[p + left := Header(if p + left in m then m[p + left].ptr else 0, n)]
            && g.live == h.live[p + left := n] && g.ring == h.ring && g.base == h.base
  {}

  lemma HoldsLess(h: Heap, bp: nat, n: nat, m: nat)
    requires Holds(h, bp, n) && m <= n
    ensures Holds(h, bp, m)
  {}

  lemma InRing(h: Heap, p: nat)
    requires Inv(h) && p in h.ring
    ensures h.base > 0 && h.base in h.mem && p > 0 && p in h.mem
  {
    assert Linked(h, 0);
    var i :| 0 <= i < |h.ring| && h.ring[i] == p;
    assert Linked(h, i);
  }

  lemma LiveAbove(h: Heap, bp: nat)
    requires Inv(h) && bp in h.live
    ensures bp in h.mem && bp !in h.ring && h.base < bp && |h.ring| >= 1 && h.ring[0] == h.base && Sorted(h.ring)
  {
    assert Covers(h.own, bp, h.mem[bp].size);
    assert bp in h.own;
  }

  lemma PtrIs(h: Heap, j: nat)
    requires Inv(h) && j < |h.ring|
    ensures h.ring[j] in h.mem && h.mem[h.ring[j]].ptr == h.Next(j) && h.Next(j) in h.mem
  {
    assert Linked(h, j);
    assert Linked(h, 0);
    if j + 1 < |h.ring| {
      assert Linked(h, j + 1);
    }
  }
}
