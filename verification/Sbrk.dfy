/** The sizes in proc.c's growproc and sysproc.c's sys_sbrk: what a process gets for the number it asks with. */
module Sbrk {
  const KERNBASE: int := 0x8000_0000
  const W32: nat := 0x1_0000_0000

  /** A process's size, and the bytes of it that still have pages: fewer than sz only after a failed shrink. */
  datatype Space = Space(sz: nat, mapped: nat)

  datatype Answer = Answer(ret: int, space: Space)

  /** A 32-bit word passed where an int is expected. */
  function Int32(w: nat): (n: int)
    requires w < W32
    ensures -KERNBASE <= n < KERNBASE && n % W32 == w
  {
    if w < KERNBASE then w else w - W32
  }

  /** What allocuvm returns; enough: whether it finds all the pages. */
  function AllocSize(oldsz: nat, newsz: nat, enough: bool): nat {
    if newsz >= KERNBASE then 0 else if newsz < oldsz then oldsz else if enough then newsz else 0
  }

  /** What deallocuvm returns. */
  function DeallocSize(oldsz: nat, newsz: nat): nat {
    if newsz >= oldsz then oldsz else newsz
  }

  /** growproc(n): 0 or -1. A shrink to nothing has dropped the pages when it reports an error. */
  function Growproc(s: Space, n: int, enough: bool): Answer {
    var newsz := (s.sz + n) % W32;
    if n > 0 then
      var sz := AllocSize(s.sz, newsz, enough);
      if sz == 0 then Answer(-1, s) else Answer(0, Space(sz, sz))
    else if n < 0 then
      var sz := DeallocSize(s.sz, newsz);
      var t := if newsz >= s.sz then s else Space(s.sz, newsz);
      if sz == 0 then Answer(-1, t) else Answer(0, t.(sz := sz))
    else Answer(0, s)
  }

  /** An error means that nothing happened, except exactly when the process asks to give up its last byte. */
  lemma FailedShrinkIff(s: Space, n: int, enough: bool)
    requires s.sz == s.mapped < KERNBASE && -KERNBASE <= n < KERNBASE
    ensures var r := Growproc(s, n, enough); !(r.ret == -1 ==> r.space == s) <==> n < 0 && s.sz == -n
    ensures n < 0 && s.sz == -n ==> Growproc(s, n, enough) == Answer(-1, Space(s.sz, 0))
  {
    if n < 0 && s.sz + n < 0 {
      assert (s.sz + n) % W32 == s.sz + n + W32;
    } else {
      assert (s.sz + n) % W32 == s.sz + n;
    }
  }

  /** A process of one page gives it up: it is told of an error, its size is unchanged and its page is gone. */
  lemma FailedShrink(enough: bool)
    ensures Growproc(Space(4096, 4096), -4096, enough) == Answer(-1, Space(4096, 0))
  {}

  /** sbrk(n): the old size, or -1. */
  function SysSbrk(s: Space, n: int, enough: bool): Answer {
    var r := Growproc(s, n, enough);
    if r.ret < 0 then Answer(-1, r.space) else Answer(s.sz, r.space)
  }

  /** The answer a caller who wants `bytes` more bytes can go by: they were added, or nothing happened. */
  predicate Honest(s: Space, bytes: nat, r: Answer) {
    || (r.ret == s.sz && r.space == Space(s.sz + bytes, s.sz + bytes))
    || (r.ret == -1 && r.space == s)
  }

  /** A request of up to 2^32 bytes is answered honestly exactly when it is positive as an int. A dishonest answer
      leaves the block that was asked for running past the process's memory. */
  lemma HonestIff(s: Space, bytes: nat, enough: bool)
    requires 0 < s.sz == s.mapped < KERNBASE && 0 < bytes <= W32
    ensures var r := SysSbrk(s, Int32(bytes % W32), enough);
            && (Honest(s, bytes, r) <==> bytes < KERNBASE)
            && (bytes >= KERNBASE ==> r.ret + bytes > r.space.mapped)
  {
    if bytes == W32 {
      assert Int32(bytes % W32) == 0;
    } else {
      var n := Int32(bytes);
      assert bytes % W32 == bytes;
      if n < 0 {
        if s.sz + n < 0 {
          assert (s.sz + n) % W32 == s.sz + n + W32;
        } else {
          assert (s.sz + n) % W32 == s.sz + n;
        }
      } else {
        assert (s.sz + n) % W32 == s.sz + n;
      }
    }
  }

  predicate Refuses(sz: nat, bytes: nat, enough: bool) {
    sz + bytes >= KERNBASE || !enough
  }

  /** An honest answer is a refusal exactly when the process would reach the kernel or there are not enough pages. */
  lemma RefusedIff(s: Space, bytes: nat, enough: bool)
    requires 0 < s.sz == s.mapped < KERNBASE && 0 < bytes < KERNBASE
    ensures SysSbrk(s, bytes, enough) == if Refuses(s.sz, bytes, enough) then Answer(-1, s)
                                         else Answer(s.sz, Space(s.sz + bytes, s.sz + bytes))
  {
    assert (s.sz + bytes) % W32 == s.sz + bytes;
  }
}
