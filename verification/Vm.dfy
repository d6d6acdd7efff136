/** The page allocator of kalloc.c and the page-table operations of vm.c, in the kernel's memory. */
module Vm {
  import opened VmSpec
  import opened VmSpace
  import Sbrk

  datatype MapResult = Done | OutOfMemory | Remap // Remap: the kernel panics

  /** PGROUNDUP in pages: as many as size bytes need. */
  function RoundUp(size: nat): (pages: nat)
    ensures size <= pages * PGSIZE < size + PGSIZE
  {
    (size + PGSIZE - 1) / PGSIZE
  }

  /** One line of kmap: count pages from virtual page virt, mapped to the physical ones from phys. */
  datatype Kmap = Kmap(virt: nat, phys: nat, count: nat, perm: nat)

  const EXTPAGE: nat := 0x100 // EXTMEM / PGSIZE
  const DEVPAGE: nat := 0xF_E000 // DEVSPACE / PGSIZE

  lemma WholePages(p: nat, vend: nat)
    ensures p * PGSIZE + PGSIZE <= vend <==> p < vend / PGSIZE
  {}

  class Memory {
    const lo: nat // the first page after the kernel
    const hi: nat // PHYSTOP / PGSIZE
    const data: nat // V2P(data) / PGSIZE
    var mem: map<nat, seq<nat>>
    var freelist: nat
    ghost var free: seq<nat>
    ghost var role: map<nat, Role>

    ghost function S(): Mm
      reads this
    {
      Mm(lo, hi, mem, freelist, free, role)
    }

    method Kfree(v: nat)
      requires Shape(S()) && ListOk(S()) && v in role && !role[v].Free?
      modifies this
      ensures S() == Put(old(S()), v) && Shape(S()) && ListOk(S()) && role == old(role)[v := Role.Free]
    {
      PutKeeps(S(), v);
      ghost var t := Put(S(), v);
      mem := mem[v := Junk(freelist)];
      freelist := v;
      free, role := t.free, t.role;
    }

    method Kalloc() returns (r: nat)
      requires Core(S())
      modifies this
      ensures old(free) == [] ==> r == 0 && S() == old(S())
      ensures old(free) != [] ==> r == old(free)[0] && S() == Take(old(S()))
      ensures r == 0 <==> old(free) == []
      ensures r != 0 ==> r in mem && old(role)[r].Free? && Core(S()) && SameElse(old(S()), S(), 0, 0, 0)
    {
      hide TablesOk, Trans;
      r := freelist;
      if r != 0 {
        TakeCore(S());
        ghost var t := Take(S());
        freelist := mem[r][0];
        free, role := t.free, t.role;
      }
    }

    /** Before kinit1: pages lo to hi hold anything, no page is free yet and there is no address space. */
    constructor (lo: nat, hi: nat, data: nat, mem: map<nat, seq<nat>>)
      requires 0 < lo <= hi <= VPAGES && (forall p :: p in mem <==> lo <= p < hi)
      requires forall p :: p in mem ==> |mem[p]| == NENTRIES
      ensures this.lo == lo && this.hi == hi && this.data == data && this.mem == mem
      ensures Ok(S()) && free == [] && forall p :: p in role <==> lo <= p < hi && role[p].Kernel?
    {
      this.lo, this.hi, this.data, this.mem := lo, hi, data, mem;
      freelist, free := 0, [];
      role := map p | p in mem :: Kernel;
    }

    /** Every whole page of [vstart, vend) goes to the list; no translation changes. */
    method Freerange(vstart: nat, vend: nat)
      requires Shape(S()) && ListOk(S())
      requires forall p :: RoundUp(vstart) <= p < vend / PGSIZE ==> p in role && role[p].Kernel?
      modifies this
      ensures Shape(S()) && ListOk(S())
      ensures old(Ok(S())) ==> Ok(S()) && SameElse(old(S()), S(), 0, 0, 0)
      ensures forall p :: p in role <==> p in old(role)
      ensures forall p :: p in role ==>
                            role[p] == if RoundUp(vstart) <= p < vend / PGSIZE then Role.Free else old(role)[p]
    {
      ghost var s0, first := S(), RoundUp(vstart);
      assert Freed(s0, s0, first, first);
      hide Freed, RoundUp, Put;
      var p := RoundUp(vstart);
      WholePages(p, vend);
      while p * PGSIZE + PGSIZE <= vend
        invariant first <= p && (p > first ==>
                  p <= vend / PGSIZE) && (p * PGSIZE + PGSIZE <= vend <==> p < vend / PGSIZE)
        invariant Freed(s0, S(), first, p)
      {
        FreedOne(s0, S(), first, p);
        Kfree(p);
        p := p + 1;
        WholePages(p, vend);
      }
      FreedAll(s0, S(), first, p);
    }

    /** A fresh zeroed table at entry i of the directory. */
    method MakeTable(d: nat, i: nat) returns (pgtab: nat)
      requires Core(S()) && IsDir(S(), d) && i < NENTRIES && !Present(Word(S(), d, i))
      modifies this
      ensures Core(S()) && SameElse(old(S()), S(), 0, 0, 0) && OnlyTables(old(S()), S(), d)
      ensures pgtab == 0 ==> S() == old(S()) && free == []
      ensures pgtab != 0 ==> Present(Word(S(), d, i)) && pgtab == PageOf(Word(S(), d, i)) && pgtab in mem
      ensures pgtab != 0 ==> Took(old(S()), S(), d, {i}, 0)
    {
      hide ListOk, Trans, Zero, Took, SameElse, OnlyTables, SetWord, TablesOk;
      ghost var s0 := S();
      NothingMade(s0, d);
      pgtab := Kalloc();
      if pgtab == 0 {
        return;
      }
      hide Core;
      KernelWrite(S(), pgtab, Zero());
      mem := mem[pgtab := Zero()];
      ghost var z := S();
      NewTableCore(z, d, i, pgtab);
      mem := mem[d := SetWord(mem[d], i, Entry(pgtab, PTE_P + PTE_W + PTE_U))];
      role := NewTable(z, d, i, pgtab).role;
      TableMade(s0, z, S(), d, i, pgtab);
    }

    /** The table that holds virtual page v's entry; alloc asks for it to be made. No translation changes. */
    method Walkpgdir(d: nat, v: nat, alloc: bool) returns (pgtab: nat)
      requires Core(S()) && IsDir(S(), d) && v < VPAGES
      modifies this
      ensures Core(S()) && SameElse(old(S()), S(), 0, 0, 0) && OnlyTables(old(S()), S(), d)
      ensures pgtab != 0 ==> Present(Word(S(), d, v / NENTRIES)) && pgtab == PageOf(Word(S(), d, v / NENTRIES))
      ensures pgtab != 0 ==> pgtab in mem
      ensures pgtab == 0 ==> S() == old(S()) && !Present(Word(S(), d, v / NENTRIES)) && (alloc ==> free == [])
      ensures !alloc ==> S() == old(S())
      ensures alloc && pgtab != 0 ==> Took(old(S()), S(), d, {v / NENTRIES}, 0)
    {
      hide ListOk, Trans, Took;
      var pde := mem[d][v / NENTRIES];
      assert InForce(d, v / NENTRIES, 0, 0);
      if Present(pde) {
        pgtab := PageOf(pde);
        assert TableForth(S(), d, v / NENTRIES);
        TookHere(S(), d, v / NENTRIES);
      } else {
        if !alloc {
          return 0;
        }
        pgtab := MakeTable(d, v / NENTRIES);
      }
    }

    /** Physical pages from pa's on go to the virtual pages that [va, va + size) touches. Out of memory or a page
        already present stops it midway; pages before that stay mapped. */
    method Mappages(d: nat, va: nat, size: nat, pa: nat, perm: nat) returns (r: MapResult)
      requires Core(S()) && IsDir(S(), d) && size >= 1 && va + size <= VPAGES * PGSIZE
      requires perm % 2 == 0 && perm + PTE_P < PGSIZE
      modifies this
      ensures Core(S())
      ensures r.Done? ==> Mapped(old(S()), S(), d, va / PGSIZE, (va + size - 1) / PGSIZE + 1, pa / PGSIZE, perm)
      ensures r.Done? ==> Took(old(S()), S(), d, Tables(va / PGSIZE, (va + size - 1) / PGSIZE + 1), 0)
      ensures r.OutOfMemory? ==>
                |Absent(old(S()), d, Tables(va / PGSIZE, (va + size - 1) / PGSIZE + 1))| > |old(free)|
      ensures r.OutOfMemory? ==> exists k :: va / PGSIZE <= k <= (va + size - 1) / PGSIZE
                                             && Mapped(old(S()), S(), d, va / PGSIZE, k, pa / PGSIZE, perm)
      ensures r.Remap? ==> exists v :: va / PGSIZE <= v <= (va + size - 1) / PGSIZE && Trans(old(S()), d, v) != 0
    {
      hide Core, Trans, SameElse, OnlyTables, Took, Tables, Absent;
      ghost var s0 := S();
      var a, last, page := va / PGSIZE, (va + size - 1) / PGSIZE, pa / PGSIZE;
      ghost var first, page0 := a, page;
      MappedNone(s0, d, a, page, perm);
      TablesNone(a);
      TookSame(s0, s0, d);
      while true
        invariant first <= a <= last < VPAGES && page == page0 + (a - first)
        invariant Core(S()) && IsDir(S(), d) && Mapped(s0, S(), d, first, a, page0, perm)
        invariant Took(s0, S(), d, Tables(first, a), 0)
        decreases last - a
      {
        ghost var s1 := S();
        var pgtab := Walkpgdir(d, a, true);
        ghost var s2 := S();
        MappedThenWalk(s0, s1, s2, d, first, a, page0, perm);
        if pgtab == 0 {
          TookStuck(s0, s1, d, first, a, last + 1);
          return OutOfMemory;
        }
        var pte := mem[pgtab][a % NENTRIES] by { TableSize(s2, pgtab); }
        TransIs(s2, d, a, pte);
        if Present(pte) {
          MappedOld(s0, s2, d, first, a, page0, perm);
          return Remap;
        }
        SetPteCore(s2, d, a, Entry(page, perm + PTE_P));
        EntryLaws(page, perm + PTE_P);
        mem := mem[pgtab := SetWord(mem[pgtab], a % NENTRIES, Entry(page, perm + PTE_P))];
        assert S() == SetPte(s2, d, a, Entry(page, perm + PTE_P));
        MappedOne(s0, s2, S(), d, first, a, page0, perm);
        SetPteTook(s2, S(), d, a, Entry(page, perm + PTE_P));
        TookPage(s0, s1, s2, S(), d, first, a);
        if a == last {
          break;
        }
        a := a + 1;
        page := page + 1;
      }
      return Done;
    }

    /** The process shrinks from oldsz to newsz bytes: exactly the pages past newsz go, each back to the free list. */
    method Deallocuvm(d: nat, oldsz: nat, newsz: nat) returns (r: nat)
      requires Ok(S()) && IsDir(S(), d) && oldsz <= KERNPAGE * PGSIZE
      modifies this
      ensures Ok(S())
      ensures newsz >= oldsz ==> r == oldsz && S() == old(S())
      ensures newsz < oldsz ==> r == newsz && Unmapped(old(S()), S(), d, RoundUp(newsz), RoundUp(oldsz))
      ensures mem.Keys == old(mem).Keys
    {
      hide Core, Trans, SameElse, UsersOk, UserForth, Unmapped;
      ghost var s0 := S();
      if newsz >= oldsz {
        return oldsz;
      }
      var a := RoundUp(newsz);
      ghost var first, last := a, RoundUp(oldsz);
      UnmappedNone(s0, d, a);
      while a * PGSIZE < oldsz
        invariant first <= a <= KERNPAGE && first <= last <= KERNPAGE && (a * PGSIZE < oldsz <==> a < last)
        invariant Ok(S()) && IsDir(S(), d) && mem.Keys == s0.mem.Keys
        invariant Unmapped(s0, S(), d, first, if a < last then a else last)
        decreases KERNPAGE - a
      {
        var pgtab := Walkpgdir(d, a, false);
        if pgtab == 0 {
          ghost var b := NextTable(a);
          NoTableNoPages(S(), d, a, b);
          UnmappedSkip(s0, S(), d, first, a, if b < last then b else last);
          a := (a / NENTRIES + 1) * NENTRIES - 1;
        } else {
          var pte := mem[pgtab][a % NENTRIES] by { TableSize(S(), pgtab); }
          TransIs(S(), d, a, pte);
          if Present(pte) {
            ghost var s1 := S();
            Unmap(d, a, pgtab, pte);
            UnmappedOne(s0, s1, S(), d, first, a);
          } else {
            UnmappedSkip(s0, S(), d, first, a, a + 1);
          }
        }
        a := a + 1;
      }
      return newsz;
    }

    /** One present page: freed, then its entry cleared. */
    method Unmap(d: nat, a: nat, pgtab: nat, pte: nat)
      requires Ok(S()) && IsDir(S(), d) && a < KERNPAGE && Trans(S(), d, a) == pte != 0
      requires Present(Word(S(), d, a / NENTRIES)) && pgtab == PageOf(Word(S(), d, a / NENTRIES))
      modifies this
      ensures Ok(S()) && IsDir(S(), d) && Trans(S(), d, a) == 0 && SameElse(old(S()), S(), d, a, a + 1)
      ensures role == old(role)[PageOf(pte) := Role.Free] && mem.Keys == old(mem).Keys
      ensures forall p :: p in mem && p != PageOf(pte) && !old(role)[p].Table? ==> mem[p] == old(mem)[p]
    {
      ghost var s0 := S();
      assert UserForth(s0, d, a) && d != 0;
      hide Trans, SameElse, UsersOk, UserForth, ListOk, TablesOk, Junk;
      var pa := PageOf(pte);
      PutCore(s0, pa, 0, 0);
      Kfree(pa);
      ghost var s1 := S();
      PutWalk(s0, s1, pa, d, a);
      SetPteCore(s1, d, a, 0);
      mem := mem[pgtab := SetWord(mem[pgtab], a % NENTRIES, 0)];
      assert S() == SetPte(s1, d, a, 0);
      SameElseFrom(s0, s1, S(), d, a);
      UserRemoved(s0, S(), d, a);
    }

    /** One turn of allocuvm's loop up to the clean-up: a fresh zeroed page at virtual page a, or none; then page is
        what kalloc gave, still to be freed. */
    method AllocOne(d: nat, a: nat) returns (ok: bool, page: nat)
      requires Ok(S()) && IsDir(S(), d) && a < KERNPAGE && Trans(S(), d, a) == 0
      modifies this
      ensures Ok(S()) && IsDir(S(), d) && mem.Keys == old(mem).Keys
      ensures ok ==> Grown(old(S()), S(), d, a, a + 1) && Took(old(S()), S(), d, Tables(a, a + 1), 1)
      ensures !ok ==> !Enough(old(S()), d, a, a + 1)
      ensures !ok && page == 0 ==> S() == old(S())
      ensures !ok && page != 0 ==>
                && page in role && role[page].Kernel? && page in old(role) && old(role)[page].Free?
                && SameElse(old(S()), S(), 0, 0, 0) && OnlyTables(old(S()), AsFree(S(), page), d)
    {
      hide Core, Trans, SameElse, OnlyTables, UsersOk, Mapped, Grown, SameUsers, Shape, Took, Tables, Absent;
      ghost var s0 := S();
      page := Kalloc();
      if page == 0 {
        return false, 0;
      }
      KernelWrite(S(), page, Zero());
      mem := mem[page := Zero()];
      ghost var s1 := S();
      TakenZeroed(s0, s1, page, d);
      TookUser(s0, s1, d, page);
      var r := Mappages(d, a * PGSIZE, PGSIZE, page * PGSIZE, PTE_W + PTE_U);
      ghost var s2 := S();
      match r
      case OutOfMemory =>
        NotMapped(s0, s1, s2, d, a, page);
        AbsentSum(s0, s1, d, {}, Tables(a, a + 1));
        assert {} + Tables(a, a + 1) == Tables(a, a + 1);
        return false, page;
      case Remap =>
        SameAt(s0, s1, d, a);
        assert false;
      case Done =>
        role := role[page := User(d, a)];
        GoesToUser(s0, s1, s2, S(), d, a, page);
        TookThree(s0, s1, s2, S(), d, a);
        return true, page;
    }

    /** Out of memory with the pages below a mapped: those go, then the page that could not be mapped. */
    method GiveUp(d: nat, oldsz: nat, newsz: nat, page: nat, ghost s0: Mm, ghost a: nat)
      requires Ok(s0) && Ok(S()) && IsDir(S(), d) && IsDir(s0, d) && mem.Keys == s0.mem.Keys
      requires newsz < KERNPAGE * PGSIZE && oldsz < newsz && RoundUp(oldsz) <= a <= RoundUp(newsz)
      requires forall v: nat :: RoundUp(oldsz) <= v < RoundUp(newsz) ==> Trans(s0, d, v) == 0
      requires page == 0 ==> Grown(s0, S(), d, RoundUp(oldsz), a)
      requires page != 0 ==> Grown(s0, AsFree(S(), page), d, RoundUp(oldsz), a)
                             && page in role && role[page].Kernel? && page in s0.role && s0.role[page].Free?
      modifies this
      ensures Ok(S()) && SameElse(s0, S(), d, 0, 0) && OnlyTables(s0, S(), d)
    {
      hide ListOk, TablesOk, Trans, SameElse, OnlyTables, UsersOk, Grown, Unmapped, RoundUp, Put;
      ghost var s2 := S();
      var size := Deallocuvm(d, newsz, oldsz);
      ghost var s3 := S();
      assert RoundUp(newsz) <= KERNPAGE by {
        RoundUpBound(newsz);
      }
      ShrunkHeld(s0, s2, s3, d, RoundUp(oldsz), a, RoundUp(newsz), page);
      if page != 0 {
        PutCore(s3, page, 0, 0);
        Kfree(page);
        PutHeld(s0, s3, S(), d, page);
      }
    }

    /** The process grows from oldsz to newsz bytes, on pages that mapped nothing; or it is as it was. */
    method Allocuvm(d: nat, oldsz: nat, newsz: nat) returns (r: nat)
      requires Ok(S()) && IsDir(S(), d)
      requires newsz < KERNPAGE * PGSIZE ==>
                 forall v: nat :: RoundUp(oldsz) <= v < RoundUp(newsz) ==> Trans(S(), d, v) == 0
      modifies this
      ensures Ok(S())
      ensures newsz >= KERNPAGE * PGSIZE ==> r == 0 && S() == old(S())
      ensures newsz < KERNPAGE * PGSIZE && newsz < oldsz ==> r == oldsz && S() == old(S())
      ensures newsz < KERNPAGE * PGSIZE && newsz >= oldsz && Room(old(S()), d, oldsz, newsz) ==>
                r == newsz && Grown(old(S()), S(), d, RoundUp(oldsz), RoundUp(newsz))
      ensures newsz < KERNPAGE * PGSIZE && newsz >= oldsz && !Room(old(S()), d, oldsz, newsz) ==>
                r == 0 && SameElse(old(S()), S(), d, 0, 0) && OnlyTables(old(S()), S(), d)
    {
      hide Core, Trans, SameElse, OnlyTables, UsersOk, Grown, Unmapped, Shape, Took, Tables, Enough;
      ghost var s0 := S();
      if newsz >= KERNPAGE * PGSIZE {
        return 0;
      }
      if newsz < oldsz {
        return oldsz;
      }
      var a := RoundUp(oldsz);
      ghost var first, last := a, RoundUp(newsz);
      GrownNone(s0, d, a);
      TablesNone(a);
      TookSame(s0, s0, d);
      while a * PGSIZE < newsz
        invariant first <= a <= last <= KERNPAGE && (a * PGSIZE < newsz <==> a < last)
        invariant Ok(S()) && IsDir(S(), d) && Grown(s0, S(), d, first, a)
        invariant Took(s0, S(), d, Tables(first, a), a - first)
        decreases last - a
      {
        ghost var s1 := S();
        GrownOld(s0, s1, d, first, a);
        var ok, page := AllocOne(d, a);
        if !ok {
          ghost var s2 := S();
          GrownHeld(s0, s1, s2, d, first, a, page);
          RolesKeys(s0, s1, d, first, a);
          GiveUp(d, oldsz, newsz, page, s0, a);
          TookShort(s0, s1, d, first, a, last);
          return 0;
        }
        GrownMore(s0, s1, S(), d, first, a);
        TookMore(s0, s1, S(), d, first, a);
        a := a + 1;
      }
      TookAll(s0, S(), d, first, last);
      return newsz;
    }

    /** The process asks for n more bytes. Its size and the pages it has are what Sbrk says, with enough memory exactly
        when there is room. No other address space changes. */
    method Growproc(d: nat, sz: nat, n: int) returns (r: int, size: nat)
      requires Ok(S()) && IsDir(S(), d) && sz < Sbrk.KERNBASE && -Sbrk.KERNBASE <= n < Sbrk.KERNBASE
      requires Backed(S(), d, sz)
      modifies this
      ensures Ok(S()) && IsDir(S(), d) && SameElse(old(S()), S(), d, 0, KERNPAGE)
      ensures var a := Sbrk.Growproc(Sbrk.Space(sz, sz), n, Room(old(S()), d, sz, (sz + n) % Sbrk.W32));
              r == a.ret && size == a.space.sz && Backed(S(), d, a.space.mapped)
    {
      hide Ok, Trans, SameElse, OnlyTables, Grown, Unmapped, RoundUp, Backed, Room;
      ghost var s0 := S();
      size := sz;
      var newsz := (sz + n) % Sbrk.W32;
      BackedNone(s0, d, sz, newsz);
      if n > 0 {
        size := Allocuvm(d, sz, newsz);
        if size == 0 {
          BackedSame(s0, S(), d, sz);
          return -1, sz;
        }
        BackedGrown(s0, S(), d, sz, newsz);
      } else if n < 0 {
        size := Deallocuvm(d, sz, newsz);
        if newsz < sz {
          BackedShrunk(s0, S(), d, sz, newsz);
        }
        if size == 0 {
          return -1, sz;
        }
      }
      r := 0;
    }

    /** All of an address space: user pages, tables, directory; each page back to the list, once. */
    method Freevm(d: nat)
      requires Ok(S()) && IsDir(S(), d)
      modifies this
      ensures Ok(S()) && Released(old(S()), S(), d) && SameElse(old(S()), S(), d, 0, VPAGES)
    {
      hide Trans, SameElse, UsersOk, ListOk, TablesOk, Unmapped, Put, TablesGone, Released;
      ghost var s0 := S();
      var size := Deallocuvm(d, KERNPAGE * PGSIZE, 0);
      ghost var s1 := S();
      Emptied(s0, s1, d);
      FreeTables(d);
      ghost var s2 := S();
      DirFreed(s2, d);
      Kfree(d);
      AllReleased(s0, s1, s2, S(), d);
    }

    /** The loop of freevm over the directory. */
    method FreeTables(d: nat)
      requires Shape(S()) && ListOk(S()) && TablesOk(S(), d, 0) && UsersOk(S(), d) && IsDir(S(), d)
      modifies this
      ensures Shape(S()) && ListOk(S()) && TablesOk(S(), d, NENTRIES) && UsersOk(S(), d) && IsDir(S(), d)
      ensures SameElse(old(S()), S(), d, 0, VPAGES) && TablesGone(old(S()), S(), d, NENTRIES)
    {
      hide Trans, SameElse, UsersOk, ListOk, TablesOk, Put, TablesGone;
      ghost var s1 := S();
      SameElseRefl(s1, d);
      var i := 0;
      while i < NENTRIES
        invariant i <= NENTRIES
        invariant Shape(S()) && ListOk(S()) && TablesOk(S(), d, i) && UsersOk(S(), d) && IsDir(S(), d)
        invariant SameElse(s1, S(), d, 0, VPAGES) && TablesGone(s1, S(), d, i)
      {
        ghost var s2 := S();
        if Present(mem[d][i]) {
          var v := PageOf(mem[d][i]);
          TableFreed(s2, d, i);
          Kfree(v);
          OneTableGone(s1, s2, S(), d, i, v);
        } else {
          NoTable(s2, d, i);
          NoTableGone(s1, s2, d, i);
        }
        i := i + 1;
      }
    }

    /** A directory that maps the kernel and nothing else; when pages run out, every page is where it was. */
    method Setupkvm() returns (d: nat)
      requires Ok(S()) && EXTPAGE < data < hi && KERNPAGE + hi <= DEVPAGE
      modifies this
      ensures Ok(S()) && SameElse(old(S()), S(), d, 0, VPAGES)
      ensures d == 0 <==> |old(free)| < 1 + KernTables(hi)
      ensures d == 0 ==> forall p :: p in old(role) ==> p in role && role[p] == old(role)[p]
      ensures d != 0 ==>
                && d in old(role) && old(role)[d].Free? && IsDir(S(), d)
                && (forall v: nat :: v < VPAGES ==> Trans(S(), d, v) == KernelEntry(data, hi, v))
                && (forall p :: p in old(role) && p != d ==>
                      && p in role
                      && (role[p] == old(role)[p] || (old(role)[p].Free? && role[p].Table? && role[p].d == d)))
    {
      hide Core, Trans, SameElse, UsersOk, OnlyTables, Mapped, Released, UpTo, Took, Tables, Absent, RowTables,
        KernTables, Kmaps;
      ghost var s0 := S();
      d := Kalloc();
      if d == 0 {
        SameElseRefl(s0, 0);
        return;
      }
      KernelWrite(S(), d, Zero());
      mem := mem[d := Zero()];
      BecomesDir(s0, S(), d);
      role := role[d := Dir];
      ghost var s1 := S();
      var kmap := Kmaps(data, hi);
      var k := 0;
      OnlyTablesRefl(s1, d);
      UpToNone(s1, d);
      NewDirTook(s1, d, kmap);
      RowsCount(data, hi);
      RowsOk(data, hi);
      AllAbsent(s1, d, RowTables(kmap, 4));
      while k < |kmap|
        invariant k <= |kmap| == 4 && kmap == Kmaps(data, hi)
        invariant Ok(S()) && IsDir(S(), d) && SameElse(s1, S(), d, KERNPAGE, VPAGES) && OnlyTables(s1, S(), d)
        invariant UpTo(S(), d, kmap, k) && Took(s1, S(), d, RowTables(kmap, k), 0)
      {
        ghost var s2 := S();
        var row := kmap[k];
        RowPages(row);
        var r := Mappages(d, row.virt * PGSIZE, row.count * PGSIZE, row.phys * PGSIZE, row.perm);
        KernelPart(s1, s2, S(), d, kmap, k, r);
        RowTook(s1, s2, S(), d, kmap, k, r);
        if r.Remap? {
          assert false;
        }
        if r.OutOfMemory? {
          ghost var s3 := S();
          Freevm(d);
          Undone(s0, s1, s3, S(), d);
          return 0;
        }
        k := k + 1;
      }
      KernelDone(s0, s1, S(), d, data, hi);
      RowsDone(s1, S(), d, RowTables(kmap, 4));
    }
  }

  lemma NothingMade(s: Mm, d: nat)
    requires Core(s)
    ensures OnlyTables(s, s, d) && SameElse(s, s, 0, 0, 0)
  {}

  /** The page taken, zeroed and entered in the directory. */
  lemma TableMade(s: Mm, z: Mm, t: Mm, d: nat, i: nat, p: nat)
    requires Core(s) && IsDir(s, d) && i < NENTRIES && !HasTable(s, d, i) && s.free != [] && p == s.free[0]
    requires z == Take(s).(mem := Take(s).mem[p := Zero()]) && d in z.mem && |z.mem[d]| == NENTRIES
    requires t == NewTable(z, d, i, p)
    requires SameElse(s, Take(s), 0, 0, 0) && SameElse(Take(s), z, 0, 0, 0) && SameElse(z, t, 0, 0, 0)
    ensures SameElse(s, t, 0, 0, 0) && OnlyTables(s, t, d) && Took(s, t, d, {i}, 0)
    ensures HasTable(t, d, i) && PageOf(Word(t, d, i)) == p && p in t.mem
  {
    hide Trans, TablesOk, Took, Zero;
    assert p in s.free;
    assert p != d;
    EntryLaws(p, PTE_P + PTE_W + PTE_U);
    TookTable(s, t, d, i, p);
    assert forall e :: IsDir(s, e) ==> IsDir(Take(s), e) && IsDir(z, e);
    SameElseTwice(s, Take(s), z);
    SameElseTwice(s, z, t);
  }

  /** There is memory for a process to grow from oldsz to newsz bytes. */
  predicate Room(s: Mm, d: nat, oldsz: nat, newsz: nat) {
    newsz < oldsz || (RoundUp(oldsz) <= RoundUp(newsz) && Enough(s, d, RoundUp(oldsz), RoundUp(newsz)))
  }

  /** The tables of every kernel mapping: those for the pages below PHYSTOP and those for the devices. */
  function KernTables(hi: nat): nat {
    (hi + NENTRIES - 1) / NENTRIES + (VPAGES - DEVPAGE) / NENTRIES
  }

  function RowTables(kmap: seq<Kmap>, k: nat): set<nat>
    requires k <= |kmap|
  {
    if k == 0 then {} else RowTables(kmap, k - 1) + Tables(kmap[k - 1].virt, kmap[k - 1].virt + kmap[k - 1].count)
  }

  /** One entry of a table of d changes: no directory entry does. */
  lemma SetPteTook(s: Mm, t: Mm, d: nat, v: nat, w: nat)
    requires Core(s) && IsDir(s, d) && v < VPAGES && Present(Word(s, d, v / NENTRIES)) && t == SetPte(s, d, v, w)
    ensures Took(s, t, d, {}, 0)
  {
    assert InForce(d, v / NENTRIES, 0, 0) && TableForth(s, d, v / NENTRIES);
    TookSame(s, t, d);
  }

  /** A page taken and zeroed. */
  lemma TookUser(s: Mm, t: Mm, d: nat, p: nat)
    requires s.free != [] && t.free == s.free[1..] && p != d && t.mem.Keys == s.mem.Keys
    requires forall q :: q in s.mem && q != p ==> t.mem[q] == s.mem[q]
    ensures Took(s, t, d, {}, 1)
  {
    assert Absent(s, d, {}) == {};
    assert forall i: nat :: Word(t, d, i) == Word(s, d, i);
  }

  lemma TookThree(s: Mm, t: Mm, u: Mm, w: Mm, d: nat, a: nat)
    requires Took(s, t, d, {}, 1) && Took(t, u, d, Tables(a, a + 1), 0) && w.free == u.free && w.mem == u.mem
    ensures Took(s, w, d, Tables(a, a + 1), 1)
  {
    hide Tables, Took;
    TookSame(u, w, d);
    TookThen(s, t, u, d, {}, 1, Tables(a, a + 1), 0);
    TookThen(s, u, w, d, {} + Tables(a, a + 1), 1, {}, 0);
    assert {} + Tables(a, a + 1) + {} == Tables(a, a + 1);
  }

  /** A new directory has no table. */
  lemma NewDirTook(s: Mm, d: nat, kmap: seq<Kmap>)
    ensures Took(s, s, d, RowTables(kmap, 0), 0)
  {
    TookSame(s, s, d);
  }

  lemma RowsDone(s: Mm, t: Mm, d: nat, ts: set<nat>)
    requires Took(s, t, d, ts, 0)
    ensures |Absent(s, d, ts)| <= |s.free|
  {}

  lemma RowTook(s: Mm, t: Mm, u: Mm, d: nat, kmap: seq<Kmap>, k: nat, r: MapResult)
    requires k < |kmap| && Took(s, t, d, RowTables(kmap, k), 0)
    requires var row := Tables(kmap[k].virt, kmap[k].virt + kmap[k].count);
             && (r.Done? ==> Took(t, u, d, row, 0))
             && (r.OutOfMemory? ==> |Absent(t, d, row)| > |t.free|)
    ensures r.Done? ==> Took(s, u, d, RowTables(kmap, k + 1), 0)
    ensures r.OutOfMemory? ==> |Absent(s, d, RowTables(kmap, |kmap|))| > |s.free|
  {
    hide Tables;
    var row := Tables(kmap[k].virt, kmap[k].virt + kmap[k].count);
    if r.Done? {
      TookThen(s, t, u, d, RowTables(kmap, k), 0, row, 0);
    }
    AbsentSum(s, t, d, RowTables(kmap, k), row);
    RowTablesMore(kmap, k + 1, |kmap|);
    AbsentMore(s, d, RowTables(kmap, k + 1), RowTables(kmap, |kmap|));
  }

  lemma RowsOk(data: nat, hi: nat)
    requires EXTPAGE < data < hi && KERNPAGE + hi <= DEVPAGE
    ensures |Kmaps(data, hi)| == 4 && RowsApart(Kmaps(data, hi))
    ensures forall k :: 0 <= k < 4 ==> var m := Kmaps(data, hi)[k];
              m.count > 0 && m.virt + m.count <= VPAGES && (m.perm == 0 || m.perm == PTE_W)
  {}

  lemma RowPages(m: Kmap)
    requires m.count > 0
    ensures m.virt * PGSIZE / PGSIZE == m.virt && m.phys * PGSIZE / PGSIZE == m.phys
    ensures (m.virt * PGSIZE + m.count * PGSIZE - 1) / PGSIZE + 1 == m.virt + m.count
  {}

  /** The first three rows are one stretch. */
  lemma RowsJoined(data: nat, hi: nat)
    requires EXTPAGE < data < hi && KERNPAGE + hi <= DEVPAGE
    ensures RowTables(Kmaps(data, hi), 4) == Tables(KERNPAGE, KERNPAGE + hi) + Tables(DEVPAGE, VPAGES)
  {
    hide Tables;
    var kmap := Kmaps(data, hi);
    assert RowTables(kmap, 0) == {};
    assert RowTables(kmap, 1) == {} + Tables(KERNPAGE, KERNPAGE + EXTPAGE);
    assert RowTables(kmap, 2) == RowTables(kmap, 1) + Tables(KERNPAGE + EXTPAGE, KERNPAGE + data);
    assert RowTables(kmap, 3) == RowTables(kmap, 2) + Tables(KERNPAGE + data, KERNPAGE + hi);
    assert RowTables(kmap, 4) == RowTables(kmap, 3) + Tables(DEVPAGE, VPAGES);
    TablesThen(KERNPAGE, KERNPAGE + EXTPAGE, KERNPAGE + data);
    TablesThen(KERNPAGE, KERNPAGE + data, KERNPAGE + hi);
  }

  lemma PartCount(hi: nat)
    ensures (KERNPAGE + hi - 1) / NENTRIES == KERNPAGE / NENTRIES + (hi + NENTRIES - 1) / NENTRIES - 1
  {}

  /** The devices have tables of their own. */
  lemma RowsCount(data: nat, hi: nat)
    requires EXTPAGE < data < hi && KERNPAGE + hi <= DEVPAGE
    ensures |RowTables(Kmaps(data, hi), 4)| == KernTables(hi)
  {
    hide Tables, RowTables, Kmaps;
    RowsJoined(data, hi);
    PartCount(hi);
    var a, b := Tables(KERNPAGE, KERNPAGE + hi), Tables(DEVPAGE, VPAGES);
    TablesSize(KERNPAGE, KERNPAGE + hi);
    TablesSize(DEVPAGE, VPAGES);
    assert a !! b by {
      assert (KERNPAGE + hi - 1) / NENTRIES < DEVPAGE / NENTRIES;
    }
    assert |a + b| == |a| + |b|;
  }

  lemma {:induction false} RowTablesMore(kmap: seq<Kmap>, k: nat, n: nat)
    requires k <= n <= |kmap|
    ensures RowTables(kmap, k) <= RowTables(kmap, n)
  {
    if k < n {
      RowTablesMore(kmap, k, n - 1);
    }
  }

  /** Part way through freerange: pages first up to p have gone to the list, and nothing else changed hands. */
  ghost predicate Freed(s0: Mm, s: Mm, first: nat, p: nat) {
    && Shape(s) && ListOk(s) && s.role.Keys == s0.role.Keys && (Ok(s0) ==> Ok(s) && SameElse(s0, s, 0, 0, 0))
    && forall q :: q in s.role ==> s.role[q] == if first <= q < p then Role.Free else s0.role[q]
  }

  lemma FreedAll(s0: Mm, s: Mm, first: nat, p: nat)
    requires Freed(s0, s, first, p)
    ensures Shape(s) && ListOk(s) && (Ok(s0) ==> Ok(s) && SameElse(s0, s, 0, 0, 0))
    ensures forall q :: q in s.role <==> q in s0.role
    ensures forall q :: q in s.role ==> s.role[q] == if first <= q < p then Role.Free else s0.role[q]
  {}

  lemma FreedOne(s0: Mm, s: Mm, first: nat, p: nat)
    requires Freed(s0, s, first, p) && first <= p && p in s0.role && s0.role[p].Kernel?
    requires forall q :: first <= q < p && q in s0.role ==> s0.role[q].Kernel?
    ensures Shape(s) && ListOk(s) && p in s.role && s.role[p].Kernel?
    ensures Freed(s0, Put(s, p), first, p + 1)
  {
    hide Ok, Shape, ListOk, SameElse, Junk;
    PutKeeps(s, p);
    if Ok(s0) {
      forall e ensures IsDir(s0, e) <==> IsDir(s, e) {}
      KernelPut(s0, s, p);
    }
  }

  lemma KernelPut(s0: Mm, s: Mm, p: nat)
    requires Ok(s) && SameElse(s0, s, 0, 0, 0) && p in s.role && s.role[p].Kernel?
    requires forall e :: IsDir(s0, e) <==> IsDir(s, e)
    ensures Ok(Put(s, p)) && SameElse(s0, Put(s, p), 0, 0, 0)
  {
    hide Trans, TablesOk, ListOk, UserForth, UserBack;
    PutCore(s, p, 0, 0);
    forall e, v: nat | IsDir(s, e) && v < VPAGES ensures Trans(Put(s, p), e, v) == Trans(s, e, v) {
      assert InForce(e, v / NENTRIES, 0, 0);
    }
    UsersKept(s, Put(s, p), 0);
  }

  /** The user pages of d are those the first n bytes touch. */
  ghost predicate Backed(s: Mm, d: nat, n: nat) {
    forall v: nat :: v < KERNPAGE ==> (Trans(s, d, v) != 0 <==> v < RoundUp(n))
  }

  lemma BackedNone(s: Mm, d: nat, n: nat, m: nat)
    requires Backed(s, d, n)
    ensures SameElse(s, s, d, 0, KERNPAGE)
    ensures m < KERNPAGE * PGSIZE ==> forall v: nat :: RoundUp(n) <= v < RoundUp(m) ==> Trans(s, d, v) == 0
  {}

  lemma BackedSame(s: Mm, t: Mm, d: nat, n: nat)
    requires Backed(s, d, n) && IsDir(s, d) && SameElse(s, t, d, 0, 0) && OnlyTables(s, t, d)
    ensures Backed(t, d, n) && IsDir(t, d) && SameElse(s, t, d, 0, KERNPAGE)
  {}

  lemma BackedGrown(s: Mm, t: Mm, d: nat, n: nat, m: nat)
    requires Backed(s, d, n) && IsDir(s, d) && n <= m < KERNPAGE * PGSIZE && Grown(s, t, d, RoundUp(n), RoundUp(m))
    ensures Backed(t, d, m) && IsDir(t, d) && SameElse(s, t, d, 0, KERNPAGE)
  {
    hide Trans;
    forall v: nat | v < KERNPAGE ensures Trans(t, d, v) != 0 <==> v < RoundUp(m) {
      if RoundUp(n) <= v < RoundUp(m) {
        assert FreshAt(s, t, d, v);
      }
    }
  }

  lemma BackedShrunk(s: Mm, t: Mm, d: nat, n: nat, m: nat)
    requires Backed(s, d, n) && IsDir(s, d) && m < n < KERNPAGE * PGSIZE && Unmapped(s, t, d, RoundUp(m), RoundUp(n))
    ensures Backed(t, d, m) && IsDir(t, d) && SameElse(s, t, d, 0, KERNPAGE)
  {}

  function Kmaps(data: nat, hi: nat): seq<Kmap>
    requires EXTPAGE < data < hi
  {
    [Kmap(KERNPAGE, 0, EXTPAGE, PTE_W),
     Kmap(KERNPAGE + EXTPAGE, EXTPAGE, data - EXTPAGE, 0),
     Kmap(KERNPAGE + data, data, hi - data, PTE_W),
     Kmap(DEVPAGE, DEVPAGE, VPAGES - DEVPAGE, PTE_W)]
  }

  /** What the kernel's part of every address space maps virtual page v to. */
  function KernelEntry(data: nat, hi: nat, v: nat): nat {
    if v < KERNPAGE then 0
    else if v < KERNPAGE + EXTPAGE then Entry(v - KERNPAGE, PTE_W + PTE_P)
    else if v < KERNPAGE + data then Entry(v - KERNPAGE, PTE_P)
    else if v < KERNPAGE + hi then Entry(v - KERNPAGE, PTE_W + PTE_P)
    else if v < DEVPAGE then 0
    else Entry(v, PTE_W + PTE_P)
  }

  /** The first k rows are mapped, and nothing else. */
  ghost predicate UpTo(s: Mm, d: nat, kmap: seq<Kmap>, k: nat) {
    && k <= |kmap|
    && (forall j: nat, v: nat :: j < k && InRow(kmap[j], v) ==>
                         Trans(s, d, v) == Entry(kmap[j].phys + v - kmap[j].virt, kmap[j].perm + PTE_P))
    && (forall v: nat :: v < VPAGES && OutsideAll(kmap, k, v) ==> Trans(s, d, v) == 0)
  }

  predicate OutsideAll(kmap: seq<Kmap>, k: nat, v: nat) {
    forall j :: 0 <= j < k && j < |kmap| ==> !InRow(kmap[j], v)
  }

  ghost predicate TablesGone(s: Mm, t: Mm, d: nat, i: nat) {
    && t.role.Keys == s.role.Keys
    && (forall p :: p in s.role ==>
          t.role[p] == if s.role[p].Table? && s.role[p].d == d && s.role[p].i < i then Role.Free else s.role[p])
  }

  lemma SameElseRefl(s: Mm, d: nat)
    ensures SameElse(s, s, d, 0, VPAGES) && TablesGone(s, s, d, 0)
  {}

  lemma Emptied(s: Mm, t: Mm, d: nat)
    requires Ok(s) && Ok(t) && Unmapped(s, t, d, RoundUp(0), RoundUp(KERNPAGE * PGSIZE)) && IsDir(s, d)
    ensures UsersOk(t, d) && TablesOk(t, d, 0) && IsDir(t, d) && SameElse(s, t, d, 0, VPAGES)
    ensures forall p :: p in s.role ==>
              p in t.role && t.role[p] == if s.role[p].User? && s.role[p].d == d then Role.Free else s.role[p]
    ensures t.role.Keys == s.role.Keys
  {
    hide Trans;
    assert RoundUp(KERNPAGE * PGSIZE) == KERNPAGE;
    NoUsers(t, d);
    forall p | p in s.role && s.role[p].User? ensures s.role[p].v < KERNPAGE {
      UserHolds(s, p);
    }
  }

  lemma OneTableGone(s: Mm, t: Mm, u: Mm, d: nat, i: nat, p: nat)
    requires TablesGone(s, t, d, i) && SameElse(s, t, d, 0, VPAGES) && SameElse(t, u, d, 0, VPAGES)
    requires p in t.role && t.role[p] == Table(d, i) && u.role == t.role[p := Role.Free] && p != d && IsDir(t, d)
    requires TablesOk(t, d, i)
    ensures TablesGone(s, u, d, i + 1) && SameElse(s, u, d, 0, VPAGES) && IsDir(u, d)
  {}

  lemma NoTableGone(s: Mm, t: Mm, d: nat, i: nat)
    requires TablesGone(s, t, d, i) && TablesOk(t, d, i + 1)
    ensures TablesGone(s, t, d, i + 1)
  {}

  lemma AllReleased(s: Mm, t: Mm, u: Mm, w: Mm, d: nat)
    requires forall p :: p in s.role ==>
              p in t.role && t.role[p] == if s.role[p].User? && s.role[p].d == d then Role.Free else s.role[p]
    requires t.role.Keys == s.role.Keys && TablesGone(t, u, d, NENTRIES) && TablesOk(t, d, 0)
    requires w.role == u.role[d := Role.Free] && IsDir(s, d)
    requires SameElse(s, t, d, 0, VPAGES) && SameElse(t, u, d, 0, VPAGES) && SameElse(u, w, d, 0, VPAGES)
    ensures Released(s, w, d) && SameElse(s, w, d, 0, VPAGES)
  {}

  lemma BecomesDir(s: Mm, t: Mm, d: nat)
    requires Ok(s) && s.free != [] && d == s.free[0] && Core(t)
    requires t == Take(s).(mem := Take(s).mem[d := Zero()])
    requires SameElse(s, Take(s), 0, 0, 0) && SameElse(Take(s), t, 0, 0, 0)
    ensures var u := t.(role := t.role[d := Dir]);
            && Ok(u) && IsDir(u, d) && u.role == s.role[d := Dir] && d in s.role && s.role[d].Free?
            && (forall v: nat :: v < VPAGES ==> Trans(u, d, v) == 0) && SameElse(s, u, d, 0, VPAGES)
  {
    var u := t.(role := t.role[d := Dir]);
    hide Trans, UsersOk, TablesOk, Word;
    assert d in s.free;
    TakenRoles(s, t, d, d);
    SameElseTwice(s, Take(s), t);
    UsersKept(s, t, 0);
    NewDir(t, d);
    assert forall e :: IsDir(s, e) ==> IsDir(t, e);
  }

  lemma OnlyTablesRefl(s: Mm, d: nat)
    requires Ok(s)
    ensures s.mem.Keys == s.role.Keys && OnlyTables(s, s, d) && SameElse(s, s, d, KERNPAGE, VPAGES)
  {}

  lemma UpToNone(s: Mm, d: nat)
    requires forall v: nat :: v < VPAGES ==> Trans(s, d, v) == 0
    ensures forall kmap: seq<Kmap> :: UpTo(s, d, kmap, 0)
  {}

  lemma KernelPart(s: Mm, t: Mm, u: Mm, d: nat, kmap: seq<Kmap>, k: nat, r: MapResult)
    requires Ok(t) && Core(u) && IsDir(t, d) && SameElse(s, t, d, KERNPAGE, VPAGES) && OnlyTables(s, t, d)
    requires UpTo(t, d, kmap, k) && k < |kmap| && RowsApart(kmap) && s.mem.Keys == s.role.Keys
    requires kmap[k].count > 0
    requires var m := kmap[k]; var a, n := m.virt, m.virt + m.count - 1;
             && (r.Done? ==> Mapped(t, u, d, a, n + 1, m.phys, m.perm))
             && (r.OutOfMemory? ==> exists j :: a <= j <= n && Mapped(t, u, d, a, j, m.phys, m.perm))
             && (r.Remap? ==> exists v :: a <= v <= n && Trans(t, d, v) != 0)
    ensures !r.Remap?
    ensures Ok(u) && IsDir(u, d) && SameElse(s, u, d, KERNPAGE, VPAGES) && OnlyTables(s, u, d)
    ensures r.Done? ==> UpTo(u, d, kmap, k + 1)
  {
    hide Trans, Core, UsersOk;
    var m := kmap[k];
    forall v: nat | m.virt <= v < m.virt + m.count ensures Trans(t, d, v) == 0 {
      assert InRow(m, v);
      assert OutsideAll(kmap, k, v);
    }
    var j: nat :| m.virt <= j <= m.virt + m.count && Mapped(t, u, d, m.virt, j, m.phys, m.perm)
                  && (r.Done? ==> j == m.virt + m.count);
    KernelMapped(s, t, u, d, m.virt, j, m.phys, m.perm);
    if r.Done? {
      UpToMore(t, u, d, kmap, k);
    }
  }

  predicate InRow(m: Kmap, v: nat) {
    m.virt <= v < m.virt + m.count
  }

  ghost predicate RowsApart(kmap: seq<Kmap>) {
    && (forall i, j, v: nat :: 0 <= i < j < |kmap| && InRow(kmap[j], v) ==> !InRow(kmap[i], v))
    && (forall j :: 0 <= j < |kmap| ==> KERNPAGE <= kmap[j].virt && kmap[j].virt + kmap[j].count <= VPAGES)
  }

  lemma KernelMapped(s: Mm, t: Mm, u: Mm, d: nat, a: nat, b: nat, page: nat, perm: nat)
    requires Ok(t) && Core(u) && IsDir(t, d) && SameElse(s, t, d, KERNPAGE, VPAGES) && OnlyTables(s, t, d)
    requires KERNPAGE <= a <= b <= VPAGES && Mapped(t, u, d, a, b, page, perm) && s.mem.Keys == s.role.Keys
    ensures UsersOk(u, 0) && IsDir(u, d) && SameElse(s, u, d, KERNPAGE, VPAGES) && OnlyTables(s, u, d)
  {
    hide Trans, Core, UsersOk;
    assert forall e :: IsDir(s, e) ==> IsDir(t, e);
    OnlyTablesThen(s, t, u, d);
    OnlyTablesUsers(t, u, d);
    UsersKept(t, u, 0);
  }

  lemma UpToMore(t: Mm, u: Mm, d: nat, kmap: seq<Kmap>, k: nat)
    requires UpTo(t, d, kmap, k) && k < |kmap| && RowsApart(kmap) && IsDir(t, d)
    requires Mapped(t, u, d, kmap[k].virt, kmap[k].virt + kmap[k].count, kmap[k].phys, kmap[k].perm)
    ensures UpTo(u, d, kmap, k + 1)
  {}

  lemma Undone(s: Mm, t: Mm, u: Mm, w: Mm, d: nat)
    requires Ok(s) && d in s.role && s.role[d].Free? && t.role == s.role[d := Dir] && OnlyTables(t, u, d)
    requires Released(u, w, d)
    requires SameElse(s, t, d, 0, VPAGES) && SameElse(t, u, d, KERNPAGE, VPAGES) && SameElse(u, w, d, 0, VPAGES)
    ensures forall p :: p in s.role ==> p in w.role && w.role[p] == s.role[p]
    ensures SameElse(s, w, 0, 0, VPAGES)
  {
    hide Trans;
    forall p | p in s.role && (s.role[p].Table? || s.role[p].User?) ensures !OwnedBy(s.role[p], d) {
      if s.role[p].Table? {
        assert TableBack(s, 0, 0, p);
      } else {
        UserHolds(s, p);
      }
    }
    assert forall e :: IsDir(s, e) ==> e != d && IsDir(t, e) && IsDir(u, e);
  }

  lemma KernelDone(s: Mm, t: Mm, u: Mm, d: nat, data: nat, hi: nat)
    requires EXTPAGE < data < hi && KERNPAGE + hi <= DEVPAGE && UpTo(u, d, Kmaps(data, hi), 4)
    requires d in s.role && t.role == s.role[d := Dir] && OnlyTables(t, u, d)
    requires SameElse(s, t, d, 0, VPAGES) && SameElse(t, u, d, KERNPAGE, VPAGES)
    ensures forall v: nat :: v < VPAGES ==> Trans(u, d, v) == KernelEntry(data, hi, v)
    ensures SameElse(s, u, d, 0, VPAGES)
    ensures forall p :: p in s.role && p != d ==>
              && p in u.role
              && (u.role[p] == s.role[p] || (s.role[p].Free? && u.role[p].Table? && u.role[p].d == d))
  {
    hide Trans, Entry;
    var kmap := Kmaps(data, hi);
    forall v: nat | v < VPAGES ensures Trans(u, d, v) == KernelEntry(data, hi, v) {
      var j := if v < KERNPAGE then 4 else if v < KERNPAGE + EXTPAGE then 0 else if v < KERNPAGE + data then 1
               else if v < KERNPAGE + hi then 2 else if v < DEVPAGE then 4 else 3;
      if j == 4 {
        assert OutsideAll(kmap, 4, v);
      } else {
        assert InRow(kmap[j], v);
      }
    }
    assert forall e :: IsDir(s, e) ==> IsDir(t, e);
  }

  function AsFree(s: Mm, p: nat): Mm {
    s.(role := s.role[p := Role.Free])
  }

  lemma RoundUpBound(n: nat)
    requires n < KERNPAGE * PGSIZE
    ensures RoundUp(n) <= KERNPAGE
  {}

  lemma RolesKeys(s: Mm, t: Mm, d: nat, a: nat, b: nat)
    requires Grown(s, t, d, a, b)
    ensures t.mem.Keys == s.mem.Keys && t.role.Keys == s.role.Keys
    ensures forall p :: p in t.role && t.role[p].Free? ==> s.role[p].Free?
  {}

  lemma SameAt(s: Mm, t: Mm, d: nat, v: nat)
    requires SameElse(s, t, 0, 0, 0) && IsDir(s, d) && v < VPAGES
    ensures Trans(t, d, v) == Trans(s, d, v)
  {}

  lemma TakenZeroed(s: Mm, t: Mm, p: nat, d: nat)
    requires Ok(s) && s.free != [] && p == s.free[0] && IsDir(s, d)
    requires t == Take(s).(mem := Take(s).mem[p := Zero()]) && Core(t)
    requires SameElse(s, Take(s), 0, 0, 0) && SameElse(Take(s), t, 0, 0, 0)
    ensures UsersOk(t, 0) && IsDir(t, d) && SameElse(s, t, 0, 0, 0) && p in s.role && s.role[p].Free?
    ensures OnlyTables(s, AsFree(t, p), d) && t.role == s.role[p := Kernel] && t.mem.Keys == s.mem.Keys
    ensures forall q :: q in s.mem && q != p ==> t.mem[q] == s.mem[q]
  {
    assert p in s.free && IsDir(t, d);
    hide Trans, UsersOk, ListOk, TablesOk, Shape, Word;
    TakenRoles(s, t, p, d);
    SameElseTwice(s, Take(s), t);
    hide SameUsers, OnlyTables;
    UsersKept(s, t, 0);
  }

  lemma SameElseTwice(s: Mm, t: Mm, u: Mm)
    requires SameElse(s, t, 0, 0, 0) && SameElse(t, u, 0, 0, 0) && forall e :: IsDir(s, e) ==> IsDir(t, e)
    ensures SameElse(s, u, 0, 0, 0)
  {}

  lemma TakenRoles(s: Mm, t: Mm, p: nat, d: nat)
    requires p in s.role && s.role[p].Free? && t.role == s.role[p := Kernel] && p in s.mem
    requires t.mem == s.mem[p := Zero()]
    ensures SameUsers(s, t) && OnlyTables(s, AsFree(t, p), d)
  {}

  lemma NotMapped(s: Mm, t: Mm, u: Mm, d: nat, a: nat, p: nat)
    requires Ok(s) && Ok(t) && Core(u) && IsDir(s, d) && a < KERNPAGE && p in s.role && s.role[p].Free?
    requires SameElse(s, t, 0, 0, 0) && t.role == s.role[p := Kernel] && OnlyTables(s, AsFree(t, p), d)
    requires exists k :: a <= k <= a && Mapped(t, u, d, a, k, p, 6)
    ensures UsersOk(u, 0) && IsDir(u, d) && u.mem.Keys == s.mem.Keys && p in u.role && u.role[p].Kernel?
    ensures SameElse(s, u, 0, 0, 0) && OnlyTables(s, AsFree(u, p), d)
  {
    hide Trans, UsersOk, ListOk, TablesOk, Word;
    assert Mapped(t, u, d, a, a, p, 6);
    assert forall e :: IsDir(s, e) ==> IsDir(t, e);
    OnlyTablesUsers(t, u, d);
    SameElseNone(t, u, d, a);
    SameElseTwice(s, t, u);
    StillFree(s, t, u, p, d);
    assert u.mem.Keys == s.mem.Keys && IsDir(u, d);
    hide SameUsers, OnlyTables, Shape, Mapped;
    UsersKept(t, u, 0);
  }

  lemma SameElseNone(s: Mm, t: Mm, d: nat, a: nat)
    requires SameElse(s, t, d, a, a)
    ensures SameElse(s, t, 0, 0, 0)
  {}

  lemma StillFree(s: Mm, t: Mm, u: Mm, p: nat, d: nat)
    requires p in s.role && s.role[p].Free? && t.role == s.role[p := Kernel] && OnlyTables(s, AsFree(t, p), d)
    requires OnlyTables(t, u, d) && s.mem.Keys == s.role.Keys && t.mem.Keys == s.mem.Keys
    ensures OnlyTables(s, AsFree(u, p), d) && u.role[p].Kernel?
  {}

  lemma GoesToUser(s: Mm, t: Mm, u: Mm, w: Mm, d: nat, a: nat, p: nat)
    requires Ok(s) && Ok(t) && Core(u) && IsDir(s, d) && IsDir(t, d) && a < KERNPAGE && p in s.role && s.role[p].Free?
    requires SameElse(s, t, 0, 0, 0) && t.role == s.role[p := Kernel] && t.mem.Keys == s.mem.Keys && p in t.mem
              && t.mem[p] == Zero()
    requires forall q :: q in s.mem && q != p ==> t.mem[q] == s.mem[q]
    requires Mapped(t, u, d, a, a + 1, p, 6) && w == u.(role := u.role[p := User(d, a)])
    ensures Ok(w) && IsDir(w, d) && w.mem.Keys == s.mem.Keys && Grown(s, w, d, a, a + 1)
  {
    UserRole(u, p, d, a);
    EntryLaws(p, 7);
    hide Trans, UsersOk, ListOk, TablesOk;
    assert forall e :: IsDir(s, e) ==> IsDir(t, e);
    GoesToUserUsers(t, u, w, d, a, p);
    GoesToUserGrown(s, t, u, w, d, a, p);
  }

  lemma UserRole(u: Mm, p: nat, d: nat, a: nat)
    requires Core(u) && p in u.role && u.role[p].Kernel?
    ensures Core(u.(role := u.role[p := User(d, a)]))
    ensures forall e, v: nat :: Trans(u.(role := u.role[p := User(d, a)]), e, v) == Trans(u, e, v)
  {
    hide Trans, SameTables, TablesOk;
    var w := u.(role := u.role[p := User(d, a)]);
    RoleMoves(u, w, p);
    SameTablesTrans(u, w, 0, 0);
    SameMemory(u, w);
  }

  lemma SameMemory(s: Mm, t: Mm)
    requires t.mem == s.mem
    ensures forall e, v: nat :: Trans(t, e, v) == Trans(s, e, v)
    ensures forall q, i: nat :: Word(t, q, i) == Word(s, q, i)
  {}

  lemma GoesToUserUsers(t: Mm, u: Mm, w: Mm, d: nat, a: nat, p: nat)
    requires Ok(t) && IsDir(t, d) && a < KERNPAGE && p in t.role && t.role[p].Kernel?
    requires Mapped(t, u, d, a, a + 1, p, 6) && w == u.(role := u.role[p := User(d, a)])
    requires forall e, v: nat :: Trans(w, e, v) == Trans(u, e, v)
    requires PageOf(Entry(p, 7)) == p
    ensures UsersOk(w, 0)
  {
    hide Trans, UsersOk, ListOk, TablesOk, Entry;
    assert d != 0;
    assert Trans(u, d, a) == Entry(p, 7);
    EntryPositive(p);
    UserAdded(t, w, d, a, p);
  }

  lemma EntryPositive(p: nat)
    ensures Entry(p, 7) > 0
  {}

  lemma GoesToUserGrown(s: Mm, t: Mm, u: Mm, w: Mm, d: nat, a: nat, p: nat)
    requires Shape(s) && Shape(w) && IsDir(s, d) && a < KERNPAGE && p in s.role && s.role[p].Free?
    requires SameElse(s, t, 0, 0, 0) && t.role == s.role[p := Kernel] && t.mem.Keys == s.mem.Keys && p in t.mem
              && t.mem[p] == Zero()
    requires forall q :: q in s.mem && q != p ==> t.mem[q] == s.mem[q]
    requires Mapped(t, u, d, a, a + 1, p, 6) && w == u.(role := u.role[p := User(d, a)])
    requires forall e, v: nat :: Trans(w, e, v) == Trans(u, e, v)
    requires PageOf(Entry(p, 7)) == p
    ensures Grown(s, w, d, a, a + 1)
  {
    hide Trans;
    assert forall e :: IsDir(s, e) ==> IsDir(t, e);
    assert Trans(t, d, a) == Trans(s, d, a);
    assert FreshAt(s, w, d, a);
  }

  lemma GrownNone(s: Mm, d: nat, a: nat)
    requires Ok(s)
    ensures Grown(s, s, d, a, a)
  {}

  lemma GrownOld(s: Mm, t: Mm, d: nat, a: nat, v: nat)
    requires Grown(s, t, d, a, v) && IsDir(t, d) && v < VPAGES
    ensures Trans(t, d, v) == Trans(s, d, v)
  {}

  lemma GrownMore(s: Mm, t: Mm, u: Mm, d: nat, a: nat, b: nat)
    requires Grown(s, t, d, a, b) && Grown(t, u, d, b, b + 1) && a <= b < KERNPAGE && IsDir(s, d)
    requires Trans(s, d, b) == 0
    ensures Grown(s, u, d, a, b + 1)
  {
    hide Trans, FreshAt, SameElse;
    GrownRoles(s, t, u, d, a, b);
    GrownElse(s, t, u, d, a, b);
    forall v: nat | a <= v < b + 1 ensures FreshAt(s, u, d, v) {
      FreshMore(s, t, u, d, a, b, v);
    }
  }

  lemma GrownRoles(s: Mm, t: Mm, u: Mm, d: nat, a: nat, b: nat)
    requires Grown(s, t, d, a, b) && Grown(t, u, d, b, b + 1) && a <= b
    ensures forall q :: q in s.role ==> u.role[q] == s.role[q] || (s.role[q].Free? && Of(u.role[q], d, a, b + 1))
  {
    hide Trans, FreshAt, SameElse;
    forall q | q in s.role ensures u.role[q] == s.role[q] || (s.role[q].Free? && Of(u.role[q], d, a, b + 1)) {
      assert t.role[q] == s.role[q] || Of(t.role[q], d, a, b);
    }
  }

  lemma GrownElse(s: Mm, t: Mm, u: Mm, d: nat, a: nat, b: nat)
    requires Grown(s, t, d, a, b) && Grown(t, u, d, b, b + 1) && a <= b < KERNPAGE && IsDir(s, d)
    ensures SameElse(s, u, d, a, b + 1)
    ensures forall p :: p in s.role && (s.role[p].Kernel? || s.role[p].User?) ==>
              p in u.mem && p in s.mem && u.mem[p] == s.mem[p]
  {
    hide Trans, FreshAt;
    assert forall e :: IsDir(s, e) ==> IsDir(t, e);
  }

  lemma FreshMore(s: Mm, t: Mm, u: Mm, d: nat, a: nat, b: nat, v: nat)
    requires Grown(s, t, d, a, b) && Grown(t, u, d, b, b + 1) && a <= v < b + 1 && b < KERNPAGE && IsDir(s, d)
    requires Trans(s, d, b) == 0
    ensures FreshAt(s, u, d, v)
  {
    hide Trans;
    if v < b {
      assert IsDir(t, d);
      assert FreshAt(s, t, d, v);
      assert Trans(u, d, v) == Trans(t, d, v);
    } else {
      assert FreshAt(t, u, d, b);
      var p := PageOf(Trans(u, d, b));
      assert t.role[p] == s.role[p];
    }
  }

  lemma GrownHeld(s: Mm, t: Mm, u: Mm, d: nat, a: nat, b: nat, p: nat)
    requires Grown(s, t, d, a, b) && IsDir(s, d) && a <= b <= KERNPAGE && t.mem.Keys == u.mem.Keys
    requires p == 0 ==> u == t
    requires p != 0 ==>
               && p in t.role && t.role[p].Free? && p in u.role && u.role[p].Kernel?
               && SameElse(t, u, 0, 0, 0) && OnlyTables(t, AsFree(u, p), d)
    ensures p != 0 ==> Grown(s, AsFree(u, p), d, a, b)
  {
    hide Trans;
    if p != 0 {
      var w := AsFree(u, p);
      AsFreeTrans(u, p);
      assert forall e :: IsDir(s, e) ==> IsDir(t, e);
      forall v: nat | a <= v < b ensures FreshAt(s, w, d, v) {
        assert FreshAt(s, t, d, v);
        assert Trans(w, d, v) == Trans(t, d, v);
      }
    }
  }

  lemma AsFreeTrans(u: Mm, p: nat)
    ensures forall e, v: nat :: Trans(AsFree(u, p), e, v) == Trans(u, e, v)
  {}

  lemma ShrunkHeld(s: Mm, t: Mm, u: Mm, d: nat, a: nat, k: nat, b: nat, p: nat)
    requires Ok(s) && a <= k <= b <= KERNPAGE && Unmapped(t, u, d, a, b) && t.mem.Keys == u.mem.Keys
    requires forall v: nat :: a <= v < b ==> Trans(s, d, v) == 0
    requires p == 0 ==> Grown(s, t, d, a, k)
    requires p != 0 ==> Grown(s, AsFree(t, p), d, a, k) && p in t.role && t.role[p].Kernel?
    ensures p == 0 ==> SameElse(s, u, d, 0, 0) && OnlyTables(s, u, d)
    ensures p != 0 ==> SameElse(s, u, d, 0, 0) && OnlyTables(s, AsFree(u, p), d) && p in u.role && u.role[p].Kernel?
  {
    hide Trans, Core, UsersOk;
    if p == 0 {
      GrownThenUnmapped(s, t, u, d, a, k, b);
    } else {
      UnmappedAsFree(t, u, d, a, b, p);
      hide Unmapped, Grown, SameElse;
      GrownThenUnmapped(s, AsFree(t, p), AsFree(u, p), d, a, k, b);
      SameElseAsFree(s, u, d, p);
    }
  }

  lemma SameElseAsFree(s: Mm, u: Mm, d: nat, p: nat)
    requires SameElse(s, AsFree(u, p), d, 0, 0)
    ensures SameElse(s, u, d, 0, 0)
  {}

  lemma UnmappedAsFree(t: Mm, u: Mm, d: nat, a: nat, b: nat, p: nat)
    requires Unmapped(t, u, d, a, b) && p in t.role && t.role[p].Kernel?
    ensures Unmapped(AsFree(t, p), AsFree(u, p), d, a, b) && p in u.role && u.role[p].Kernel?
  {
    AsFreeTrans(t, p);
    AsFreeTrans(u, p);
    hide Trans;
    assert forall e :: IsDir(AsFree(t, p), e) ==> IsDir(t, e);
  }

  lemma PutHeld(s: Mm, t: Mm, u: Mm, d: nat, p: nat)
    requires u == Put(t, p) && p in t.role && t.role[p].Kernel? && SameElse(s, t, d, 0, 0)
    requires OnlyTables(s, AsFree(t, p), d) && s.mem.Keys == s.role.Keys
    requires forall e, v: nat :: IsDir(t, e) && InForce(e, v / NENTRIES, 0, 0) ==> Trans(u, e, v) == Trans(t, e, v)
    requires p in s.role && s.role[p].Free?
    requires UsersOk(t, 0)
    ensures SameElse(s, u, d, 0, 0) && OnlyTables(s, u, d) && UsersOk(u, 0)
  {
    hide Trans, Junk;
    forall e, v: nat | IsDir(t, e) && v < VPAGES ensures Trans(u, e, v) == Trans(t, e, v) {
      assert InForce(e, v / NENTRIES, 0, 0);
    }
    assert forall e :: IsDir(s, e) ==> IsDir(t, e);
    assert SameUsers(t, u);
    UsersKept(t, u, 0);
  }

  function NextTable(a: nat): (b: nat)
    ensures a < b && b % NENTRIES == 0 && b / NENTRIES == a / NENTRIES + 1 && b == (a / NENTRIES + 1) * NENTRIES
    ensures a < KERNPAGE ==> b <= KERNPAGE
  {
    (a / NENTRIES + 1) * NENTRIES
  }

  lemma NoTableNoPages(s: Mm, d: nat, a: nat, b: nat)
    requires !Present(Word(s, d, a / NENTRIES)) && b == NextTable(a)
    ensures forall v: nat :: a <= v < b ==> Trans(s, d, v) == 0
  {}

  lemma UnmappedNone(s: Mm, d: nat, a: nat)
    requires Ok(s)
    ensures Unmapped(s, s, d, a, a)
  {}

  lemma PutWalk(s: Mm, t: Mm, p: nat, d: nat, a: nat)
    requires t == Put(s, p) && Core(s) && p in s.role && s.role[p].User? && IsDir(s, d) && a < VPAGES
    ensures IsDir(t, d) && Word(t, d, a / NENTRIES) == Word(s, d, a / NENTRIES)
  {}

  lemma SameElseFrom(s: Mm, t: Mm, u: Mm, d: nat, a: nat)
    requires forall e, v: nat :: IsDir(s, e) && InForce(e, v / NENTRIES, 0, 0) ==> Trans(t, e, v) == Trans(s, e, v)
    requires SameElse(t, u, d, a, a + 1) && forall e :: IsDir(s, e) ==> IsDir(t, e)
    ensures SameElse(s, u, d, a, a + 1)
  {}

  lemma TableSize(s: Mm, p: nat)
    requires Core(s) && p in s.mem
    ensures |s.mem[p]| == NENTRIES
  {}

  lemma TransIs(s: Mm, d: nat, v: nat, pte: nat)
    requires Core(s) && Present(Word(s, d, v / NENTRIES)) && PageOf(Word(s, d, v / NENTRIES)) in s.mem
    requires pte == s.mem[PageOf(Word(s, d, v / NENTRIES))][v % NENTRIES]
    ensures Trans(s, d, v) == if Present(pte) then pte else 0
  {}

  lemma MappedNone(s: Mm, d: nat, a: nat, page: nat, perm: nat)
    requires Core(s)
    ensures Mapped(s, s, d, a, a, page, perm) && s.mem.Keys == s.role.Keys
  {}

  lemma MappedThenWalk(s: Mm, t: Mm, u: Mm, d: nat, a: nat, k: nat, page: nat, perm: nat)
    requires Mapped(s, t, d, a, k, page, perm) && SameElse(t, u, 0, 0, 0) && OnlyTables(t, u, d)
    requires Core(t) && IsDir(t, d) && a <= k <= VPAGES
    ensures Mapped(s, u, d, a, k, page, perm) && IsDir(u, d)
  {
    hide Core, Trans;
    assert forall e :: IsDir(s, e) ==> IsDir(t, e);
  }

  lemma MappedOld(s: Mm, t: Mm, d: nat, a: nat, v: nat, page: nat, perm: nat)
    requires Mapped(s, t, d, a, v, page, perm) && IsDir(t, d) && v < VPAGES
    ensures Trans(t, d, v) == Trans(s, d, v)
  {}

  lemma MappedOne(s: Mm, t: Mm, u: Mm, d: nat, a: nat, v: nat, page: nat, perm: nat)
    requires Mapped(s, t, d, a, v, page, perm) && a <= v < VPAGES && IsDir(t, d) && Trans(t, d, v) == 0
    requires SameElse(t, u, d, v, v + 1) && Trans(u, d, v) == Entry(page + v - a, perm + PTE_P)
    requires u.role == t.role && t.mem.Keys <= u.mem.Keys
    requires forall p :: p in t.mem && p in t.role && !t.role[p].Table? ==> u.mem[p] == t.mem[p]
    requires s.mem.Keys == s.role.Keys
    ensures Mapped(s, u, d, a, v + 1, page, perm)
  {
    hide Trans;
    assert forall e :: IsDir(s, e) ==> IsDir(t, e);
    MappedOld(s, t, d, a, v, page, perm);
  }
}
