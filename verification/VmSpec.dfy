/** kalloc.c and vm.c: the pool of physical pages and the two-level page tables kept in it. A page is named by its
    physical page number, which also stands for a pointer to it; 0 is the null pointer, and no page of the pool. */
module VmSpec {
  const PGSIZE: nat := 4096
  const NENTRIES: nat := 1024 // NPDENTRIES and NPTENTRIES
  const VPAGES: nat := 0x10_0000
  const KERNPAGE: nat := 0x8_0000 // KERNBASE / PGSIZE
  const PTE_P: nat := 1
  const PTE_W: nat := 2
  const PTE_U: nat := 4

  /** Who holds a page of the pool: the free list, some other part of the kernel, or an address space as its
      directory, as the table of directory entry i, or as the user page at virtual page v. */
  datatype Role = Free | Kernel | Dir | Table(d: nat, i: nat) | User(d: nat, v: nat)

  datatype Mm = Mm(lo: nat, hi: nat, mem: map<nat, seq<nat>>, freelist: nat, free: seq<nat>, role: map<nat, Role>)

  function Zero(): (z: seq<nat>)
    ensures |z| == NENTRIES && forall i :: 0 <= i < NENTRIES ==> z[i] == 0
  {
    seq(NENTRIES, i => 0)
  }

  /** A freed page: filled with ones, its first word linking it to the rest of the list. */
  function Junk(next: nat): (z: seq<nat>)
    ensures |z| == NENTRIES && z[0] == next
  {
    [next] + seq(NENTRIES - 1, i => 0x0101_0101)
  }

  function SetWord(page: seq<nat>, i: nat, w: nat): seq<nat>
    requires i < |page|
  {
    page[i := w]
  }

  function Entry(page: nat, flags: nat): nat {
    page * PGSIZE + flags
  }

  predicate Present(e: nat) {
    e % 2 == 1
  }

  function PageOf(e: nat): nat {
    e / PGSIZE
  }

  function Word(s: Mm, p: nat, i: nat): nat {
    if p in s.mem && i < |s.mem[p]| then s.mem[p][i] else 0
  }

  /** The entry the hardware finds for virtual page v under directory d; 0 if there is none. */
  function Trans(s: Mm, d: nat, v: nat): nat {
    var pde := Word(s, d, v / NENTRIES);
    var pte := if Present(pde) then Word(s, PageOf(pde), v % NENTRIES) else 0;
    if Present(pte) then pte else 0
  }

  predicate IsDir(s: Mm, d: nat) {
    d in s.role && s.role[d].Dir?
  }

  ghost predicate Shape(s: Mm) {
    && 0 < s.lo <= s.hi <= VPAGES
    && (forall p :: p in s.mem <==> s.lo <= p < s.hi)
    && s.role.Keys == s.mem.Keys
    && (forall p :: p in s.mem ==> |s.mem[p]| == NENTRIES)
  }

  function First(free: seq<nat>): nat {
    if free == [] then 0 else free[0]
  }

  function After(free: seq<nat>, i: nat): nat {
    if i + 1 < |free| then free[i + 1] else 0
  }

  /** The list from freelist holds exactly the pages whose role is Free, each once. */
  ghost predicate ListOk(s: Mm) {
    && s.freelist == First(s.free)
    && (forall i, j :: 0 <= i < j < |s.free| ==> s.free[i] != s.free[j])
    && (forall i :: 0 <= i < |s.free| ==> Word(s, s.free[i], 0) == After(s.free, i))
    && (forall p :: p in s.free <==> p in s.role && s.role[p].Free?)
  }

  /** Entry i of directory d is in force: entries below i0 of directory x are being taken down. */
  predicate InForce(d: nat, i: nat, x: nat, i0: nat) {
    i < NENTRIES && (d == x ==> i >= i0)
  }

  /** The present directory entries and the table pages correspond one to one. */
  ghost predicate TablesOk(s: Mm, x: nat, i0: nat) {
    && (forall p :: p in s.role && s.role[p].Table? ==> TableBack(s, x, i0, p))
    && (forall d, i :: IsDir(s, d) && InForce(d, i, x, i0) && Present(Word(s, d, i)) ==> TableForth(s, d, i))
  }

  predicate TableBack(s: Mm, x: nat, i0: nat, p: nat)
    requires p in s.role && s.role[p].Table?
  {
    var r := s.role[p];
    IsDir(s, r.d) && InForce(r.d, r.i, x, i0) && Present(Word(s, r.d, r.i)) && PageOf(Word(s, r.d, r.i)) == p
  }

  predicate TableForth(s: Mm, d: nat, i: nat) {
    PageOf(Word(s, d, i)) in s.role && s.role[PageOf(Word(s, d, i))] == Table(d, i)
  }

  /** The user translations and the user pages correspond one to one. */
  ghost predicate UsersOk(s: Mm, x: nat) {
    && (forall p :: p in s.role && s.role[p].User? ==> UserBack(s, x, p))
    && (forall d, v: nat :: IsDir(s, d) && d != x && v < KERNPAGE && Trans(s, d, v) != 0 ==> UserForth(s, d, v))
  }

  predicate UserBack(s: Mm, x: nat, p: nat)
    requires p in s.role && s.role[p].User?
  {
    var r := s.role[p];
    IsDir(s, r.d) && r.d != x && r.v < KERNPAGE && Trans(s, r.d, r.v) != 0 && PageOf(Trans(s, r.d, r.v)) == p
  }

  predicate UserForth(s: Mm, d: nat, v: nat) {
    PageOf(Trans(s, d, v)) in s.role && s.role[PageOf(Trans(s, d, v))] == User(d, v)
  }

  /** What holds between any two page-table operations, user pages aside. */
  ghost predicate Core(s: Mm) {
    Shape(s) && ListOk(s) && TablesOk(s, 0, 0)
  }

  ghost predicate Ok(s: Mm) {
    Core(s) && UsersOk(s, 0)
  }

  /** Two user translations never share a page, and no user page is a table, a directory or free. */
  lemma UsersDisjoint(s: Mm, d: nat, v: nat, e: nat, w: nat)
    requires Ok(s) && IsDir(s, d) && IsDir(s, e) && v < KERNPAGE && w < KERNPAGE
    requires Trans(s, d, v) != 0 && Trans(s, e, w) != 0
    ensures PageOf(Trans(s, d, v)) == PageOf(Trans(s, e, w)) <==> d == e && v == w
    ensures PageOf(Trans(s, d, v)) !in s.free
  {}

  // ---- the page allocator ----

  function Take(s: Mm): Mm
    requires s.free != []
  {
    s.(freelist := Word(s, s.freelist, 0), free := s.free[1..], role := s.role[s.free[0] := Kernel])
  }

  function Put(s: Mm, p: nat): Mm {
    s.(mem := s.mem[p := Junk(s.freelist)], freelist := p, free := [p] + s.free, role := s.role[p := Free])
  }

  lemma TakeKeeps(s: Mm)
    requires Shape(s) && ListOk(s) && s.free != []
    ensures Shape(Take(s)) && ListOk(Take(s)) && s.free[0] in s.mem && s.role[s.free[0]].Free?
  {}

  lemma PutKeeps(s: Mm, p: nat)
    requires Shape(s) && ListOk(s) && p in s.role && !s.role[p].Free?
    ensures Shape(Put(s, p)) && ListOk(Put(s, p))
  {}

  // ---- what leaves translations alone ----

  /** The same directories with the same entries, the same tables with the same entries. */
  ghost predicate SameTables(s: Mm, t: Mm) {
    && (forall d :: IsDir(t, d) <==> IsDir(s, d))
    && (forall p :: p in s.role && (s.role[p].Dir? || s.role[p].Table?) ==> forall i :: Word(t, p, i) == Word(s, p, i))
    && (forall p :: (p in s.role && s.role[p].Table?) <==> (p in t.role && t.role[p].Table?))
    && (forall p :: p in s.role && s.role[p].Table? ==> t.role[p] == s.role[p])
  }

  lemma SameTablesTrans(s: Mm, t: Mm, x: nat, i0: nat)
    requires Shape(s) && SameTables(s, t) && TablesOk(s, x, i0)
    ensures TablesOk(t, x, i0)
    ensures forall d, v: nat :: IsDir(s, d) && InForce(d, v / NENTRIES, x, i0) ==> Trans(t, d, v) == Trans(s, d, v)
  {
    forall d, v: nat | IsDir(s, d) && InForce(d, v / NENTRIES, x, i0) ensures Trans(t, d, v) == Trans(s, d, v) {
      assert Word(t, d, v / NENTRIES) == Word(s, d, v / NENTRIES);
      if Present(Word(s, d, v / NENTRIES)) {
        assert TableForth(s, d, v / NENTRIES);
      }
    }
    forall p | p in t.role && t.role[p].Table? ensures TableBack(t, x, i0, p) {
      assert TableBack(s, x, i0, p);
    }
    forall d, i | IsDir(t, d) && InForce(d, i, x, i0) && Present(Word(t, d, i)) ensures TableForth(t, d, i) {
      assert TableForth(s, d, i);
    }
  }

  // ---- steps ----

  function NewTable(s: Mm, d: nat, i: nat, p: nat): Mm
    requires d in s.mem && i < |s.mem[d]|
  {
    s.(mem := s.mem[d := SetWord(s.mem[d], i, Entry(p, PTE_P + PTE_W + PTE_U))], role := s.role[p := Table(d, i)])
  }

  function SetPte(s: Mm, d: nat, v: nat, w: nat): Mm {
    var q := PageOf(Word(s, d, v / NENTRIES));
    if q in s.mem && v % NENTRIES < |s.mem[q]| then s.(mem := s.mem[q := SetWord(s.mem[q], v % NENTRIES, w)]) else s
  }

  /** All translations are what they were, except those of directory d from a up to b. */
  ghost predicate SameElse(s: Mm, t: Mm, d: nat, a: nat, b: nat) {
    forall e, v: nat :: IsDir(s, e) && v < VPAGES && !(e == d && a <= v < b) ==> Trans(t, e, v) == Trans(s, e, v)
  }

  /** Only page p, which is neither directory nor table before or after, changes. */
  lemma RoleMoves(s: Mm, t: Mm, p: nat)
    requires p in s.role && p in t.role && t.role.Keys == s.role.Keys && t.mem.Keys == s.mem.Keys
    requires !s.role[p].Dir? && !s.role[p].Table? && !t.role[p].Dir? && !t.role[p].Table?
    requires forall q :: q in s.role && q != p ==> t.role[q] == s.role[q]
    requires forall q :: q in s.mem && q != p ==> t.mem[q] == s.mem[q]
    ensures SameTables(s, t)
  {}

  lemma TakeCore(s: Mm)
    requires Core(s) && s.free != []
    ensures Core(Take(s)) && SameElse(s, Take(s), 0, 0, 0) && s.free[0] in s.mem && s.role[s.free[0]].Free?
  {
    hide Shape, TablesOk, SameTables, Trans, IsDir;
    TakeKeeps(s);
    RoleMoves(s, Take(s), s.free[0]);
    SameTablesTrans(s, Take(s), 0, 0);
  }

  /** A page that is neither a directory nor a table goes to the free list. */
  lemma PutCore(s: Mm, p: nat, x: nat, i0: nat)
    requires Shape(s) && ListOk(s) && TablesOk(s, x, i0) && p in s.role && (s.role[p].Kernel? || s.role[p].User?)
    ensures Shape(Put(s, p)) && ListOk(Put(s, p)) && TablesOk(Put(s, p), x, i0)
    ensures forall d, v: nat :: IsDir(s, d) && InForce(d, v / NENTRIES, x, i0) ==>
              Trans(Put(s, p), d, v) == Trans(s, d, v)
  {
    hide TablesOk, SameTables, Trans, ListOk;
    PutKeeps(s, p);
    RoleMoves(s, Put(s, p), p);
    SameTablesTrans(s, Put(s, p), x, i0);
  }

  lemma KernelWrite(s: Mm, p: nat, page: seq<nat>)
    requires Core(s) && p in s.role && s.role[p].Kernel? && |page| == NENTRIES
    ensures Core(s.(mem := s.mem[p := page])) && SameElse(s, s.(mem := s.mem[p := page]), 0, 0, 0)
  {
    var t := s.(mem := s.mem[p := page]);
    assert p !in s.free;
    forall i | 0 <= i < |t.free| ensures Word(t, t.free[i], 0) == After(t.free, i) {
      assert Word(s, s.free[i], 0) == After(s.free, i) && s.free[i] in s.free;
    }
    RoleMoves(s, t, p);
    hide Shape, TablesOk, SameTables, Trans, ListOk;
    SameTablesTrans(s, t, 0, 0);
  }

  lemma WordOff(s: Mm, q: nat, i: nat, w: nat)
    requires q in s.mem && i < |s.mem[q]|
    ensures var t := s.(mem := s.mem[q := SetWord(s.mem[q], i, w)]);
            forall p, j :: Word(t, p, j) == if p == q && j == i then w else Word(s, p, j)
  {}

  lemma NewTableCore(s: Mm, d: nat, i: nat, p: nat)
    requires Core(s) && IsDir(s, d) && i < NENTRIES && !Present(Word(s, d, i))
    requires p in s.role && s.role[p].Kernel? && s.mem[p] == Zero()
    ensures Core(NewTable(s, d, i, p)) && SameElse(s, NewTable(s, d, i, p), 0, 0, 0)
  {
    var t := NewTable(s, d, i, p);
    WordOff(s, d, i, Entry(p, PTE_P + PTE_W + PTE_U));
    assert forall q, j :: Word(t, q, j) == if q == d && j == i then Entry(p, 7) else Word(s, q, j);
    EntryLaws(p, 7);
    NewTableList(s, t, d, p);
    NewTableTables(s, t, d, i, p);
    forall e, v: nat | IsDir(s, e) && v < VPAGES ensures Trans(t, e, v) == Trans(s, e, v) {
      if Present(Word(s, e, v / NENTRIES)) {
        assert TableForth(s, e, v / NENTRIES);
      }
    }
  }

  lemma EntryLaws(p: nat, flags: nat)
    requires flags < PGSIZE
    ensures PageOf(Entry(p, flags)) == p && (flags % 2 == 1 ==> Present(Entry(p, flags)))
  {}

  lemma NewTableList(s: Mm, t: Mm, d: nat, p: nat)
    requires ListOk(s) && IsDir(s, d) && p in s.role && s.role[p].Kernel?
    requires t.free == s.free && t.freelist == s.freelist && t.role.Keys == s.role.Keys
    requires forall q :: q in s.role && q != p ==> t.role[q] == s.role[q]
    requires t.role[p].Table?
    requires forall q, j :: q != d ==> Word(t, q, j) == Word(s, q, j)
    ensures ListOk(t)
  {}

  lemma NewTableTables(s: Mm, t: Mm, d: nat, i: nat, p: nat)
    requires TablesOk(s, 0, 0) && IsDir(s, d) && i < NENTRIES && !Present(Word(s, d, i))
    requires p in s.role && s.role[p].Kernel? && t.role == s.role[p := Table(d, i)]
    requires forall q, j :: Word(t, q, j) == if q == d && j == i then Entry(p, 7) else Word(s, q, j)
    ensures TablesOk(t, 0, 0)
  {}

  lemma SetPteCore(s: Mm, d: nat, v: nat, w: nat)
    requires Core(s) && IsDir(s, d) && v < VPAGES && Present(Word(s, d, v / NENTRIES))
    ensures var t := SetPte(s, d, v, w);
            && Core(t) && SameElse(s, t, d, v, v + 1) && Trans(t, d, v) == (if Present(w) then w else 0)
            && t.role == s.role && t.free == s.free && PageOf(Word(s, d, v / NENTRIES)) in s.mem
            && (forall p :: p in s.mem && !s.role[p].Table? ==> t.mem[p] == s.mem[p])
  {
    var t, q := SetPte(s, d, v, w), PageOf(Word(s, d, v / NENTRIES));
    assert InForce(d, v / NENTRIES, 0, 0) && TableForth(s, d, v / NENTRIES);
    WordOff(s, q, v % NENTRIES, w);
    assert forall p, j :: Word(t, p, j) == if p == q && j == v % NENTRIES then w else Word(s, p, j);
    SetPteList(s, t, q);
    SetPteTables(s, t, q);
    forall e, u: nat | IsDir(s, e) && u < VPAGES && !(e == d && u == v) ensures Trans(t, e, u) == Trans(s, e, u) {
      if Present(Word(s, e, u / NENTRIES)) {
        assert InForce(e, u / NENTRIES, 0, 0) && TableForth(s, e, u / NENTRIES);
      }
    }
  }

  lemma SetPteList(s: Mm, t: Mm, q: nat)
    requires ListOk(s) && q in s.role && s.role[q].Table?
    requires t.free == s.free && t.freelist == s.freelist && t.role == s.role
    requires forall p, j :: p != q ==> Word(t, p, j) == Word(s, p, j)
    ensures ListOk(t)
  {}

  lemma SetPteTables(s: Mm, t: Mm, q: nat)
    requires TablesOk(s, 0, 0) && q in s.role && s.role[q].Table? && t.role == s.role
    requires forall p, j :: p != q ==> Word(t, p, j) == Word(s, p, j)
    ensures TablesOk(t, 0, 0)
  {}

  // ---- user pages ----

  /** The user pages are the same, role by role. */
  ghost predicate SameUsers(s: Mm, t: Mm) {
    && (forall d :: IsDir(t, d) <==> IsDir(s, d))
    && (forall p :: p in s.role && s.role[p].User? ==> p in t.role && t.role[p] == s.role[p])
    && (forall p :: p in t.role && t.role[p].User? ==> p in s.role && t.role[p] == s.role[p])
  }

  lemma UsersKept(s: Mm, t: Mm, x: nat)
    requires UsersOk(s, x) && SameUsers(s, t)
    requires forall e, v: nat :: IsDir(s, e) && e != x && v < KERNPAGE ==> Trans(t, e, v) == Trans(s, e, v)
    ensures UsersOk(t, x)
  {}

  /** Virtual page v of d was nothing and becomes page p. */
  lemma UserAdded(s: Mm, t: Mm, d: nat, v: nat, p: nat)
    requires UsersOk(s, 0) && IsDir(s, d) && d != 0 && v < KERNPAGE && p in s.role && s.role[p].Kernel?
    requires (forall e :: IsDir(t, e) <==> IsDir(s, e)) && SameElse(s, t, d, v, v + 1)
    requires forall q :: q != p && q in s.role && s.role[q].User? ==> q in t.role && t.role[q] == s.role[q]
    requires forall q :: q != p && q in t.role && t.role[q].User? ==> q in s.role && t.role[q] == s.role[q]
    requires p in t.role && t.role[p] == User(d, v)
    requires Trans(s, d, v) == 0 != Trans(t, d, v) && PageOf(Trans(t, d, v)) == p
    ensures UsersOk(t, 0)
  {}

  /** Virtual page v of d becomes nothing, and its page free. */
  lemma UserRemoved(s: Mm, t: Mm, d: nat, v: nat)
    requires UsersOk(s, 0) && IsDir(s, d) && d != 0 && v < KERNPAGE && Trans(s, d, v) != 0 && Trans(t, d, v) == 0
    requires SameElse(s, t, d, v, v + 1) && t.role == s.role[PageOf(Trans(s, d, v)) := Free]
    ensures UsersOk(t, 0)
  {
    assert UserForth(s, d, v);
    forall q | q in t.role && t.role[q].User? ensures UserBack(t, 0, q) {
      assert UserBack(s, 0, q);
    }
    forall e, u: nat | IsDir(t, e) && e != 0 && u < KERNPAGE && Trans(t, e, u) != 0 ensures UserForth(t, e, u) {
      assert UserForth(s, e, u);
    }
  }

  // ---- taking a directory down ----

  /** The table of entry i is freed; entries up to i no longer count. */
  lemma TableFreed(s: Mm, d: nat, i: nat)
    requires Shape(s) && ListOk(s) && TablesOk(s, d, i) && UsersOk(s, d) && IsDir(s, d) && i < NENTRIES
    requires Present(Word(s, d, i))
    ensures var p := PageOf(Word(s, d, i)); var t := Put(s, p);
            && p in s.role && s.role[p] == Table(d, i) && p != d
            && Shape(t) && ListOk(t) && TablesOk(t, d, i + 1) && UsersOk(t, d) && SameElse(s, t, d, 0, VPAGES)
  {
    var p, t := PageOf(Word(s, d, i)), Put(s, PageOf(Word(s, d, i)));
    assert InForce(d, i, d, i) && TableForth(s, d, i);
    hide TablesOk, UsersOk, Trans, ListOk;
    PutKeeps(s, p);
    TableFreedElse(s, d, i, p);
    TableFreedTables(s, t, d, i, p);
    UsersKept(s, t, d);
  }

  /** No other directory goes through that table. */
  lemma TableFreedElse(s: Mm, d: nat, i: nat, p: nat)
    requires TablesOk(s, d, i) && i < NENTRIES && p in s.role && s.role[p] == Table(d, i)
    ensures SameElse(s, Put(s, p), d, 0, VPAGES)
  {
    forall e, v: nat | IsDir(s, e) && v < VPAGES && e != d ensures Trans(Put(s, p), e, v) == Trans(s, e, v) {
      if Present(Word(s, e, v / NENTRIES)) {
        assert InForce(e, v / NENTRIES, d, i) && TableForth(s, e, v / NENTRIES);
      }
    }
  }

  lemma TableFreedTables(s: Mm, t: Mm, d: nat, i: nat, p: nat)
    requires TablesOk(s, d, i) && p in s.role && s.role[p] == Table(d, i) && t.role == s.role[p := Free]
    requires forall q, j :: q != p ==> Word(t, q, j) == Word(s, q, j)
    ensures TablesOk(t, d, i + 1)
  {}

  /** An absent entry has no table, so it can be counted out. */
  lemma NoTable(s: Mm, d: nat, i: nat)
    requires TablesOk(s, d, i) && i < NENTRIES && !Present(Word(s, d, i))
    ensures TablesOk(s, d, i + 1)
  {}

  /** With its tables and user pages gone the directory itself goes, and nothing is left half taken down. */
  lemma DirFreed(s: Mm, d: nat)
    requires Shape(s) && ListOk(s) && TablesOk(s, d, NENTRIES) && UsersOk(s, d) && IsDir(s, d)
    ensures Ok(Put(s, d)) && SameElse(s, Put(s, d), d, 0, VPAGES)
  {
    var t := Put(s, d);
    PutKeeps(s, d);
    assert d in s.mem && 0 !in s.mem;
    forall e, v: nat | IsDir(s, e) && v < VPAGES && e != d ensures Trans(t, e, v) == Trans(s, e, v) {
      if Present(Word(s, e, v / NENTRIES)) {
        assert InForce(e, v / NENTRIES, d, NENTRIES) && TableForth(s, e, v / NENTRIES);
      }
    }
    forall q | q in t.role && t.role[q].Table? ensures TableBack(t, 0, 0, q) {
      assert TableBack(s, d, NENTRIES, q);
    }
    forall e, j | IsDir(t, e) && InForce(e, j, 0, 0) && Present(Word(t, e, j)) ensures TableForth(t, e, j) {
      assert InForce(e, j, d, NENTRIES) && TableForth(s, e, j);
    }
    DirFreedUsers(s, t, d);
  }

  lemma DirFreedUsers(s: Mm, t: Mm, d: nat)
    requires UsersOk(s, d) && IsDir(s, d) && t.role == s.role[d := Free] && SameElse(s, t, d, 0, VPAGES)
    requires !IsDir(s, 0)
    ensures UsersOk(t, 0)
  {}

  /** An address space with no user page left can be taken down. */
  lemma NoUsers(s: Mm, d: nat)
    requires Ok(s) && forall v: nat :: v < KERNPAGE ==> Trans(s, d, v) == 0
    ensures UsersOk(s, d) && TablesOk(s, d, 0)
  {}

  // ---- what the operations promise ----

  /** Free pages may have become tables of d; nothing else changed hands, and no page of data was touched. */
  ghost predicate OnlyTables(s: Mm, t: Mm, d: nat) {
    && t.role.Keys == s.role.Keys && s.mem.Keys <= t.mem.Keys
    && (forall p :: p in s.role ==> t.role[p] == s.role[p] || (s.role[p].Free? && t.role[p].Table? && t.role[p].d == d))
    && (forall p :: p in s.role && p in s.mem && (s.role[p].Kernel? || s.role[p].User?) ==> t.mem[p] == s.mem[p])
  }

  lemma OnlyTablesUsers(s: Mm, t: Mm, d: nat)
    requires OnlyTables(s, t, d)
    ensures SameUsers(s, t)
  {}

  lemma OnlyTablesThen(s: Mm, t: Mm, u: Mm, d: nat)
    requires OnlyTables(s, t, d) && OnlyTables(t, u, d) && s.mem.Keys == s.role.Keys
    ensures OnlyTables(s, u, d)
  {}

  /** Pages a up to k of d, absent before, map to consecutive physical pages from page; the rest is as it was. */
  ghost predicate Mapped(s: Mm, t: Mm, d: nat, a: nat, k: nat, page: nat, perm: nat) {
    && SameElse(s, t, d, a, k) && OnlyTables(s, t, d)
    && (forall v: nat :: a <= v < k ==> Trans(s, d, v) == 0 && Trans(t, d, v) == Entry(page + v - a, perm + PTE_P))
  }

  /** Pages a up to b of d map nothing and those that did are free; the rest is as it was. */
  ghost predicate Unmapped(s: Mm, t: Mm, d: nat, a: nat, b: nat) {
    && SameElse(s, t, d, a, b) && t.role.Keys == s.role.Keys
    && (forall v: nat :: a <= v < b ==> Trans(t, d, v) == 0)
    && (forall p :: p in s.role ==> t.role[p] == (if InRange(s.role[p], d, a, b) then Free else s.role[p]))
    && (forall p :: p in s.role && p in s.mem && p in t.mem && (t.role[p].Kernel? || t.role[p].User?) ==>
        t.mem[p] == s.mem[p])
  }

  predicate InRange(r: Role, d: nat, a: nat, b: nat) {
    r.User? && r.d == d && a <= r.v < b
  }

  /** Pages a up to b of d map fresh zeroed pages, each its own; the rest is as it was. */
  ghost predicate Grown(s: Mm, t: Mm, d: nat, a: nat, b: nat) {
    && SameElse(s, t, d, a, b) && t.role.Keys == s.role.Keys && s.mem.Keys == t.mem.Keys == s.role.Keys
    && (forall v: nat :: a <= v < b ==> FreshAt(s, t, d, v))
    && (forall p :: p in s.role ==> t.role[p] == s.role[p] || (s.role[p].Free? && Of(t.role[p], d, a, b)))
    && (forall p :: p in s.role && (s.role[p].Kernel? || s.role[p].User?) ==> t.mem[p] == s.mem[p])
  }

  predicate Of(r: Role, d: nat, a: nat, b: nat) {
    (r.Table? && r.d == d) || InRange(r, d, a, b)
  }

  predicate FreshAt(s: Mm, t: Mm, d: nat, v: nat) {
    var p := PageOf(Trans(t, d, v));
    && Trans(s, d, v) == 0 && Trans(t, d, v) == Entry(p, PTE_W + PTE_U + PTE_P)
    && p in s.role && s.role[p].Free? && p in t.role && t.role[p] == User(d, v) && p in t.mem && t.mem[p] == Zero()
  }

  /** Every page of the address space is free, and no other page changed hands. */
  ghost predicate Released(s: Mm, t: Mm, d: nat) {
    && t.role.Keys == s.role.Keys
    && (forall p :: p in s.role ==> t.role[p] == if p == d || OwnedBy(s.role[p], d) then Free else s.role[p])
  }

  predicate OwnedBy(r: Role, d: nat) {
    (r.Table? || r.User?) && r.d == d
  }

  lemma UnmappedSkip(s0: Mm, s: Mm, d: nat, a: nat, b: nat, c: nat)
    requires Ok(s0) && Unmapped(s0, s, d, a, b) && IsDir(s0, d) && a <= b <= c <= KERNPAGE
    requires forall v: nat :: b <= v < c ==> Trans(s, d, v) == 0
    ensures Unmapped(s0, s, d, a, c)
  {
    forall p | p in s0.role ensures InRange(s0.role[p], d, a, c) ==> InRange(s0.role[p], d, a, b) {
      if InRange(s0.role[p], d, b, c) {
        UserHolds(s0, p);
      }
    }
  }

  lemma UnmappedOne(s0: Mm, s: Mm, t: Mm, d: nat, a: nat, b: nat)
    requires Ok(s0) && Ok(s) && Unmapped(s0, s, d, a, b) && IsDir(s0, d) && a <= b < KERNPAGE
    requires Trans(s, d, b) != 0 && Trans(t, d, b) == 0 && SameElse(s, t, d, b, b + 1) && t.mem.Keys == s.mem.Keys
    requires t.role == s.role[PageOf(Trans(s, d, b)) := Free]
    requires forall p :: p in s.mem && p != PageOf(Trans(s, d, b)) && !s.role[p].Table? ==> t.mem[p] == s.mem[p]
    ensures Unmapped(s0, t, d, a, b + 1)
  {
    hide TablesOk, ListOk, Trans;
    UnmappedRoles(s0, s, t, d, a, b);
    hide UsersOk, UserForth, InRange;
    forall e, v: nat | IsDir(s0, e) && v < VPAGES && !(e == d && a <= v < b + 1)
      ensures Trans(t, e, v) == Trans(s0, e, v)
    {
      assert IsDir(s, e);
    }
  }

  lemma UnmappedRoles(s0: Mm, s: Mm, t: Mm, d: nat, a: nat, b: nat)
    requires UsersOk(s, 0) && Unmapped(s0, s, d, a, b) && IsDir(s0, d) && d != 0 && a <= b < KERNPAGE
    requires Trans(s, d, b) != 0 && t.role == s.role[PageOf(Trans(s, d, b)) := Free]
    ensures t.role.Keys == s0.role.Keys
    ensures forall p :: p in s0.role ==> t.role[p] == if InRange(s0.role[p], d, a, b + 1) then Free else s0.role[p]
    ensures forall e :: IsDir(s0, e) ==> IsDir(s, e)
    ensures s.role[PageOf(Trans(s, d, b))].User?
  {}

  lemma UserHolds(s: Mm, p: nat)
    requires UsersOk(s, 0) && p in s.role && s.role[p].User?
    ensures UserBack(s, 0, p)
  {}

  /** Growing and then unmapping what was grown leaves the translations and the user pages as they were. */
  lemma GrownThenUnmapped(s: Mm, t: Mm, u: Mm, d: nat, a: nat, k: nat, b: nat)
    requires Grown(s, t, d, a, k) && Unmapped(t, u, d, a, b) && a <= k <= b <= KERNPAGE && t.mem.Keys == u.mem.Keys
    requires Ok(s) && forall v: nat :: a <= v < b ==> Trans(s, d, v) == 0
    ensures SameElse(s, u, d, 0, 0) && OnlyTables(s, u, d)
  {
    hide TablesOk, ListOk, Trans, FreshAt, Shape, Zero;
    GrownThenRoles(s, t, u, d, a, k, b);
    hide UsersOk, UserForth, InRange, Of;
    assert forall e :: IsDir(s, e) ==> IsDir(t, e);
    forall e, v: nat | IsDir(s, e) && v < VPAGES ensures Trans(u, e, v) == Trans(s, e, v) {
      if e == d && a <= v < b {
        assert Trans(u, d, v) == 0;
      }
    }
  }

  lemma GrownThenRoles(s: Mm, t: Mm, u: Mm, d: nat, a: nat, k: nat, b: nat)
    requires Grown(s, t, d, a, k) && Unmapped(t, u, d, a, b) && a <= k <= b <= KERNPAGE
    requires UsersOk(s, 0) && forall v: nat :: a <= v < b ==> Trans(s, d, v) == 0
    ensures u.role.Keys == s.role.Keys
    ensures forall p :: p in s.role ==>
              && (t.role[p] == s.role[p] || s.role[p].Free?)
              && (u.role[p] == s.role[p] || (s.role[p].Free? && u.role[p].Table? && u.role[p].d == d))
  {
    hide Trans, FreshAt;
    forall p | p in s.role
      ensures u.role[p] == s.role[p] || (s.role[p].Free? && u.role[p].Table? && u.role[p].d == d)
    {
      if InRange(s.role[p], d, a, b) {
        UserHolds(s, p);
      }
    }
  }

  /** A zeroed page becomes a directory that maps nothing. */
  lemma NewDir(s: Mm, d: nat)
    requires Ok(s) && d in s.role && s.role[d].Kernel? && s.mem[d] == Zero()
    ensures var t := s.(role := s.role[d := Dir]);
            Ok(t) && SameElse(s, t, 0, 0, 0) && forall v: nat :: v < VPAGES ==> Trans(t, d, v) == 0
  {
    var t := s.(role := s.role[d := Dir]);
    assert forall p, i :: Word(t, p, i) == Word(s, p, i);
    assert forall e, v: nat :: Trans(t, e, v) == Trans(s, e, v);
    ZeroWords(s, d);
    hide Trans, Word;
    NewDirList(s, t, d);
    NewDirTables(s, t, d);
    NewDirUsers(s, t, d);
  }

  lemma NewDirList(s: Mm, t: Mm, d: nat)
    requires ListOk(s) && d in s.role && s.role[d].Kernel? && t == s.(role := s.role[d := Dir])
    requires forall p, i :: Word(t, p, i) == Word(s, p, i)
    ensures ListOk(t)
  {}

  lemma NewDirTables(s: Mm, t: Mm, d: nat)
    requires TablesOk(s, 0, 0) && d in s.role && s.role[d].Kernel? && t.role == s.role[d := Dir]
    requires forall p, i :: Word(t, p, i) == Word(s, p, i)
    requires forall i :: Word(s, d, i) == 0
    ensures TablesOk(t, 0, 0)
  {}

  lemma ZeroWords(s: Mm, d: nat)
    requires d in s.mem && s.mem[d] == Zero()
    ensures forall i :: Word(s, d, i) == 0
    ensures forall v: nat :: Trans(s, d, v) == 0
  {}

  lemma NewDirUsers(s: Mm, t: Mm, d: nat)
    requires UsersOk(s, 0) && d in s.role && s.role[d].Kernel? && t.role == s.role[d := Dir]
    requires forall e, v: nat :: Trans(t, e, v) == Trans(s, e, v)
    requires forall v: nat :: Trans(s, d, v) == 0
    ensures UsersOk(t, 0)
  {}
}
