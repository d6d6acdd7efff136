/** How many pages an address space takes: exactly when the free list is too short. */
module VmSpace {
  import opened VmSpec

  /** The directory entries through which pages a up to b are reached. */
  function Tables(a: nat, b: nat): set<nat> {
    set i: nat | i <= b && Touches(a, b, i)
  }

  predicate Touches(a: nat, b: nat, i: nat) {
    a < b && a / NENTRIES <= i <= (b - 1) / NENTRIES
  }

  predicate HasTable(s: Mm, d: nat, i: nat) {
    Present(Word(s, d, i))
  }

  function Absent(s: Mm, d: nat, ts: set<nat>): set<nat> {
    set i | i in ts && !HasTable(s, d, i)
  }

  /** From s to t the free list gave n pages, and one for every table of ts that was absent; those are now there,
      and no other is new. */
  ghost predicate Took(s: Mm, t: Mm, d: nat, ts: set<nat>, n: nat) {
    && |t.free| + n + |Absent(s, d, ts)| == |s.free|
    && forall i: nat :: HasTable(t, d, i) <==> HasTable(s, d, i) || i in ts
  }

  lemma TookSame(s: Mm, t: Mm, d: nat)
    requires t.free == s.free && forall i: nat :: Word(t, d, i) == Word(s, d, i)
    ensures Took(s, t, d, {}, 0)
  {
    assert Absent(s, d, {}) == {};
  }

  lemma TookThen(s: Mm, t: Mm, u: Mm, d: nat, ts: set<nat>, n: nat, us: set<nat>, m: nat)
    requires Took(s, t, d, ts, n) && Took(t, u, d, us, m)
    ensures Took(s, u, d, ts + us, n + m)
  {
    AbsentSum(s, t, d, ts, us);
  }

  lemma AbsentSum(s: Mm, t: Mm, d: nat, ts: set<nat>, us: set<nat>)
    requires forall i: nat :: HasTable(t, d, i) <==> HasTable(s, d, i) || i in ts
    ensures |Absent(s, d, ts + us)| == |Absent(s, d, ts)| + |Absent(t, d, us)|
  {
    hide HasTable;
    assert Absent(s, d, ts + us) == Absent(s, d, ts) + Absent(t, d, us);
    assert Absent(s, d, ts) !! Absent(t, d, us);
  }

  lemma AbsentMore(s: Mm, d: nat, ts: set<nat>, us: set<nat>)
    requires ts <= us
    ensures |Absent(s, d, ts)| <= |Absent(s, d, us)|
  {
    hide HasTable;
    assert Absent(s, d, us) == Absent(s, d, ts) + Absent(s, d, us - ts);
    assert Absent(s, d, ts) !! Absent(s, d, us - ts);
  }

  /** The table is there already. */
  lemma TookHere(s: Mm, d: nat, i: nat)
    requires HasTable(s, d, i)
    ensures Took(s, s, d, {i}, 0)
  {
    assert Absent(s, d, {i}) == {};
  }

  lemma TookTable(s: Mm, t: Mm, d: nat, i: nat, p: nat)
    requires s.free != [] && t.free == s.free[1..] && !HasTable(s, d, i) && i < NENTRIES
    requires d in s.mem && d in t.mem && |s.mem[d]| == NENTRIES && t.mem[d] == s.mem[d][i := Entry(p, 7)]
    ensures Took(s, t, d, {i}, 0)
  {
    assert Absent(s, d, {i}) == {i};
    assert Present(Entry(p, 7)) by { EntryLaws(p, 7); }
    forall j: nat ensures HasTable(t, d, j) <==> HasTable(s, d, j) || j == i {
      assert Word(t, d, j) == if j == i then Entry(p, 7) else Word(s, d, j);
    }
  }

  lemma TablesNone(a: nat)
    ensures Tables(a, a) == {}
  {}

  lemma TablesThen(a: nat, b: nat, c: nat)
    requires a <= b <= c
    ensures Tables(a, b) + Tables(b, c) == Tables(a, c)
  {
    if a < b < c {
      assert (b - 1) / NENTRIES <= b / NENTRIES <= (b - 1) / NENTRIES + 1;
      forall i: nat ensures i in Tables(a, b) + Tables(b, c) <==> i in Tables(a, c) {
        TouchesThen(a, b, c, i);
      }
    }
  }

  lemma TouchesThen(a: nat, b: nat, c: nat, i: nat)
    requires a < b < c
    ensures Touches(a, b, i) || Touches(b, c, i) <==> Touches(a, c, i)
    ensures Touches(a, c, i) ==> i <= c
    ensures Touches(a, b, i) ==> i <= b
    ensures Touches(b, c, i) ==> i <= c
  {}

  function Indices(lo: nat, hi: nat): (r: set<nat>)
    requires lo <= hi
    ensures |r| == hi - lo && forall i :: i in r <==> lo <= i < hi
  {
    if lo == hi then {} else Indices(lo, hi - 1) + {hi - 1}
  }

  lemma TablesSize(a: nat, b: nat)
    requires a < b
    ensures Tables(a, b) == Indices(a / NENTRIES, (b - 1) / NENTRIES + 1)
    ensures |Tables(a, b)| == (b - 1) / NENTRIES + 1 - a / NENTRIES
  {}

  lemma AllAbsent(s: Mm, d: nat, ts: set<nat>)
    requires d in s.mem && s.mem[d] == Zero()
    ensures Absent(s, d, ts) == ts
  {}

  lemma TablesOne(a: nat)
    ensures Tables(a, a + 1) == {a / NENTRIES}
  {}

  /** One more page mapped. */
  lemma TookPage(s: Mm, t: Mm, u: Mm, w: Mm, d: nat, a: nat, k: nat)
    requires a <= k && Took(s, t, d, Tables(a, k), 0) && Took(t, u, d, {k / NENTRIES}, 0) && Took(u, w, d, {}, 0)
    ensures Took(s, w, d, Tables(a, k + 1), 0)
  {
    hide Took, Tables;
    TookThen(s, t, u, d, Tables(a, k), 0, {k / NENTRIES}, 0);
    TookThen(s, u, w, d, Tables(a, k) + {k / NENTRIES}, 0, {}, 0);
    TablesOne(k);
    TablesThen(a, k, k + 1);
    assert Tables(a, k) + {k / NENTRIES} + {} == Tables(a, k + 1);
  }

  /** The table of page k was missing, and no page was left for it. */
  lemma TookStuck(s: Mm, t: Mm, d: nat, a: nat, k: nat, b: nat)
    requires a <= k < b && Took(s, t, d, Tables(a, k), 0) && t.free == [] && !HasTable(t, d, k / NENTRIES)
    ensures |Absent(s, d, Tables(a, b))| > |s.free|
  {
    hide Tables, HasTable;
    TablesOne(k);
    TablesThen(a, k, k + 1);
    TablesThen(a, k + 1, b);
    AbsentSum(s, t, d, Tables(a, k), Tables(k, k + 1));
    assert Absent(t, d, Tables(k, k + 1)) == {k / NENTRIES};
    AbsentMore(s, d, Tables(a, k + 1), Tables(a, b));
  }

  /** There are pages for all of a process's growth, and for the tables it needs. */
  predicate Enough(s: Mm, d: nat, a: nat, b: nat)
    requires a <= b
  {
    (b - a) + |Absent(s, d, Tables(a, b))| <= |s.free|
  }

  lemma TookAll(s: Mm, t: Mm, d: nat, a: nat, b: nat)
    requires a <= b && Took(s, t, d, Tables(a, b), b - a)
    ensures Enough(s, d, a, b)
  {}

  /** Page k could not be added. */
  lemma TookShort(s: Mm, t: Mm, d: nat, a: nat, k: nat, b: nat)
    requires a <= k < b && Took(s, t, d, Tables(a, k), k - a) && !Enough(t, d, k, k + 1)
    ensures !Enough(s, d, a, b)
  {
    hide Tables, HasTable;
    TablesThen(a, k, k + 1);
    TablesThen(a, k + 1, b);
    AbsentSum(s, t, d, Tables(a, k), Tables(k, k + 1));
    AbsentMore(s, d, Tables(a, k + 1), Tables(a, b));
  }

  lemma TookMore(s: Mm, t: Mm, u: Mm, d: nat, a: nat, k: nat)
    requires a <= k && Took(s, t, d, Tables(a, k), k - a) && Took(t, u, d, Tables(k, k + 1), 1)
    ensures Took(s, u, d, Tables(a, k + 1), k + 1 - a)
  {
    hide Took, Tables;
    TookThen(s, t, u, d, Tables(a, k), k - a, Tables(k, k + 1), 1);
    TablesThen(a, k, k + 1);
  }
}
