/** vm.c: whole address spaces made, copied, written and torn down. */
module Spaces {
  import opened Blocks
  import opened Pages
  import opened Vm

  // ---- freevm ----

  /** A page of d's address space: the directory, a table or a user page. */
  predicate Of(r: Role, p: nat, d: nat) { p == d || ((r.Table? || r.User?) && r.d == d) }

  /** Every page of d is free, every other one has its role. */
  ghost predicate TornDown(o: Roles, o': Roles, d: nat)
  {
    o'.Keys == o.Keys && forall p {:trigger o'[p]} :: p in o && p in o' ==> o'[p] == if Of(o[p], p, d) then Free
                                                                                     else o[p]
  }

  /** The address spaces other than d are as before. */
  ghost predicate OthersSame(m: Mem, m': Mem, o: Roles, d: nat)
  {
    forall d': nat, v: nat {:trigger Leaf(m', d', v)} :: IsDir(o, d') && d' != d && v < ALLPAGES ==>
      Leaf(m', d', v) == Leaf(m, d', v)
  }

  /** freevm's loop before entry i: the tables under earlier entries are free. */
  ghost predicate TearingDown(o: Roles, o': Roles, d: nat, i: nat)
  {
    o'.Keys == o.Keys && forall p {:trigger o'[p]} :: p in o && p in o' ==>
      o'[p] == if o[p].Table? && o[p].d == d && o[p].i < i then Free
               else if p == d || (o[p].Table? && o[p].d == d) then Held else o[p]
  }

  /** Freeing page p, held, of the directory being torn down. */
  method FreeHeld(k: Memory, p: nat)
    requires k.Valid() && p in k.owner && k.owner[p].Held?
    modifies k
    ensures k.Valid() && k.owner == old(k.owner)[p := Free] && k.mem == old(k.mem)[p := Junk()]
    ensures SameLeaves(old(k.mem), k.mem, old(k.owner)) && DataKept(old(k.mem), k.mem, old(k.owner), k.owner)
  {
    hide Owned, DataKept, SameLeaves, SameSlots;
    StoreKeeps(k.mem, k.owner, k.free, p, Junk());
    ReleaseKeeps(k.mem[p := Junk()], k.owner, k.free, p);
    k.Kfree(p);
    k.owner := k.owner[p := Free];
    DataStays(old(k.mem), old(k.owner), old(k.free), k.mem, k.owner, {p});
  }

  /** The table under entry i of a directory. */
  lemma TableUnder(m: Mem, o: Roles, free: seq<nat>, d: nat, i: nat)
    requires Owned(m, o, free) && IsDir(o, d) && i < ENTRIES
    ensures d in m && m[d].IsTable()
    ensures m[d].e[i].Present? ==> m[d].e[i].frame in o && o[m[d].e[i].frame] == Table(d, i)
    ensures forall p :: p in o && o[p] == Table(d, i) ==> m[d].e[i].Present? && m[d].e[i].frame == p
  {
    OnTheWay(m, o, free, d, i * ENTRIES);
    assert SlotFits(m, o, d, i);
    forall p | p in o && o[p] == Table(d, i) ensures m[d].e[i].Present? && m[d].e[i].frame == p {
      assert Fits(m, o, free, p);
    }
  }

  method Freevm(k: Memory, d: nat)
    requires k.Valid() && IsDir(k.owner, d)
    modifies k
    ensures k.Valid() && TornDown(old(k.owner), k.owner, d)
    ensures OthersSame(old(k.mem), k.mem, old(k.owner), d) && DataKept(old(k.mem), k.mem, old(k.owner), k.owner)
  {
    hide Owned, DataKept, SameLeaves, SameSlots, Unmapped, Released, TearingDown, OthersSame, TornDown;
    var sz := k.Deallocuvm(d, KERNBASE, 0);
    ghost var m1, o1, f1 := k.mem, k.owner, k.free;
    UserPartGone(old(k.mem), old(k.owner), old(k.free), m1, o1, d);
    OrphanKeeps(k.mem, k.owner, k.free, d);
    TableUnder(m1, o1, f1, d, 0);
    k.owner := Orphaned(k.owner, d);
    StartTearing(m1, o1, f1, k.owner, d);
    var i := 0;
    while i < ENTRIES
      invariant 0 <= i <= ENTRIES && k.Valid() && TearingDown(o1, k.owner, d, i)
      invariant d in k.mem && d in m1 && k.mem[d] == m1[d] && m1[d].IsTable()
      invariant OthersSame(m1, k.mem, o1, d) && DataKept(m1, k.mem, o1, k.owner)
    {
      ghost var m, o := k.mem, k.owner;
      TableUnder(m1, o1, f1, d, i);
      if k.mem[d].e[i].Present? {
        HeldStill(o1, o, d, i, m1[d].e[i].frame);
        FreeHeld(k, k.mem[d].e[i].frame);
      }
      TearOneMore(m1, o1, m, o, k.mem, k.owner, d, i);
      i := i + 1;
    }
    ghost var m, o := k.mem, k.owner;
    DirHeld(o1, o, d);
    FreeHeld(k, d);
    AllTorn(old(k.mem), old(k.owner), old(k.free), m1, o1, m, o, k.mem, k.owner, d);
  }

  lemma UserPartGone(m0: Mem, o0: Roles, free0: seq<nat>, m: Mem, o: Roles, d: nat)
    requires Owned(m0, o0, free0) && IsDir(o0, d) && Released(o0, o, d, 0, USERPAGES)
    ensures IsDir(o, d) && forall p :: p in o && o[p].User? ==> o[p].d != d
  {
    StillDir(o0, o, d, 0, USERPAGES);
    forall p | p in o && o[p].User? ensures o[p].d != d {
      assert p in o0 && Fits(m0, o0, free0, p);
    }
  }

  lemma StartTearing(m: Mem, o: Roles, free: seq<nat>, o': Roles, d: nat)
    requires Owned(m, o, free) && IsDir(o, d) && o' == Orphaned(o, d)
    ensures TearingDown(o, o', d, 0) && OthersSame(m, m, o, d) && DataKept(m, m, o, o')
  {
    DataStays(m, o, free, m, o', {});
  }

  lemma HeldStill(o: Roles, o': Roles, d: nat, i: nat, p: nat)
    requires TearingDown(o, o', d, i) && p in o && o[p] == Table(d, i)
    ensures p in o' && o'[p].Held?
  {
    assert p in o' && o'[p] == Held;
  }

  lemma DirHeld(o: Roles, o': Roles, d: nat)
    requires TearingDown(o, o', d, ENTRIES) && IsDir(o, d)
    ensures d in o' && o'[d].Held?
  {
    assert d in o' && o'[d] == Held;
  }

  lemma TearOneMore(m1: Mem, o1: Roles, m: Mem, o: Roles, m': Mem, o': Roles, d: nat, i: nat)
    requires TearingDown(o1, o, d, i) && OthersSame(m1, m, o1, d) && DataKept(m1, m, o1, o) && IsDir(o1, d)
    requires (m' == m && o' == o && forall p :: p in o1 ==> o1[p] != Table(d, i))
      || exists x :: x in o1 && o1[x] == Table(d, i) && (forall p :: p in o1 && o1[p] == Table(d, i) ==> p == x)
           && o' == o[x := Free] && m' == m[x := Junk()] && SameLeaves(m, m', o)
    ensures TearingDown(o1, o', d, i + 1) && OthersSame(m1, m', o1, d) && DataKept(m1, m', o1, o')
  {
    hide Leaf;
    forall p | p in o1 && p in o
      ensures o[p] == if o1[p].Table? && o1[p].d == d && o1[p].i < i then Free
                      else if p == d || (o1[p].Table? && o1[p].d == d) then Held else o1[p]
    {
    }
    forall d': nat, v: nat | IsDir(o1, d') && d' != d && v < ALLPAGES ensures Leaf(m', d', v) == Leaf(m1, d', v) {
      assert IsDir(o, d') && Leaf(m, d', v) == Leaf(m1, d', v);
    }
    forall p | p in o1 && p in o' && o1[p] == o'[p] && (o1[p].User? || o1[p].Held?)
      ensures p in m1 && p in m' && m'[p] == m1[p]
    {
      assert o[p] == o1[p];
    }
  }

  lemma RolesTorn(m0: Mem, o0: Roles, free0: seq<nat>, o1: Roles, o: Roles, o': Roles, d: nat)
    requires IsDir(o0, d) && Released(o0, o1, d, 0, USERPAGES) && Owned(m0, o0, free0)
    requires TearingDown(o1, o, d, ENTRIES) && d in o && o' == o[d := Free]
    ensures TornDown(o0, o', d)
  {
    forall p | p in o0 && p in o' ensures o'[p] == if Of(o0[p], p, d) then Free else o0[p] {
      assert Fits(m0, o0, free0, p);
      assert o1[p] == if o0[p].User? && o0[p].d == d && 0 <= o0[p].v < USERPAGES then Free else o0[p];
      assert p != d ==> o'[p] == o[p];
    }
  }

  lemma AllTorn(m0: Mem, o0: Roles, free0: seq<nat>, m1: Mem, o1: Roles, m: Mem, o: Roles, m': Mem, o': Roles, d: nat)
    requires IsDir(o0, d) && Unmapped(m0, m1, o0, d, 0, USERPAGES) && Released(o0, o1, d, 0, USERPAGES)
    requires DataKept(m0, m1, o0, o1)
    requires Owned(m0, o0, free0)
    requires TearingDown(o1, o, d, ENTRIES) && OthersSame(m1, m, o1, d) && DataKept(m1, m, o1, o)
    requires d in o && o[d].Held? && o' == o[d := Free] && m' == m[d := Junk()] && SameLeaves(m, m', o)
    ensures TornDown(o0, o', d) && OthersSame(m0, m', o0, d) && DataKept(m0, m', o0, o')
  {
    hide Leaf, Fits, Owned;
    StillDir(o0, o1, d, 0, USERPAGES);
    RolesTorn(m0, o0, free0, o1, o, o', d);
    forall d': nat, v: nat | IsDir(o0, d') && d' != d && v < ALLPAGES ensures Leaf(m', d', v) == Leaf(m0, d', v) {
      assert o[d'] == o1[d'] == o0[d'];
      assert Leaf(m', d', v) == Leaf(m, d', v) == Leaf(m1, d', v) == Leaf(m0, d', v);
    }
    forall p | p in o0 && p in o' && o0[p] == o'[p] && (o0[p].User? || o0[p].Held?)
      ensures p in m0 && p in m' && m'[p] == m0[p]
    {
      assert o1[p] == o0[p] && o[p] == o0[p];
    }
  }

  // ---- setupkvm ----

  /** The pages setupkvm takes: a directory, 56 tables for the memory at KERNBASE and 8
      for the devices. */
  const KERNELTABLES := 64

  /** The kernel's part of an address space and no other. */
  ghost predicate KernelOnly(m: Mem, d: nat)
  {
    && (forall i: nat {:trigger Slot(m, d, i)} :: i < USERPAGES / ENTRIES ==> Slot(m, d, i).Absent?)
    && (forall v: nat {:trigger Leaf(m, d, v)} :: v < USERPAGES ==> Leaf(m, d, v).Absent?)
  }

  ghost predicate AbsentFrom(m: Mem, d: nat, v: nat)
  {
    forall x: nat {:trigger Leaf(m, d, x)} :: v <= x < ALLPAGES ==> Leaf(m, d, x).Absent?
  }

  /** What mapping kernel pages of d changed: tables were added to d, and nothing else. */
  ghost predicate KernelGrew(m: Mem, o: Roles, m': Mem, o': Roles, d: nat)
  {
    GrewIn(o, o', d, 0, 0) && OthersSame(m, m', o, d) && DataKept(m, m', o, o') && KernelOnly(m', d)
  }

  /** Pages [first, first + n) of d now lead to consecutive frames, the others as before. */
  ghost predicate MapsRun(m: Mem, m': Mem, d: nat, first: nat, n: nat, frame: nat, flags: nat)
  {
    forall v: nat {:trigger Leaf(m', d, v)} :: v < ALLPAGES ==>
      Leaf(m', d, v) == if first <= v < first + n then Present(frame + v - first, false, flags) else Leaf(m, d, v)
  }

  lemma RunMore(m: Mem, m': Mem, m'': Mem, o: Roles, d: nat, first: nat, n: nat, frame: nat, flags: nat)
    requires IsDir(o, d) && MapsRun(m, m', d, first, n, frame, flags)
    requires LeafSet(m', m'', o, d, first + n, Present(frame + n, false, flags))
    ensures MapsRun(m, m'', d, first, n + 1, frame, flags)
  {
    hide Leaf;
    forall v: nat | v < ALLPAGES
      ensures Leaf(m'', d, v) == if first <= v < first + n + 1 then Present(frame + v - first, false, flags)
                                 else Leaf(m, d, v)
    {
      assert Leaf(m'', d, v) == if v == first + n then Present(frame + n, false, flags) else Leaf(m', d, v);
    }
  }

  /** mappages for the kernel: n pages from `first`, counted on from lo, where m0 was
      the memory and f0 the number of free pages. */
  method Mappages(k: Memory, d: nat, first: nat, n: nat, frame: nat, flags: nat,
                  ghost m0: Mem, ghost lo: nat, ghost f0: nat) returns (ok: bool)
    requires k.Valid() && IsDir(k.owner, d) && n > 0 && USERPAGES <= lo <= first && first + n <= ALLPAGES
    requires AbsentFrom(k.mem, d, first) && KernelOnly(k.mem, d)
    requires SlotsUpTo(m0, k.mem, d, lo, first) && |k.free| == f0 - NewTables(m0, d, lo, first)
    modifies k
    ensures k.Valid() && KernelGrew(old(k.mem), old(k.owner), k.mem, k.owner, d)
    ensures ok <==> f0 >= NewTables(m0, d, lo, first + n)
    ensures ok ==> MapsRun(old(k.mem), k.mem, d, first, n, frame, flags) && AbsentFrom(k.mem, d, first + n)
    ensures ok ==> SlotsUpTo(m0, k.mem, d, lo, first + n) && |k.free| == f0 - NewTables(m0, d, lo, first + n)
  {
    hide Owned, DataKept, GrewIn, OthersSame, SlotsUpTo, KernelOnly, AbsentFrom, LeafSet, Leaf, NewTable, KernelGrew;
    GrewNothing(k.mem, k.owner, k.free, d);
    assert MapsRun(k.mem, k.mem, d, first, 0, frame, flags);
    hide MapsRun;
    var a, last := first, first + n - 1;
    while true
      invariant first <= a <= last && k.Valid() && IsDir(k.owner, d)
      invariant KernelGrew(old(k.mem), old(k.owner), k.mem, k.owner, d) && AbsentFrom(k.mem, d, a)
      invariant MapsRun(old(k.mem), k.mem, d, first, a - first, frame, flags)
      invariant SlotsUpTo(m0, k.mem, d, lo, a) && |k.free| == f0 - NewTables(m0, d, lo, a)
      decreases last - a
    {
      ghost var m, o, f := k.mem, k.owner, k.free;
      AbsentHere(m, d, a, a);
      SlotNow(m0, m, d, lo, a);
      TablesGrow(m0, d, lo, a + 1, first + n);
      assert NewTables(m0, d, lo, a + 1) == NewTables(m0, d, lo, a) + if NewTable(m0, d, lo, a) then 1 else 0;
      var done := k.MapPage(d, a, Present(frame + a - first, false, flags));
      if !done {
        return false;
      }
      KernelMore(old(k.mem), old(k.owner), m, o, f, k.mem, k.owner, d, a, Present(frame + a - first, false, flags));
      RunMore(old(k.mem), m, k.mem, o, d, first, a - first, frame, flags);
      SlotsMore(m0, m, k.mem, d, lo, a);
      if a == last {
        return true;
      }
      a := a + 1;
    }
  }

  lemma GrewNothing(m: Mem, o: Roles, free: seq<nat>, d: nat)
    requires Owned(m, o, free) && KernelOnly(m, d)
    ensures KernelGrew(m, o, m, o, d)
  {
    DataStays(m, o, free, m, o, {});
  }

  lemma AbsentHere(m: Mem, d: nat, v: nat, x: nat)
    requires AbsentFrom(m, d, v) && v <= x < ALLPAGES
    ensures Leaf(m, d, x).Absent?
  {
  }

  lemma {:induction false} TablesGrow(m: Mem, d: nat, lo: nat, v: nat, hi: nat)
    requires v <= hi
    ensures NewTables(m, d, lo, v) <= NewTables(m, d, lo, hi)
  {
    if v < hi {
      TablesGrow(m, d, lo, v, hi - 1);
    }
  }

  lemma KernelRolesMore(m: Mem, o: Roles, free: seq<nat>, o0: Roles, o': Roles, d: nat, v: nat, slot: Pte, pte: Pte)
    requires Owned(m, o, free) && IsDir(o, d) && USERPAGES <= v < ALLPAGES && pte.Present?
    requires GrewIn(o0, o, d, 0, 0) && o' == AfterMap(o, free, slot, d, v, pte)
    ensures GrewIn(o0, o', d, 0, 0) && IsDir(o', d)
    ensures o'.Keys == o.Keys == o0.Keys && forall p :: p in o0 && !o0[p].Free? ==> o[p] == o'[p] == o0[p]
  {
    if free != [] {
      assert Fits(m, o, free, free[0]);
    }
    forall p | p in o0 && p in o'
      ensures if o0[p].Free? then o'[p].Free? || (o'[p].Table? && o'[p].d == d) else o'[p] == o0[p]
    {
      assert p in o && (o'[p] == o[p] || o[p].Free?);
    }
  }

  lemma KernelMore(m0: Mem, o0: Roles, m: Mem, o: Roles, free: seq<nat>, m': Mem, o': Roles, d: nat, v: nat, pte: Pte)
    requires Owned(m, o, free) && IsDir(o, d) && USERPAGES <= v < ALLPAGES && pte.Present?
    requires KernelGrew(m0, o0, m, o, d) && AbsentFrom(m, d, v)
    requires LeafSet(m, m', o, d, v, pte) && SlotsUpTo(m, m', d, v, v + 1) && DataKept(m, m', o, o')
    requires o' == AfterMap(o, free, Slot(m, d, v / ENTRIES), d, v, pte)
    ensures KernelGrew(m0, o0, m', o', d) && AbsentFrom(m', d, v + 1) && IsDir(o', d)
  {
    hide Leaf, Slot, Owned, AfterMap, GrewIn;
    KernelRolesMore(m, o, free, o0, o', d, v, Slot(m, d, v / ENTRIES), pte);
    forall d': nat, x: nat | IsDir(o0, d') && d' != d && x < ALLPAGES ensures Leaf(m', d', x) == Leaf(m0, d', x) {
      assert IsDir(o, d');
      assert Leaf(m', d', x) == Leaf(m, d', x);
    }
    forall p | p in o0 && p in o' && o0[p] == o'[p] && (o0[p].User? || o0[p].Held?)
      ensures p in m0 && p in m' && m'[p] == m0[p]
    {
      assert o[p] == o0[p];
    }
    forall x: nat | x < USERPAGES ensures Leaf(m', d, x).Absent? {
      assert Leaf(m', d, x) == Leaf(m, d, x);
    }
    forall i: nat | i < USERPAGES / ENTRIES ensures Slot(m', d, i).Absent? {
      assert Slot(m', d, i).Present? <==> Slot(m, d, i).Present? || i == v / ENTRIES;
    }
    forall x: nat | v + 1 <= x < ALLPAGES ensures Leaf(m', d, x).Absent? {
      assert Leaf(m', d, x) == Leaf(m, d, x);
    }
  }

  /** Under an empty directory, each run of 1024 pages takes a table. */
  lemma {:induction false} TablesOfEmpty(m: Mem, d: nat, lo: nat, hi: nat)
    requires lo % ENTRIES == 0 && lo <= hi && forall v :: lo <= v < hi ==> Slot(m, d, v / ENTRIES).Absent?
    ensures NewTables(m, d, lo, hi) == (hi - lo + ENTRIES - 1) / ENTRIES
  {
    if lo < hi {
      TablesOfEmpty(m, d, lo, hi - 1);
      OneRunMore(lo, hi - 1);
      assert Slot(m, d, (hi - 1) / ENTRIES).Absent?;
    }
  }

  /** v, counted from a multiple of 1024, opens a new run of 1024 exactly if it is one. */
  lemma OneRunMore(lo: nat, v: nat)
    requires lo % 1024 == 0 && lo <= v
    ensures v % 1024 == 0 <==> v <= lo || v / 1024 != (v - 1) / 1024
    ensures (v + 1 - lo + 1023) / 1024 == (v - lo + 1023) / 1024 + if v % 1024 == 0 then 1 else 0
  {
    var q, r, l := v / 1024, v % 1024, lo / 1024;
    assert v == 1024 * q + r && lo == 1024 * l;
    if r == 0 {
      DivOf(v - lo + 1023, q - l, 1023);
      DivOf(v - lo + 1024, q - l + 1, 0);
      if v > lo {
        DivOf(v - 1, q - 1, 1023);
      }
    } else {
      DivOf(v - lo + 1023, q - l + 1, r - 1);
      DivOf(v - lo + 1024, q - l + 1, r);
      DivOf(v - 1, q, r - 1);
    }
  }

  lemma DivOf(x: int, q: int, r: nat)
    requires x == 1024 * q + r && r < 1024
    ensures x / 1024 == q
  {
  }

  lemma KernelGrewOn(m0: Mem, o0: Roles, m: Mem, o: Roles, m': Mem, o': Roles, d: nat)
    requires KernelGrew(m0, o0, m, o, d) && KernelGrew(m, o, m', o', d)
    ensures KernelGrew(m0, o0, m', o', d)
  {
    hide Leaf, KernelOnly;
    GrewDirs(o0, o, d, 0, 0);
    forall p | p in o0 && p in o'
      ensures if o0[p].Free? then o'[p].Free? || (o'[p].Table? && o'[p].d == d) else o'[p] == o0[p]
    {
      assert p in o && (o'[p] == o[p] || o[p].Free?);
    }
    forall d': nat, x: nat | IsDir(o0, d') && d' != d && x < ALLPAGES ensures Leaf(m', d', x) == Leaf(m0, d', x) {
      assert Leaf(m', d', x) == Leaf(m, d', x);
    }
    forall p | p in o0 && p in o' && o0[p] == o'[p] && (o0[p].User? || o0[p].Held?)
      ensures p in m0 && p in m' && m'[p] == m0[p]
    {
      assert o[p] == o0[p];
    }
  }

  /** Free pages became the address space d, and no other role changed. */
  ghost predicate NewSpace(o: Roles, o': Roles, d: nat)
  {
    && o'.Keys == o.Keys && d in o && o[d].Free? && IsDir(o', d)
    && forall p {:trigger o'[p]} :: p in o && p in o' ==> if o[p].Free? then o'[p].Free? || Of(o'[p], p, d)
                                                          else o'[p] == o[p]
  }

  /** The other address spaces and all data are as before. */
  ghost predicate Apart(m: Mem, o: Roles, m': Mem, o': Roles)
  {
    SameLeaves(m, m', o) && DataKept(m, m', o, o')
  }

  /** A new address space torn down leaves every page with its old role. */
  lemma NothingLeft(m: Mem, o: Roles, free: seq<nat>, m1: Mem, o1: Roles, m2: Mem, o2: Roles, d: nat)
    requires Owned(m, o, free) && NewSpace(o, o1, d) && TornDown(o1, o2, d)
    requires Apart(m, o, m1, o1) && OthersSame(m1, m2, o1, d) && DataKept(m1, m2, o1, o2)
    ensures o2 == o && Apart(m, o, m2, o2)
  {
    hide Leaf;
    forall p | p in o && p in o2 ensures o2[p] == o[p] {
      assert p in o1 && Fits(m, o, free, p);
      assert o2[p] == if Of(o1[p], p, d) then Free else o1[p];
    }
    assert o2 == o;
    forall d': nat, v: nat | IsDir(o, d') && v < ALLPAGES ensures Leaf(m2, d', v) == Leaf(m, d', v) {
      assert o1[d'] == o[d'] && d' != d;
      assert Leaf(m2, d', v) == Leaf(m1, d', v) == Leaf(m, d', v);
    }
    forall p | p in o && (o[p].User? || o[p].Held?) ensures p in m && p in m2 && m2[p] == m[p] {
      assert o1[p] == o[p] == o2[p];
    }
  }

  lemma SetUp(m: Mem, o: Roles, free: seq<nat>, m0: Mem, o0: Roles, m': Mem, o': Roles, d: nat)
    requires Owned(m, o, free) && d in o && o[d].Free? && o0 == o[d := Dir] && m0 == m[d := NoEntries()]
    requires SameLeaves(m, m0, o[d := Held])
    requires KernelGrew(m0, o0, m', o', d)
    ensures NewSpace(o, o', d) && Apart(m, o, m', o')
  {
    hide Leaf, KernelOnly;
    forall p | p in o && p in o' ensures if o[p].Free? then o'[p].Free? || Of(o'[p], p, d) else o'[p] == o[p] {
      assert p in o0;
    }
    assert o'[d] == o0[d];
    forall d': nat, v: nat | IsDir(o, d') && v < ALLPAGES ensures Leaf(m', d', v) == Leaf(m, d', v) {
      assert o0[d'] == o[d'] && d' != d && o[d := Held][d'] == o[d'];
      assert Leaf(m', d', v) == Leaf(m0, d', v) == Leaf(m, d', v);
    }
    forall p | p in o && p in o' && o[p] == o'[p] && (o[p].User? || o[p].Held?)
      ensures p in m && p in m' && m'[p] == m[p]
    {
      assert o0[p] == o[p];
    }
  }

  /** Where kmap puts page v: the low megabyte and the kernel's data writable, its text not,
      the devices at their own addresses, nothing else. */
  function Kmap(v: nat, data: nat): Pte
  {
    if USERPAGES <= v < USERPAGES + 0xE000 then
      Present(v - USERPAGES, false, if USERPAGES + 0x100 <= v < USERPAGES + data then 0 else PTE_W)
    else if 0xFE000 <= v < ALLPAGES then Present(v, false, PTE_W)
    else Absent
  }

  /** What kmap is for: the kernel finds physical memory at KERNBASE and the devices at their
      own addresses, nothing of it is the user's, and only its text and what lies before its
      data is not to be written. */
  lemma KernelSeesMemory(v: nat, data: nat)
    requires 0x100 < data < 0xE000
    ensures Kmap(v, data).Present? <==> (KERNBASE <= PGSIZE * v < KERNBASE + 0xE00_0000 || 0xFE00_0000 <= PGSIZE * v)
                                        && v < ALLPAGES
    ensures Kmap(v, data).Present? ==>
      && !Kmap(v, data).user
      && PGSIZE * Kmap(v, data).frame == (if PGSIZE * v < 0xFE00_0000 then PGSIZE * v - KERNBASE else PGSIZE * v)
      && (Kmap(v, data).flags == PTE_W <==> !(0x100 <= Kmap(v, data).frame < data))
      && (Kmap(v, data).flags == 0 <==> 0x100 <= Kmap(v, data).frame < data)
  {
  }

  /** setupkvm, with `data` the page at which the kernel's data begins. */
  method Setupkvm(k: Memory, data: nat) returns (r: Option<nat>)
    requires k.Valid() && 0x100 < data < 0xE000
    modifies k
    ensures k.Valid() && Apart(old(k.mem), old(k.owner), k.mem, k.owner)
    ensures r.Some? <==> |old(k.free)| >= 1 + KERNELTABLES
    ensures r.Some? ==> NewSpace(old(k.owner), k.owner, r.value) && KernelOnly(k.mem, r.value)
    ensures r.Some? ==> forall v: nat {:trigger Leaf(k.mem, r.value, v)} :: v < ALLPAGES ==>
      Leaf(k.mem, r.value, v) == Kmap(v, data)
    ensures r.Some? ==> |k.free| == |old(k.free)| - 1 - KERNELTABLES
    ensures r.None? ==> k.owner == old(k.owner)
  {
    hide Owned, DataKept, SameLeaves, OthersSame, SlotsUpTo, KernelOnly, AbsentFrom, KernelGrew, NewSpace, Apart,
      TornDown, NewTables;
    r := k.Kalloc();
    if r.None? {
      NothingHappened(k.mem, k.owner, k.free);
      return None;
    }
    var d := r.value;
    NewDirKeeps(k.mem, k.owner, k.free, d);
    k.mem := k.mem[d := NoEntries()];
    k.owner := k.owner[d := Dir];
    ghost var m0, o0, f0 := k.mem, k.owner, |k.free|;
    EmptyDir(m0, o0, k.free, d);
    var ok := MapKernel(k, d, data, m0, f0);
    SetUp(old(k.mem), old(k.owner), old(k.free), m0, o0, k.mem, k.owner, d);
    if !ok {
      ghost var m1, o1 := k.mem, k.owner;
      assert IsDir(o1, d) by {
        SpaceDir(old(k.owner), o1, d);
      }
      Freevm(k, d);
      NothingLeft(old(k.mem), old(k.owner), old(k.free), m1, o1, k.mem, k.owner, d);
      return None;
    }
  }

  lemma SpaceDir(o: Roles, o': Roles, d: nat)
    requires NewSpace(o, o', d)
    ensures IsDir(o', d)
  {
  }

  lemma NothingHappened(m: Mem, o: Roles, free: seq<nat>)
    requires Owned(m, o, free)
    ensures Apart(m, o, m, o)
  {
    DataStays(m, o, free, m, o, {});
  }

  lemma EmptyDir(m: Mem, o: Roles, free: seq<nat>, d: nat)
    requires Owned(m, o, free) && (forall i: nat :: Slot(m, d, i).Absent?) && (forall v: nat :: Leaf(m, d, v).Absent?)
    ensures KernelGrew(m, o, m, o, d) && AbsentFrom(m, d, USERPAGES) && SlotsUpTo(m, m, d, USERPAGES, USERPAGES)
    ensures KernelOnly(m, d) && NewTables(m, d, USERPAGES, USERPAGES) == 0
    ensures NewTables(m, d, USERPAGES, USERPAGES + 0xE000) == 56
  {
    GrewNothing(m, o, free, d);
    TablesOfEmpty(m, d, USERPAGES, USERPAGES + 0xE000);
  }

  lemma DeviceTables(m0: Mem, m: Mem, d: nat)
    requires (forall i: nat :: Slot(m0, d, i).Absent?) && SlotsUpTo(m0, m, d, USERPAGES, USERPAGES + 0xE000)
    requires AbsentFrom(m, d, USERPAGES + 0xE000)
    ensures NewTables(m, d, 0xFE000, 0xFE000) == 0 && NewTables(m, d, 0xFE000, ALLPAGES) == 8
    ensures SlotsUpTo(m, m, d, 0xFE000, 0xFE000) && AbsentFrom(m, d, 0xFE000)
  {
    forall v | 0xFE000 <= v < ALLPAGES ensures Slot(m, d, v / ENTRIES).Absent? {
      assert v / ENTRIES >= 1016;
      assert Slot(m, d, v / ENTRIES).Present? <==> Slot(m0, d, v / ENTRIES).Present? || 512 <= v / ENTRIES <= 567;
    }
    TablesOfEmpty(m, d, 0xFE000, ALLPAGES);
  }

  /** setupkvm's loop over kmap. */
  method MapKernel(k: Memory, d: nat, data: nat, ghost m0: Mem, ghost f0: nat) returns (ok: bool)
    requires k.Valid() && IsDir(k.owner, d) && 0x100 < data < 0xE000 && m0 == k.mem && f0 == |k.free|
    requires (forall i: nat :: Slot(m0, d, i).Absent?) && AbsentFrom(m0, d, USERPAGES)
    requires SlotsUpTo(m0, m0, d, USERPAGES, USERPAGES)
    requires KernelOnly(m0, d) && NewTables(m0, d, USERPAGES, USERPAGES) == 0
    requires NewTables(m0, d, USERPAGES, USERPAGES + 0xE000) == 56
    requires forall v: nat {:trigger Leaf(m0, d, v)} :: v < ALLPAGES ==> Leaf(m0, d, v).Absent?
    modifies k
    ensures k.Valid() && KernelGrew(old(k.mem), old(k.owner), k.mem, k.owner, d) && KernelOnly(k.mem, d)
    ensures ok <==> f0 >= KERNELTABLES
    ensures ok ==> |k.free| == f0 - KERNELTABLES
    ensures ok ==> forall v: nat {:trigger Leaf(k.mem, d, v)} :: v < ALLPAGES ==> Leaf(k.mem, d, v) == Kmap(v, data)
  {
    hide Owned, DataKept, OthersSame, SlotsUpTo, KernelOnly, AbsentFrom, NewTables, GrewIn, MapsRun, Leaf;
    TablesGrow(m0, d, USERPAGES, USERPAGES + 0x100, USERPAGES + 0xE000);
    TablesGrow(m0, d, USERPAGES, USERPAGES + data, USERPAGES + 0xE000);
    ok := Mappages(k, d, USERPAGES, 0x100, 0, PTE_W, m0, USERPAGES, f0);
    if !ok {
      return false;
    }
    ghost var m, o, m1 := k.mem, k.owner, k.mem;
    GrewDirs(old(k.owner), o, d, 0, 0);
    ok := Mappages(k, d, USERPAGES + 0x100, data - 0x100, 0x100, 0, m0, USERPAGES, f0);
    KernelGrewOn(old(k.mem), old(k.owner), m, o, k.mem, k.owner, d);
    if !ok {
      return false;
    }
    m, o := k.mem, k.owner;
    ghost var m2 := m;
    GrewDirs(old(k.owner), o, d, 0, 0);
    ok := Mappages(k, d, USERPAGES + data, 0xE000 - data, data, PTE_W, m0, USERPAGES, f0);
    KernelGrewOn(old(k.mem), old(k.owner), m, o, k.mem, k.owner, d);
    if !ok {
      return false;
    }
    m, o := k.mem, k.owner;
    GrewDirs(old(k.owner), o, d, 0, 0);
    DeviceTables(m0, m, d);
    ok := Mappages(k, d, 0xFE000, 0x2000, 0xFE000, PTE_W, m, 0xFE000, |k.free|);
    KernelGrewOn(old(k.mem), old(k.owner), m, o, k.mem, k.owner, d);
    if ok {
      FourRuns(m0, m1, m2, m, k.mem, d, data);
    }
  }

  lemma FourRuns(m0: Mem, m1: Mem, m2: Mem, m3: Mem, m4: Mem, d: nat, data: nat)
    requires 0x100 < data < 0xE000 && forall v: nat {:trigger Leaf(m0, d, v)} :: v < ALLPAGES ==> Leaf(m0, d, v).Absent?
    requires MapsRun(m0, m1, d, USERPAGES, 0x100, 0, PTE_W)
    requires MapsRun(m1, m2, d, USERPAGES + 0x100, data - 0x100, 0x100, 0)
    requires MapsRun(m2, m3, d, USERPAGES + data, 0xE000 - data, data, PTE_W)
    requires MapsRun(m3, m4, d, 0xFE000, 0x2000, 0xFE000, PTE_W)
    ensures forall v: nat {:trigger Leaf(m4, d, v)} :: v < ALLPAGES ==> Leaf(m4, d, v) == Kmap(v, data)
  {
    hide Leaf;
    forall v: nat | v < ALLPAGES ensures Leaf(m4, d, v) == Kmap(v, data) {
      var l0, l1, l2, l3 := Leaf(m0, d, v), Leaf(m1, d, v), Leaf(m2, d, v), Leaf(m3, d, v);
    }
  }
}
