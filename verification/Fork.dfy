/** vm.c: copyuvm, and copyout into another address space. */
module Fork {
  import opened Blocks
  import opened Pages
  import opened Vm
  import opened Spaces

  /** Page v of d as a copy is to have it. */
  ghost function WantOf(m: Mem, d: nat, v: nat): Want
  {
    var pte := Leaf(m, d, v);
    if pte.Present? && pte.frame in m then Want(m[pte.frame], pte.user, pte.flags) else Want(Zeroes(), false, 0)
  }

  /** Both pages are there, with the same flags. */
  predicate SameRights(a: Pte, b: Pte) { a.Present? && b.Present? && a.user == b.user && a.flags == b.flags }

  ghost function Wants(m: Mem, d: nat, n: nat): (ws: seq<Want>)
    ensures |ws| == n && forall v :: 0 <= v < n ==> ws[v] == WantOf(m, d, v)
  {
    seq(n, v requires v >= 0 => WantOf(m, d, v))
  }

  /** Free pages that copying n user pages takes. */
  function CopyNeed(n: nat): nat { 1 + KERNELTABLES + n + (n + ENTRIES - 1) / ENTRIES }

  /** With f free pages the copy of n pages runs out just when it has a page and needs
      a table for it. */
  predicate RunsOutAtTable(f: nat, n: nat)
  {
    && f > KERNELTABLES && (f - 1 - KERNELTABLES) % (ENTRIES + 1) == 1
    && (f - 1 - KERNELTABLES) / (ENTRIES + 1) * ENTRIES < n
  }

  /** Where the count of free pages stands before page v. */
  lemma WhereItEnds(f: nat, v: nat, n: nat)
    requires f > KERNELTABLES && v <= n && f - 1 - KERNELTABLES >= v + (v + ENTRIES - 1) / ENTRIES
    ensures var left := f - 1 - KERNELTABLES - v - (v + ENTRIES - 1) / ENTRIES;
      && (v == n ==> f >= CopyNeed(n) && !RunsOutAtTable(f, n))
      && (v < n && left == 0 ==> f < CopyNeed(n) && !RunsOutAtTable(f, n))
      && (v < n && left == 1 && v % ENTRIES == 0 ==> f < CopyNeed(n) && RunsOutAtTable(f, n))
  {
    var q, r, g := v / 1024, v % 1024, f - 65;
    assert v == 1024 * q + r;
    TablesFor(v, q, r);
    TablesFor(n, n / 1024, n % 1024);
    var x := g / 1025;
    assert g == 1025 * x + g % 1025;
    assert 1024 * x < n ==> n / 1024 >= x;
    if g == 1025 * q + (if r == 0 then 0 else r + 1) {
      SplitOf(g, q, if r == 0 then 0 else r + 1);
    } else if g == 1025 * q + 1 && r == 0 {
      SplitOf(g, q, 1);
    }
  }

  lemma TablesFor(v: nat, q: nat, r: nat)
    requires v == 1024 * q + r && r < 1024
    ensures (v + 1023) / 1024 == if r == 0 then q else q + 1
  {
    if r == 0 {
      DivOf(v + 1023, q, 1023);
    } else {
      DivOf(v + 1023, q + 1, r - 1);
    }
  }

  lemma SplitOf(g: nat, q: nat, r: nat)
    requires g == 1025 * q + r && r < 1025
    ensures g / 1025 == q && g % 1025 == r
  {
  }

  /** A space grown page by page is still the only thing new. */
  lemma SpaceGrown(m: Mem, o: Roles, m0: Mem, o0: Roles, m': Mem, o': Roles, c: nat, ws: seq<Want>)
    requires NewSpace(o, o0, c) && Apart(m, o, m0, o0)
    requires Filled(m0, m', o0, c, 0, ws) && GrewIn(o0, o', c, 0, |ws|) && DataKept(m0, m', o0, o')
    ensures NewSpace(o, o', c) && Apart(m, o, m', o')
  {
    hide Leaf;
    forall p | p in o && p in o' ensures if o[p].Free? then o'[p].Free? || Of(o'[p], p, c) else o'[p] == o[p] {
      assert p in o0 && (o'[p] == o0[p] || o0[p].Free?);
    }
    assert o'[c] == o0[c];
    forall d': nat, v: nat | IsDir(o, d') && v < ALLPAGES ensures Leaf(m', d', v) == Leaf(m, d', v) {
      assert o0[d'] == o[d'] && d' != c;
      assert Leaf(m', d', v) == Leaf(m0, d', v);
    }
    forall p | p in o && p in o' && o[p] == o'[p] && (o[p].User? || o[p].Held?)
      ensures p in m && p in m' && m'[p] == m[p]
    {
      assert o0[p] == o[p];
    }
  }

  /** The parent's page v while the child is being made. */
  lemma ParentPage(m: Mem, o: Roles, free: seq<nat>, m': Mem, o': Roles, d: nat, v: nat)
    requires Owned(m, o, free) && Apart(m, o, m', o') && IsDir(o, d) && v < USERPAGES && Leaf(m, d, v).Present?
    requires d in o' && o'[d] == o[d]
    requires forall p :: p in o && o[p].User? ==> p in o' && o'[p] == o[p]
    ensures Leaf(m', d, v) == Leaf(m, d, v) && WantOf(m', d, v) == WantOf(m, d, v) && WantOf(m, d, v).data.IsData()
    ensures Leaf(m, d, v).frame in m'
  {
    OnTheWay(m, o, free, d, v);
    assert Leaf(m', d, v) == Leaf(m, d, v);
    var p := Leaf(m, d, v).frame;
    assert o'[p] == o[p];
  }

  lemma RolesKept(o: Roles, o': Roles, c: nat)
    requires NewSpace(o, o', c)
    ensures IsDir(o', c) && !IsDir(o, c) && o'.Keys == o.Keys && forall p :: p in o && !o[p].Free? ==>
      p in o' && o'[p] == o[p]
  {
    forall p | p in o && !o[p].Free? ensures p in o' && o'[p] == o[p] {
      assert p in o';
    }
  }

  /** The child thrown away; a page `x` that was still in hand is lost. */
  lemma Abandoned(m: Mem, o: Roles, free: seq<nat>, m0: Mem, o0: Roles, x: Option<nat>, m1: Mem, o1: Roles, m2: Mem,
                  o2: Roles, c: nat)
    requires Owned(m, o, free) && NewSpace(o, o0, c) && Apart(m, o, m0, o0) && SameLeaves(m0, m1, o0)
    requires if x.None? then m1 == m0 && o1 == o0
             else x.value in o0 && o0[x.value].Free? && o1 == o0[x.value := Held] && forall p ::
               p in m0 && p != x.value ==> p in m1 && m1[p] == m0[p]
    requires TornDown(o1, o2, c) && OthersSame(m1, m2, o1, c) && DataKept(m1, m2, o1, o2)
    ensures o2 == (if x.None? then o else o[x.value := Held]) && Apart(m, o, m2, o2)
    ensures (x.Some? ==> x.value in o && o[x.value].Free?)
  {
    hide Leaf;
    forall p | p in o && p in o2 ensures o2[p] == if x == Some(p) then Held else o[p] {
      assert p in o1 && p in o0 && Fits(m, o, free, p);
      assert o2[p] == if Of(o1[p], p, c) then Free else o1[p];
    }
    assert o2.Keys == o.Keys;
    forall d': nat, v: nat | IsDir(o, d') && v < ALLPAGES ensures Leaf(m2, d', v) == Leaf(m, d', v) {
      assert o0[d'] == o[d'] && d' != c && o1[d'] == o0[d'];
      assert Leaf(m2, d', v) == Leaf(m1, d', v) == Leaf(m0, d', v) == Leaf(m, d', v);
    }
    forall p | p in o && p in o2 && o[p] == o2[p] && (o[p].User? || o[p].Held?)
      ensures p in m && p in m2 && m2[p] == m[p]
    {
      assert o0[p] == o[p] && o1[p] == o[p];
    }
  }

  /** copyuvm.  The copy has the parent's bytes and flags on pages that were free; the
      parent and every other address space are as before.  A copy that fails leaves
      every page with its role, but for one that is lost exactly if the free pages
      run out when a page is in hand and a table is due. */
  method Copyuvm(k: Memory, d: nat, sz: nat, data: nat) returns (r: Option<nat>, ghost lost: Option<nat>)
    requires k.Valid() && IsDir(k.owner, d) && sz <= KERNBASE && 0x100 < data < 0xE000
    requires forall v :: 0 <= v < PagesOf(sz) ==> Leaf(k.mem, d, v).Present?
    modifies k
    ensures k.Valid() && Apart(old(k.mem), old(k.owner), k.mem, k.owner)
    ensures r.Some? <==> |old(k.free)| >= CopyNeed(PagesOf(sz))
    ensures lost.Some? <==> RunsOutAtTable(|old(k.free)|, PagesOf(sz))
    ensures r.Some? ==> NewSpace(old(k.owner), k.owner, r.value)
    ensures r.Some? ==> forall v: nat {:trigger Leaf(k.mem, r.value, v)} :: v < USERPAGES ==>
      if v < PagesOf(sz) then IsMapped(k.mem, Leaf(k.mem, r.value, v), WantOf(old(k.mem), d, v))
      else Leaf(k.mem, r.value, v).Absent?
    ensures r.Some? ==> forall v: nat {:trigger Leaf(k.mem, r.value, v)} :: v < PagesOf(sz) ==>
      SameRights(Leaf(k.mem, r.value, v), Leaf(old(k.mem), d, v))
      && Leaf(k.mem, r.value, v).frame != Leaf(old(k.mem), d, v).frame
    ensures r.Some? ==> forall x: nat {:trigger UserByte(k.mem, r.value, x)} :: x < PGSIZE * PagesOf(sz) ==>
      UserByte(k.mem, r.value, x) == UserByte(old(k.mem), d, x)
    ensures r.None? && lost.None? ==> k.owner == old(k.owner)
    ensures lost.Some? ==>
      && r.None? && lost.value in old(k.owner) && old(k.owner)[lost.value].Free?
      && k.owner == old(k.owner)[lost.value := Held]
  {
    hide Owned, DataKept, SameLeaves, SlotsUpTo, KernelOnly, NewSpace, Apart, TornDown, OthersSame, Filled, GrewIn,
      Leaf, RunsOutAtTable, NewTables, WantOf, NewTable;
    lost := None;
    r := Setupkvm(k, data);
    if r.None? {
      assert !RunsOutAtTable(|old(k.free)|, PagesOf(sz)) by {
        NoRoom(|old(k.free)|, PagesOf(sz));
      }
      return None, None;
    }
    var c, n, v := r.value, PagesOf(sz), 0;
    ghost var m0, o0, f1 := k.mem, k.owner, |k.free|;
    NothingYet(m0, o0, k.free, c, 0);
    SpaceDir(old(k.owner), o0, c);
    while PGSIZE * v < sz
      invariant 0 <= v <= n && k.Valid()
      invariant Filled(m0, k.mem, o0, c, 0, Wants(old(k.mem), d, v)) && GrewIn(o0, k.owner, c, 0, v)
      invariant DataKept(m0, k.mem, o0, k.owner) && SlotsUpTo(m0, k.mem, c, 0, v)
      invariant |k.free| == f1 - Need(m0, c, 0, v)
    {
      ghost var m, o, f := k.mem, k.owner, k.free;
      SpaceGrown(old(k.mem), old(k.owner), m0, o0, m, o, c, Wants(old(k.mem), d, v));
      RolesKept(old(k.owner), o, c);
      ParentPage(old(k.mem), old(k.owner), old(k.free), m, o, d, v);
      ChildPage(m0, o0, m, old(k.owner), c, v, Wants(old(k.mem), d, v));
      NeedOfCopy(m0, c, v);
      SlotNow(m0, m, c, 0, v);
      var w := ReadPage(k, d, v);
      var done, page := k.MapFresh(c, v, w);
      if !done {
        WhereItEnds(|old(k.free)|, v, n);
        lost := page;
        ghost var m1, o1 := k.mem, k.owner;
        Freevm(k, c);
        Abandoned(old(k.mem), old(k.owner), old(k.free), m, o, page, m1, o1, k.mem, k.owner, c);
        return None, lost;
      }
      FilledMore(m0, o0, m, o, f, k.mem, k.owner, c, 0, Wants(old(k.mem), d, v), w);
      SlotsMore(m0, m, k.mem, c, 0, v);
      NeedOfCopy(m0, c, v + 1);
      assert Wants(old(k.mem), d, v) + [w] == Wants(old(k.mem), d, v + 1);
      v := v + 1;
    }
    NeedOfCopy(m0, c, n);
    WhereItEnds(|old(k.free)|, n, n);
    SpaceGrown(old(k.mem), old(k.owner), m0, o0, k.mem, k.owner, c, Wants(old(k.mem), d, n));
    CopyDone(m0, o0, k.mem, c, n, old(k.mem), d);
    CopyIsSame(old(k.mem), old(k.owner), old(k.free), d, k.mem, k.owner, k.free, c, n);
  }

  /** Pages that are mapped as wanted have the parent's bytes and flags. */
  lemma CopyIsSame(was: Mem, o: Roles, free: seq<nat>, d: nat, m: Mem, o': Roles, free': seq<nat>, c: nat, n: nat)
    requires Owned(was, o, free) && IsDir(o, d) && n <= USERPAGES && forall v :: 0 <= v < n ==> Leaf(was, d, v).Present?
    requires Owned(m, o', free') && NewSpace(o, o', c)
    requires forall v: nat {:trigger Leaf(m, c, v)} :: v < n ==> IsMapped(m, Leaf(m, c, v), WantOf(was, d, v))
    ensures forall v: nat {:trigger Leaf(m, c, v)} :: v < n ==>
      SameRights(Leaf(m, c, v), Leaf(was, d, v)) && Leaf(m, c, v).frame != Leaf(was, d, v).frame
    ensures forall x: nat {:trigger UserByte(m, c, x)} :: x < PGSIZE * n ==> UserByte(m, c, x) == UserByte(was, d, x)
  {
    hide Leaf, Owned;
    RolesKept(o, o', c);
    forall v: nat | v < n
      ensures SameRights(Leaf(m, c, v), Leaf(was, d, v)) && Leaf(m, c, v).frame != Leaf(was, d, v).frame
      ensures Leaf(m, c, v).frame in m && Leaf(was, d, v).frame in was
      ensures m[Leaf(m, c, v).frame] == was[Leaf(was, d, v).frame]
    {
      OnTheWay(was, o, free, d, v);
      LeafOwner(was, o, free, d, v);
      LeafOwner(m, o', free', c, v);
    }
    forall x: nat | x < PGSIZE * n ensures UserByte(m, c, x) == UserByte(was, d, x) {
      assert x / PGSIZE < n;
    }
  }

  /** What copyuvm reads of the parent's page. */
  method ReadPage(k: Memory, d: nat, v: nat) returns (w: Want)
    requires k.Valid() && IsDir(k.owner, d) && v < USERPAGES && Leaf(k.mem, d, v).Present?
    requires Leaf(k.mem, d, v).frame in k.mem
    modifies k
    ensures k.mem == old(k.mem) && k.owner == old(k.owner) && k.free == old(k.free) && w == WantOf(k.mem, d, v)
  {
    var t := k.Walkpgdir(d, v, false);
    var pte := k.mem[t.value].e[v % ENTRIES];
    w := Want(k.mem[pte.frame], pte.user, pte.flags);
  }

  lemma NoRoom(f: nat, n: nat)
    requires f < 1 + KERNELTABLES
    ensures !RunsOutAtTable(f, n) && f < CopyNeed(n)
  {
  }

  lemma NeedOfCopy(m: Mem, c: nat, v: nat)
    requires KernelOnly(m, c) && v <= USERPAGES
    ensures Need(m, c, 0, v) == v + (v + ENTRIES - 1) / ENTRIES
    ensures v < USERPAGES ==> Need(m, c, 0, v + 1) == Need(m, c, 0, v) + (if NewTable(m, c, 0, v) then 2 else 1)
    ensures v < USERPAGES ==> (NewTable(m, c, 0, v) <==> v % ENTRIES == 0)
  {
    TablesOfEmpty(m, c, 0, v);
  }

  lemma ChildPage(m0: Mem, o0: Roles, m: Mem, o: Roles, c: nat, v: nat, ws: seq<Want>)
    requires NewSpace(o, o0, c) && KernelOnly(m0, c) && Filled(m0, m, o0, c, 0, ws) && v == |ws| < USERPAGES
    ensures Leaf(m, c, v).Absent?
  {
    assert Leaf(m, c, v) == Leaf(m0, c, v);
  }

  lemma CopyDone(m0: Mem, o0: Roles, m: Mem, c: nat, n: nat, was: Mem, d: nat)
    requires IsDir(o0, c) && KernelOnly(m0, c) && Filled(m0, m, o0, c, 0, Wants(was, d, n)) && n <= USERPAGES
    ensures forall v: nat {:trigger Leaf(m, c, v)} :: v < USERPAGES ==>
      if v < n then IsMapped(m, Leaf(m, c, v), WantOf(was, d, v)) else Leaf(m, c, v).Absent?
  {
    hide Leaf;
    forall v: nat | v < USERPAGES
      ensures if v < n then IsMapped(m, Leaf(m, c, v), WantOf(was, d, v)) else Leaf(m, c, v).Absent?
    {
      assert v < n ==> Wants(was, d, n)[v] == WantOf(was, d, v);
      assert v >= n ==> Leaf(m, c, v) == Leaf(m0, c, v);
    }
  }

  // ---- copyout ----

  /** uva2ka finds page v: it is there and the user's. */
  ghost predicate Reachable(m: Mem, d: nat, v: nat) { v < ALLPAGES && Leaf(m, d, v).Present? && Leaf(m, d, v).user }

  /** How a copy ends; `Fault` is uva2ka's read through the null pointer that
      walkpgdir returns where there is no page table. */
  datatype Outcome = Copied | Refused | Fault

  /** d's bytes from va on are src, every other byte of every address space is as before. */
  ghost predicate Written(m: Mem, m': Mem, o: Roles, d: nat, va: nat, src: seq<Byte>)
  {
    forall d': nat, x: nat {:trigger UserByte(m', d', x)} :: IsDir(o, d') && x < KERNBASE ==>
      UserByte(m', d', x) == if d' == d && va <= x < va + |src| then src[x - va] else UserByte(m, d', x)
  }

  /** memmove of src into one page, at user address `at`. */
  lemma PieceWritten(m: Mem, o: Roles, free: seq<nat>, d: nat, at: nat, src: seq<Byte>, page: Page)
    requires Owned(m, o, free) && IsDir(o, d) && at < KERNBASE && Reachable(m, d, at / PGSIZE)
    requires |src| <= PGSIZE - at % PGSIZE
    requires page.IsData() && Leaf(m, d, at / PGSIZE).frame in m && m[Leaf(m, d, at / PGSIZE).frame].IsData()
    requires forall j :: 0 <= j < PGSIZE ==>
      page.b[j] == if at % PGSIZE <= j < at % PGSIZE + |src| then src[j - at % PGSIZE]
                   else m[Leaf(m, d, at / PGSIZE).frame].b[j]
    ensures var m' := m[Leaf(m, d, at / PGSIZE).frame := page];
      Owned(m', o, free) && SameLeaves(m, m', o) && SameSlots(m, m', o) && Written(m, m', o, d, at, src)
  {
    hide Leaf, Owned;
    var p := Leaf(m, d, at / PGSIZE).frame;
    var m' := m[p := page];
    LeafOwner(m, o, free, d, at / PGSIZE);
    StoreKeeps(m, o, free, p, page);
    forall d': nat, x: nat | IsDir(o, d') && x < KERNBASE
      ensures UserByte(m', d', x) == if d' == d && at <= x < at + |src| then src[x - at] else UserByte(m, d', x)
    {
      assert Leaf(m', d', x / PGSIZE) == Leaf(m, d', x / PGSIZE);
      if Leaf(m, d', x / PGSIZE).Present? {
        LeafOwner(m, o, free, d', x / PGSIZE);
        SamePage(at, x, |src|);
      } else {
        SamePage(at, x, |src|);
      }
    }
  }

  lemma SamePage(at: nat, x: nat, n: nat)
    requires n <= PGSIZE - at % PGSIZE
    ensures at <= x < at + n ==> x / PGSIZE == at / PGSIZE
    ensures x / PGSIZE == at / PGSIZE ==> x % PGSIZE - at % PGSIZE == x - at
  {
  }

  lemma WrittenOn(m0: Mem, m: Mem, m': Mem, o: Roles, d: nat, va: nat, src: seq<Byte>, i: nat, j: nat)
    requires i <= j <= |src| && Written(m0, m, o, d, va, src[..i]) && Written(m, m', o, d, va + i, src[i..j])
    ensures Written(m0, m', o, d, va, src[..j])
  {
    hide UserByte;
    forall d': nat, x: nat | IsDir(o, d') && x < KERNBASE
      ensures UserByte(m', d', x) == if d' == d && va <= x < va + j then src[..j][x - va] else UserByte(m0, d', x)
    {
      assert UserByte(m', d', x) == if d' == d && va + i <= x < va + j then src[i..j][x - va - i]
                                    else UserByte(m, d', x);
      assert UserByte(m, d', x) == if d' == d && va <= x < va + i then src[..i][x - va] else UserByte(m0, d', x);
    }
  }

  /** uva2ka for page v: its frame, or None if it is not the user's. */
  method Uva2ka(k: Memory, d: nat, v: nat) returns (pa: Option<nat>, fault: bool)
    requires k.Valid() && IsDir(k.owner, d) && v < ALLPAGES
    modifies k
    ensures k.Valid() && k.mem == old(k.mem) && k.owner == old(k.owner) && k.free == old(k.free)
    ensures (fault <==> Slot(k.mem, d, v / ENTRIES).Absent?) && (fault ==> pa.None?)
    ensures pa.Some? <==> Reachable(k.mem, d, v)
    ensures pa.Some? ==>
      v < USERPAGES && pa.value == Leaf(k.mem, d, v).frame && pa.value in k.mem && k.mem[pa.value].IsData()
  {
    OnTheWay(k.mem, k.owner, k.free, d, v);
    hide Owned;
    var t := k.Walkpgdir(d, v, false);
    if t.None? {
      return None, true;
    }
    var pte := k.mem[t.value].e[v % ENTRIES];
    if pte.Absent? {
      return None, false;
    }
    if !pte.user {
      return None, false;
    }
    return Some(pte.frame), false;
  }

  /** copyout: page by page, yet one flat write of the first `done` bytes; all of them
      exactly if every page they lie on is there and the user's.  Where uva2ka reads through
      a null page table pointer the outcome is Fault, and nothing is promised of memory. */
  method Copyout(k: Memory, d: nat, va: Word, src: seq<Byte>) returns (r: Outcome, ghost done: nat)
    requires k.Valid() && IsDir(k.owner, d)
    modifies k
    ensures done <= |src| && forall x :: va <= x < va + done ==> Reachable(old(k.mem), d, x / PGSIZE)
    ensures !r.Fault? ==>
      && k.Valid() && k.owner == old(k.owner) && k.free == old(k.free) && SameLeaves(old(k.mem), k.mem, k.owner)
      && Written(old(k.mem), k.mem, k.owner, d, va, src[..done])
    ensures r.Copied? <==> done == |src|
    ensures done < |src| ==>
      && !Reachable(old(k.mem), d, (va + done) / PGSIZE)
      && (r.Fault? <==> Slot(old(k.mem), d, (va + done) / PGSIZE / ENTRIES).Absent?)
  {
    hide Owned, SameLeaves, SameSlots, Written, Leaf, Slot, UserByte;
    var a: Word, i := va, 0;
    NothingWritten(k.mem, k.owner, d, va);
    assert src[..0] == [];
    while i < |src|
      invariant 0 <= i <= |src| && k.Valid() && k.owner == old(k.owner) && k.free == old(k.free)
      invariant SameLeaves(old(k.mem), k.mem, k.owner) && SameSlots(old(k.mem), k.mem, k.owner)
      invariant Written(old(k.mem), k.mem, k.owner, d, va, src[..i])
      invariant forall x :: va <= x < va + i ==> Reachable(old(k.mem), d, x / PGSIZE)
      invariant i < |src| ==> a == va + i
    {
      ghost var m := k.mem;
      var v, off := a / PGSIZE, a % PGSIZE;
      SeenAs(old(k.mem), m, k.owner, d, v);
      var pa, fault := Uva2ka(k, d, v);
      if fault {
        return Fault, i;
      }
      if pa.None? {
        return Refused, i;
      }
      var n := PGSIZE - off;
      if n > |src| - i {
        n := |src| - i;
      }
      var b := k.mem[pa.value].b;
      var page := Bytes(b[..off] + src[i..i + n] + b[off + n..]);
      PieceWritten(k.mem, k.owner, k.free, d, a, src[i..i + n], page);
      k.mem := k.mem[pa.value := page];
      WrittenOn(old(k.mem), m, k.mem, k.owner, d, va, src, i, i + n);
      LeavesOn(old(k.mem), m, k.mem, k.owner);
      forall x | va <= x < va + i + n ensures Reachable(old(k.mem), d, x / PGSIZE) {
        SamePage(a, x, n);
      }
      a, i := (PGSIZE * v + PGSIZE) % 0x1_0000_0000, i + n;
    }
    return Outcome.Copied, i;
  }

  lemma NothingWritten(m: Mem, o: Roles, d: nat, va: nat)
    ensures Written(m, m, o, d, va, []) && SameLeaves(m, m, o) && SameSlots(m, m, o)
  {
  }

  lemma SeenAs(m: Mem, m': Mem, o: Roles, d: nat, v: nat)
    requires SameLeaves(m, m', o) && SameSlots(m, m', o) && IsDir(o, d)
    ensures Reachable(m', d, v) <==> Reachable(m, d, v)
    ensures v < ALLPAGES ==> Slot(m', d, v / ENTRIES) == Slot(m, d, v / ENTRIES)
  {
    assert v < ALLPAGES ==> Leaf(m', d, v) == Leaf(m, d, v);
  }

  lemma LeavesOn(m: Mem, m': Mem, m'': Mem, o: Roles)
    requires SameLeaves(m, m', o) && SameLeaves(m', m'', o) && SameSlots(m, m', o) && SameSlots(m', m'', o)
    ensures SameLeaves(m, m'', o) && SameSlots(m, m'', o)
  {
    hide Leaf, Slot;
    forall d: nat, i: nat | IsDir(o, d) && i < ENTRIES ensures Slot(m'', d, i) == Slot(m, d, i) {
      assert Slot(m'', d, i) == Slot(m', d, i);
    }
    forall d: nat, v: nat | IsDir(o, d) && v < ALLPAGES ensures Leaf(m'', d, v) == Leaf(m, d, v) {
      assert Leaf(m'', d, v) == Leaf(m', d, v);
    }
  }
}
