/** kalloc.c and vm.c: pages handed out, mapped, unmapped and returned. */
module Vm {
  import opened Blocks
  import opened Pages

  const KERNBASE := 0x8000_0000

  /** What kfree fills a page with. */
  function Junk(): (p: Page)
    ensures p.IsData()
  {
    Bytes(seq(PGSIZE, _ => 1))
  }

  function Zeroes(): (p: Page)
    ensures p.IsData() && forall k :: 0 <= k < PGSIZE ==> p.b[k] == 0
  {
    Bytes(seq(PGSIZE, _ => 0))
  }

  /** Pages that n bytes take. */
  function PagesOf(n: nat): (k: nat)
    ensures PGSIZE * (k - 1) < n <= PGSIZE * k || n == k == 0
  {
    (n + PGSIZE - 1) / PGSIZE
  }

  // ---- what an operation on directory d did ----

  /** Pages lo to hi of d are unmapped, every other entry of every address space is as before. */
  ghost predicate Unmapped(m: Mem, m': Mem, o: Roles, d: nat, lo: nat, hi: nat)
  {
    forall d': nat, v: nat {:trigger Leaf(m', d', v)} :: IsDir(o, d') && v < ALLPAGES ==>
      Leaf(m', d', v) == if d' == d && lo <= v < hi then Absent else Leaf(m, d', v)
  }

  /** Exactly the pages d had there are free now. */
  ghost predicate Released(o: Roles, o': Roles, d: nat, lo: nat, hi: nat)
  {
    o'.Keys == o.Keys && forall p {:trigger o'[p]} :: p in o && p in o' ==>
      o'[p] == if o[p].User? && o[p].d == d && lo <= o[p].v < hi then Free else o[p]
  }

  /** Pages that kept their role kept their data. */
  ghost predicate DataKept(m: Mem, m': Mem, o: Roles, o': Roles)
  {
    forall p {:trigger o'[p]} :: p in o && p in o' && o[p] == o'[p] && (o[p].User? || o[p].Held?) ==>
      p in m && p in m' && m'[p] == m[p]
  }

  /** What a page is to hold and how it is to be mapped. */
  datatype Want = Want(data: Page, user: bool, flags: nat)

  ghost predicate IsMapped(m: Mem, pte: Pte, w: Want)
  {
    pte.Present? && pte.user == w.user && pte.flags == w.flags && pte.frame in m && m[pte.frame] == w.data
  }

  /** The byte at user address x of d. */
  function UserByte(m: Mem, d: nat, x: nat): Byte
  {
    var pte := Leaf(m, d, x / PGSIZE);
    if pte.Present? && pte.frame in m && m[pte.frame].IsData() then m[pte.frame].b[x % PGSIZE] else 0
  }

  /** Pages lo and on of d are mapped as wanted, every other entry of every address
      space is as before. */
  ghost predicate Filled(m: Mem, m': Mem, o: Roles, d: nat, lo: nat, ws: seq<Want>)
  {
    forall d': nat, v: nat {:trigger Leaf(m', d', v)} :: IsDir(o, d') && v < ALLPAGES ==>
      if d' == d && lo <= v < lo + |ws| then IsMapped(m', Leaf(m', d, v), ws[v - lo])
      else Leaf(m', d', v) == Leaf(m, d', v)
  }

  /** Free pages became tables of d and its user pages lo to hi; no other role changed. */
  ghost predicate GrewIn(o: Roles, o': Roles, d: nat, lo: nat, hi: nat)
  {
    o'.Keys == o.Keys && forall p {:trigger o'[p]} :: p in o && p in o' ==>
      if o[p].Free? then
        o'[p].Free? || (o'[p].Table? && o'[p].d == d) || (o'[p].User? && o'[p].d == d && lo <= o'[p].v < hi)
      else o'[p] == o[p]
  }

  /** The free pages that mapping pages lo to hi of d takes: each page, and each table
      that is not there yet. */
  ghost function Need(m: Mem, d: nat, lo: nat, hi: nat): nat
  {
    if hi <= lo then 0 else hi - lo + NewTables(m, d, lo, hi)
  }

  ghost function NewTables(m: Mem, d: nat, lo: nat, hi: nat): nat
  {
    if hi <= lo then 0 else NewTables(m, d, lo, hi - 1) + if NewTable(m, d, lo, hi - 1) then 1 else 0
  }

  /** Page v is the first from lo on under its directory entry, which was absent. */
  ghost predicate NewTable(m: Mem, d: nat, lo: nat, v: nat)
  {
    Slot(m, d, v / ENTRIES).Absent? && (v <= lo || v / ENTRIES != (v - 1) / ENTRIES)
  }

  /** The directory entries of d after pages lo to v were mapped. */
  ghost predicate SlotsUpTo(m: Mem, m': Mem, d: nat, lo: nat, v: nat)
  {
    forall i: nat {:trigger Slot(m', d, i)} :: i < ENTRIES ==>
      (Slot(m', d, i).Present? <==> Slot(m, d, i).Present? || (lo < v && lo / ENTRIES <= i <= (v - 1) / ENTRIES))
  }

  /** The roles after page v was mapped in d, with a new table if `slot` was absent. */
  ghost function AfterMap(o: Roles, free: seq<nat>, slot: Pte, d: nat, v: nat, pte: Pte): Roles
  {
    var o1 := if slot.Absent? && free != [] then o[free[0] := Table(d, v / ENTRIES)] else o;
    if v < USERPAGES && pte.Present? then o1[pte.frame := User(d, v)] else o1
  }

  /** Nothing is mapped under an absent directory entry. */
  lemma NothingUnder(m: Mem, o: Roles, free: seq<nat>, d: nat, v: nat, v': nat)
    requires Owned(m, o, free) && IsDir(o, d) && v < ALLPAGES && Slot(m, d, v / ENTRIES).Absent?
    requires v / ENTRIES == v' / ENTRIES
    ensures Leaf(m, d, v').Absent? && forall p :: p in o && o[p].User? ==> !(o[p].d == d && o[p].v == v')
  {
    forall p | p in o && o[p].User? ensures !(o[p].d == d && o[p].v == v') {
      assert Fits(m, o, free, p);
    }
  }

  /** The skip over an absent directory entry does what page by page would do. */
  lemma SkipIsPageByPage(m: Mem, o: Roles, free: seq<nat>, m0: Mem, o0: Roles, d: nat, lo: nat, v: nat, next: nat)
    requires Owned(m, o, free) && IsDir(o, d) && IsDir(o0, d) && v < ALLPAGES && Slot(m, d, v / ENTRIES).Absent?
    requires lo <= v <= next <= (v / ENTRIES + 1) * ENTRIES
    requires Unmapped(m0, m, o0, d, lo, v) && Released(o0, o, d, lo, v)
    ensures Unmapped(m0, m, o0, d, lo, next) && Released(o0, o, d, lo, next)
  {
    hide Leaf, Owned;
    forall d': nat, v': nat | IsDir(o0, d') && v' < ALLPAGES
      ensures Leaf(m, d', v') == if d' == d && lo <= v' < next then Absent else Leaf(m0, d', v')
    {
      if d' == d && v <= v' < next {
        NothingUnder(m, o, free, d, v, v');
      }
    }
    forall p | p in o0 && p in o
      ensures o[p] == if o0[p].User? && o0[p].d == d && lo <= o0[p].v < next then Free else o0[p]
    {
      if o0[p].User? && o0[p].d == d && v <= o0[p].v < next {
        NothingUnder(m, o, free, d, v, o0[p].v);
      }
    }
  }

  /** One page more unmapped and released. */
  lemma OnePageMore(m0: Mem, o0: Roles, m: Mem, o: Roles, m': Mem, o': Roles, d: nat, lo: nat, v: nat)
    requires Unmapped(m0, m, o0, d, lo, v) && Released(o0, o, d, lo, v) && DataKept(m0, m, o0, o) && lo <= v
    requires Unmapped(m, m', o, d, v, v + 1) && Released(o, o', d, v, v + 1) && DataKept(m, m', o, o')
    ensures Unmapped(m0, m', o0, d, lo, v + 1) && Released(o0, o', d, lo, v + 1) && DataKept(m0, m', o0, o')
  {
    hide Leaf;
    forall d': nat, v': nat | IsDir(o0, d') && v' < ALLPAGES
      ensures Leaf(m', d', v') == if d' == d && lo <= v' < v + 1 then Absent else Leaf(m0, d', v')
    {
      assert o[d'] == o0[d'];
      assert Leaf(m', d', v') == if d' == d && v' == v then Absent else Leaf(m, d', v');
    }
    forall p | p in o0 && p in o'
      ensures o'[p] == if o0[p].User? && o0[p].d == d && lo <= o0[p].v < v + 1 then Free else o0[p]
    {
      assert o'[p] == if o[p].User? && o[p].d == d && v <= o[p].v < v + 1 then Free else o[p];
    }
    forall p | p in o0 && p in o' && o0[p] == o'[p] && (o0[p].User? || o0[p].Held?)
      ensures p in m0 && p in m' && m'[p] == m0[p]
    {
      assert o[p] == o0[p];
    }
  }

  class Memory {
    var mem: Mem
    /** kmem.freelist. */
    var free: seq<nat>
    ghost var owner: Roles

    ghost predicate Valid()
      reads this
    {
      Owned(mem, owner, free)
    }

    /** freerange: pages first to last, freed one by one. */
    constructor Freerange(first: nat, last: nat)
      ensures Valid() && (forall p :: p in owner <==> first <= p < last) && (forall p :: p in owner ==> owner[p].Free?)
    {
      mem, free, owner := map[], [], map[];
      new;
      var p := first;
      while p < last
        invariant Valid() && (first <= p <= last || p == first)
        invariant (forall q :: q in owner <==> first <= q < p) && (forall q :: q in owner ==> owner[q].Free?)
      {
        AllFree(mem, owner, free, p);
        Kfree(p);
        owner := owner[p := Free];
        p := p + 1;
      }
    }

    method Kalloc() returns (r: Option<nat>)
      requires Valid()
      modifies `free, `owner
      ensures Valid()
      ensures if old(free) == [] then r.None? && free == [] && owner == old(owner)
              else r == Some(old(free)[0]) && free == old(free)[1..] && old(free)[0] in old(owner)
                   && old(owner[free[0]]).Free? && owner == old(owner)[old(free)[0] := Held]
                   && old(free)[0] in mem && mem[old(free)[0]].IsData()
    {
      if free == [] {
        return None;
      }
      KallocKeeps(mem, owner, free);
      r := Some(free[0]);
      owner := owner[free[0] := Held];
      free := free[1..];
    }

    /** kfree.  The role of the page is the caller's to settle. */
    method Kfree(p: nat)
      modifies `mem, `free
      ensures mem == old(mem)[p := Junk()] && free == [p] + old(free)
    {
      mem, free := mem[p := Junk()], [p] + free;
    }

    /** walkpgdir: the table for page v, which `alloc` creates if need be. */
    method Walkpgdir(d: nat, v: nat, alloc: bool) returns (t: Option<nat>)
      requires Valid() && IsDir(owner, d) && v < ALLPAGES
      modifies this
      ensures Valid()
      ensures t.None? <==> old(Slot(mem, d, v / ENTRIES)).Absent? && (!alloc || old(free) == [])
      ensures t.None? || old(Slot(mem, d, v / ENTRIES)).Present? ==>
        mem == old(mem) && free == old(free) && owner == old(owner)
      ensures t.Some? ==>
        && Slot(mem, d, v / ENTRIES).Present? && Slot(mem, d, v / ENTRIES).frame == t.value
        && t.value in mem && mem[t.value].IsTable()
      ensures t.Some? && old(Slot(mem, d, v / ENTRIES)).Absent? ==>
        && old(free) != [] && free == old(free)[1..] && owner == old(owner)[old(free)[0] := Table(d, v / ENTRIES)]
        && Slot(mem, d, v / ENTRIES) == Present(old(free)[0], true, PTE_W)
      ensures SameLeaves(old(mem), mem, old(owner)) && DataKept(old(mem), mem, old(owner), owner)
      ensures forall d': nat, i: nat {:trigger Slot(mem, d', i)} ::
        IsDir(old(owner), d') && i < ENTRIES && !(d' == d && i == v / ENTRIES) ==>
        Slot(mem, d', i) == old(Slot(mem, d', i))
    {
      hide Owned, Leaf, DataKept;
      OnTheWay(mem, owner, free, d, v);
      DataStays(mem, owner, free, mem, owner, {});
      var i := v / ENTRIES;
      if mem[d].e[i].Present? {
        return Some(mem[d].e[i].frame);
      }
      if !alloc {
        return None;
      }
      t := Kalloc();
      if t.None? {
        return None;
      }
      InstallKeeps(mem, owner, free, d, i, t.value, Present(t.value, true, PTE_W));
      mem := mem[t.value := NoEntries()];
      mem := mem[d := Entries(mem[d].e[i := Present(t.value, true, PTE_W)])];
      owner := owner[t.value := Table(d, i)];
      DataStays(old(mem), old(owner), old(free), mem, owner, {d, t.value});
    }

    /** One page of mappages, whose panic on a present entry the caller rules out. */
    method MapPage(d: nat, v: nat, pte: Pte) returns (ok: bool)
      requires Valid() && IsDir(owner, d) && v < ALLPAGES && Leaf(mem, d, v).Absent? && pte.Present?
      requires if v < USERPAGES then
                 pte.frame in owner && owner[pte.frame].Held? && pte.frame in mem && mem[pte.frame].IsData()
               else !pte.user
      modifies this
      ensures Valid()
      ensures ok <==> old(Slot(mem, d, v / ENTRIES)).Present? || old(free) != []
      ensures !ok ==> mem == old(mem) && free == old(free) && owner == old(owner)
      ensures ok ==> LeafSet(old(mem), mem, old(owner), d, v, pte)
      ensures ok ==> SlotsUpTo(old(mem), mem, d, v, v + 1)
      ensures ok ==> free == if old(Slot(mem, d, v / ENTRIES)).Absent? then old(free)[1..] else old(free)
      ensures ok ==> owner == AfterMap(old(owner), old(free), old(Slot(mem, d, v / ENTRIES)), d, v, pte)
      ensures DataKept(old(mem), mem, old(owner), owner)
      ensures v < USERPAGES ==>
        pte.frame in mem && pte.frame in old(mem) && mem[pte.frame] == old(mem)[pte.frame] && mem[pte.frame].IsData()
    {
      hide Owned, DataKept;
      Settled(mem, owner, free);
      var t := Walkpgdir(d, v, true);
      if t.None? {
        return false;
      }
      ghost var m, o := mem, owner;
      if v < USERPAGES {
        DataHere(old(mem), old(owner), m, o, pte.frame);
      }
      MapKeeps(mem, owner, free, d, v, t.value, pte);
      TableWrite(mem, owner, free, d, v, t.value, pte);
      OnTheWay(mem, owner, free, d, v);
      mem := mem[t.value := Entries(mem[t.value].e[v % ENTRIES := pte])];
      owner := if v < USERPAGES then owner[pte.frame := User(d, v)] else owner;
      DataChain(old(mem), old(owner), m, o, mem, owner, t.value, pte.frame);
      return true;
    }

    /** kalloc, fill and mappages of one user page, as in allocuvm and copyuvm; without
        free pages for it, `page` may be left in the caller's hands. */
    method MapFresh(d: nat, v: nat, w: Want) returns (ok: bool, page: Option<nat>)
      requires Valid() && IsDir(owner, d) && v < USERPAGES && Leaf(mem, d, v).Absent? && w.data.IsData()
      modifies this
      ensures Valid()
      ensures ok <==> |old(free)| >= if old(Slot(mem, d, v / ENTRIES)).Absent? then 2 else 1
      ensures page.Some? <==> old(free) != []
      ensures ok ==> Filled(old(mem), mem, old(owner), d, v, [w]) && GrewIn(old(owner), owner, d, v, v + 1)
      ensures ok ==> SlotsUpTo(old(mem), mem, d, v, v + 1) && DataKept(old(mem), mem, old(owner), owner)
      ensures ok ==> |free| == |old(free)| - if old(Slot(mem, d, v / ENTRIES)).Absent? then 2 else 1
      ensures !ok ==> free == [] && SameLeaves(old(mem), mem, old(owner))
      ensures !ok && page.None? ==> mem == old(mem) && owner == old(owner)
      ensures !ok && page.Some? ==> page.value in old(owner) && old(owner)[page.value].Free?
      ensures !ok && page.Some? ==> mem == old(mem)[page.value := w.data] && owner == old(owner)[page.value := Held]
    {
      hide Owned, DataKept, LeafSet, SameLeaves, SameSlots, Leaf, SlotsUpTo;
      page := Kalloc();
      if page.None? {
        LeavesStay(mem, mem, owner, owner);
        return false, None;
      }
      var p := page.value;
      StoreKeeps(mem, owner, free, p, w.data);
      StoreSeen(mem, mem[p := w.data], owner, d, v);
      ghost var o := owner;
      mem := mem[p := w.data];
      ghost var m := mem;
      var pte := Present(p, w.user, w.flags);
      ok := MapPage(d, v, pte);
      if ok {
        FreshFilled(old(mem), old(owner), old(free), m, o, mem, owner, d, v, p, w);
      } else {
        LeavesStay(old(mem), mem, owner, old(owner));
      }
    }

    /** One page of deallocuvm. */
    method UnmapPage(d: nat, v: nat, t: nat)
      requires Valid() && IsDir(owner, d) && v < USERPAGES && Leaf(mem, d, v).Present?
      requires Slot(mem, d, v / ENTRIES).Present? && Slot(mem, d, v / ENTRIES).frame == t && t in mem
      requires mem[t].IsTable()
      modifies this
      ensures Valid() && SameSlots(old(mem), mem, old(owner))
      ensures Unmapped(old(mem), mem, old(owner), d, v, v + 1) && Released(old(owner), owner, d, v, v + 1)
      ensures DataKept(old(mem), mem, old(owner), owner)
    {
      hide Owned, DataKept;
      OnTheWay(mem, owner, free, d, v);
      UnmapKeeps(mem, owner, free, d, v, t);
      TableWrite(mem, owner, free, d, v, t, Absent);
      var pa := mem[t].e[v % ENTRIES].frame;
      ghost var m1, o1 := mem[t := Entries(mem[t].e[v % ENTRIES := Absent])], owner[pa := Held];
      StoreKeeps(m1, o1, free, pa, Junk());
      ReleaseKeeps(m1[pa := Junk()], o1, free, pa);
      Kfree(pa);
      mem := mem[t := Entries(mem[t].e[v % ENTRIES := Absent])];
      owner := owner[pa := Free];
      assert mem == m1[pa := Junk()] && owner == o1[pa := Free];
      OnlyUser(old(mem), old(owner), old(free), d, v, pa);
      DataStays(old(mem), old(owner), old(free), mem, owner, {t, pa});
    }

    /** deallocuvm: the pages between the two sizes are unmapped and free. */
    method Deallocuvm(d: nat, oldsz: nat, newsz: nat) returns (sz: nat)
      requires Valid() && IsDir(owner, d) && oldsz <= KERNBASE
      modifies this
      ensures Valid() && SameSlots(old(mem), mem, old(owner))
      ensures sz == if newsz >= oldsz then oldsz else newsz
      ensures Unmapped(old(mem), mem, old(owner), d, PagesOf(newsz), PagesOf(oldsz))
      ensures Released(old(owner), owner, d, PagesOf(newsz), PagesOf(oldsz))
      ensures DataKept(old(mem), mem, old(owner), owner)
    {
      hide Owned, DataKept, Unmapped, Released, SameSlots;
      NoneUnmapped(mem, owner, free, d, PagesOf(newsz), PagesOf(newsz));
      if newsz >= oldsz {
        NoneUnmapped(mem, owner, free, d, PagesOf(newsz), PagesOf(oldsz));
        return oldsz;
      }
      var v, lo, hi := PagesOf(newsz), PagesOf(newsz), PagesOf(oldsz);
      while PGSIZE * v < oldsz
        invariant Valid() && lo <= v && SameSlots(old(mem), mem, old(owner))
        invariant var e := if v < hi then v else hi;
          Unmapped(old(mem), mem, old(owner), d, lo, e) && Released(old(owner), owner, d, lo, e)
        invariant DataKept(old(mem), mem, old(owner), owner)
        decreases hi - v
      {
        ghost var m, o := mem, owner;
        StillDir(old(owner), o, d, lo, v);
        var t := Walkpgdir(d, v, false);
        if t.None? {
          var next := (v / ENTRIES + 1) * ENTRIES;
          SkipIsPageByPage(mem, owner, free, old(mem), old(owner), d, lo, v, if next < hi then next else hi);
          v := next;
        } else {
          if mem[t.value].e[v % ENTRIES].Present? {
            UnmapPage(d, v, t.value);
            SlotsChain(old(mem), m, mem, old(owner), o, d, lo, v);
          } else {
            AbsentAlready(mem, owner, free, d, v);
          }
          OnePageMore(old(mem), old(owner), m, o, mem, owner, d, lo, v);
          v := v + 1;
        }
      }
      return newsz;
    }

    /** The way out of allocuvm when memory has run out. */
    method Giveup(d: nat, newsz: nat, oldsz: nat, page: Option<nat>)
      requires Valid() && IsDir(owner, d) && newsz <= KERNBASE
      requires (page.Some? ==> page.value in owner && owner[page.value].Held?)
      modifies this
      ensures Valid()
      ensures Unmapped(old(mem), mem, old(owner), d, PagesOf(oldsz), PagesOf(newsz))
      ensures var o := if page.Some? then old(owner)[page.value := Free] else old(owner);
        Released(o, owner, d, PagesOf(oldsz), PagesOf(newsz)) && DataKept(old(mem), mem, o, owner)
    {
      hide Owned, DataKept, Unmapped, Released, SameSlots, SameLeaves;
      ghost var lo, hi := PagesOf(oldsz), PagesOf(newsz);
      var sz := Deallocuvm(d, newsz, oldsz);
      if page.Some? {
        ghost var m, o, p := mem, owner, page.value;
        StillHeld(old(owner), o, d, lo, hi, p);
        StoreKeeps(mem, owner, free, p, Junk());
        ReleaseKeeps(mem[p := Junk()], owner, free, p);
        Kfree(page.value);
        owner := owner[p := Free];
        HeldGiven(old(mem), old(owner), m, o, mem, d, lo, hi, p);
      }
    }

    /** allocuvm: on success the new pages are mapped, zeroed and the user's to write;
        otherwise every mapping is as before, and only page tables may stay behind. */
    method Allocuvm(d: nat, oldsz: Word, newsz: Word) returns (sz: Word, ghost ok: bool)
      requires Valid() && IsDir(owner, d)
      requires newsz < KERNBASE ==> forall v :: PagesOf(oldsz) <= v < PagesOf(newsz) ==> Leaf(mem, d, v).Absent?
      modifies this
      ensures Valid()
      ensures ok <==> newsz < KERNBASE && |old(free)| >= old(Need(mem, d, PagesOf(oldsz), PagesOf(newsz)))
      ensures sz == if !ok then 0 else if newsz < oldsz then oldsz else newsz
      ensures DataKept(old(mem), mem, old(owner), owner)
      ensures ok && oldsz <= newsz ==>
        && Filled(old(mem), mem, old(owner), d, PagesOf(oldsz), Zeros(PagesOf(newsz) - PagesOf(oldsz)))
        && GrewIn(old(owner), owner, d, PagesOf(oldsz), PagesOf(newsz))
        && |free| == |old(free)| - old(Need(mem, d, PagesOf(oldsz), PagesOf(newsz)))
      ensures ok ==> forall v: nat {:trigger Leaf(mem, d, v)} :: PagesOf(oldsz) <= v < PagesOf(newsz) ==>
        Leaf(mem, d, v) == Present(Leaf(mem, d, v).frame, true, PTE_W)
      ensures ok ==> forall x: nat {:trigger UserByte(mem, d, x)} ::
        PagesOf(oldsz) <= x / PGSIZE < PagesOf(newsz) ==> UserByte(mem, d, x) == 0
      ensures !ok ==> SameLeaves(old(mem), mem, old(owner)) && GrewIn(old(owner), owner, d, 0, 0)
      ensures newsz < oldsz ==> mem == old(mem) && owner == old(owner) && free == old(free)
    {
      hide Owned, DataKept, Unmapped, Released, SameSlots, SameLeaves, Filled, GrewIn, SlotsUpTo, NewTable, Leaf,
        UserByte, NewTables;
      NothingYet(mem, owner, free, d, PagesOf(oldsz));
      if newsz >= KERNBASE {
        return 0, false;
      }
      var lo: nat, hi: nat := PagesOf(oldsz), PagesOf(newsz);
      if newsz < oldsz {
        assert hi <= lo;
        return oldsz, true;
      }
      var v := lo;
      while PGSIZE * v < newsz
        invariant Valid() && lo <= v <= hi
        invariant Filled(old(mem), mem, old(owner), d, lo, Zeros(v - lo)) && GrewIn(old(owner), owner, d, lo, v)
        invariant DataKept(old(mem), mem, old(owner), owner) && SlotsUpTo(old(mem), mem, d, lo, v)
        invariant |free| == |old(free)| - Need(old(mem), d, lo, v)
      {
        ghost var m, o, f := mem, owner, free;
        GrewDirs(old(owner), o, d, lo, v);
        FilledElsewhere(old(mem), m, old(owner), d, lo, Zeros(v - lo), v);
        SlotNow(old(mem), m, d, lo, v);
        NeedOneMore(old(mem), d, lo, v);
        var done, page := MapFresh(d, v, Want(Zeroes(), true, PTE_W));
        if !done {
          ghost var m1, o1 := mem, owner;
          NeedGrows(old(mem), d, lo, v + 1, hi);
          Giveup(d, newsz, oldsz, page);
          if page.Some? {
            BackAgain(o, page.value);
          }
          UnmappedFor(m1, mem, o1, o, d, lo, hi);
          Undone(old(mem), old(owner), old(free), m, o, m1, mem, owner, d, lo, v, hi, if page.Some? then page.value
                                                                                      else 0);
          return 0, false;
        }
        SlotsMore(old(mem), m, mem, d, lo, v);
        FilledMore(old(mem), old(owner), m, o, f, mem, owner, d, lo, Zeros(v - lo), Want(Zeroes(), true, PTE_W));
        assert Zeros(v - lo) + [Want(Zeroes(), true, PTE_W)] == Zeros(v + 1 - lo);
        v := v + 1;
      }
      ZerosRead(old(mem), mem, old(owner), d, lo, hi - lo);
      return newsz, true;
    }
  }

  lemma NeedOneMore(m: Mem, d: nat, lo: nat, v: nat)
    requires lo <= v
    ensures Need(m, d, lo, v + 1) == Need(m, d, lo, v) + if NewTable(m, d, lo, v) then 2 else 1
  {
  }

  /** Pages filled with zeros are the user's to write and read as zero. */
  lemma ZerosRead(m: Mem, m': Mem, o: Roles, d: nat, lo: nat, n: nat)
    requires IsDir(o, d) && Filled(m, m', o, d, lo, Zeros(n)) && lo + n <= ALLPAGES
    ensures forall v: nat {:trigger Leaf(m', d, v)} :: lo <= v < lo + n ==>
      Leaf(m', d, v) == Present(Leaf(m', d, v).frame, true, PTE_W)
    ensures forall x: nat {:trigger UserByte(m', d, x)} :: lo <= x / PGSIZE < lo + n ==> UserByte(m', d, x) == 0
  {
    hide Leaf;
    forall v: nat | lo <= v < lo + n ensures IsMapped(m', Leaf(m', d, v), Want(Zeroes(), true, PTE_W)) {
      assert Zeros(n)[v - lo] == Want(Zeroes(), true, PTE_W);
    }
  }

  /** Data stays when, next, a table is written and page x takes a role it did not have. */
  lemma DataChain(m0: Mem, o0: Roles, m: Mem, o: Roles, m': Mem, o': Roles, t: nat, x: nat)
    requires DataKept(m0, m, o0, o) && t in o && o[t].Table?
    requires forall p :: p in m && p != t ==> p in m' && m'[p] == m[p]
    requires forall p :: p in o' ==> p in o && (p != x ==> o'[p] == o[p])
    requires x in o && x in o' && x in o0 ==> o'[x] == o[x] || o'[x] != o0[x]
    ensures DataKept(m0, m', o0, o')
  {
    forall p | p in o0 && p in o' && o0[p] == o'[p] && (o0[p].User? || o0[p].Held?)
      ensures p in m0 && p in m' && m'[p] == m0[p]
    {
      assert o[p] == o0[p];
    }
  }

  lemma DataHere(m: Mem, o: Roles, m': Mem, o': Roles, p: nat)
    requires DataKept(m, m', o, o') && p in o && p in o' && o[p] == o'[p] && (o[p].User? || o[p].Held?)
    ensures p in m && p in m' && m'[p] == m[p]
  {
    assert o'[p] == o[p];
  }

  lemma AllFree(m: Mem, o: Roles, free: seq<nat>, p: nat)
    requires Owned(m, o, free) && p !in o && forall q :: q in o ==> o[q].Free?
    ensures Owned(m[p := Junk()], o[p := Free], [p] + free)
  {
    var m', o', free' := m[p := Junk()], o[p := Free], [p] + free;
    forall q | q in o' ensures Fits(m', o', free', q) {
      assert q != p ==> Fits(m, o, free, q);
    }
  }

  /** Only directories matter for what is seen of the tables. */
  lemma LeavesStay(m: Mem, m': Mem, o: Roles, o': Roles)
    requires m == m' || SameLeaves(m, m', o)
    requires forall d :: IsDir(o', d) ==> IsDir(o, d)
    ensures SameLeaves(m, m', o')
  {
  }

  lemma StoreSeen(m: Mem, m': Mem, o: Roles, d: nat, v: nat)
    requires SameSlots(m, m', o) && SameLeaves(m, m', o) && IsDir(o, d) && v < ALLPAGES
    ensures Slot(m', d, v / ENTRIES) == Slot(m, d, v / ENTRIES) && Leaf(m', d, v) == Leaf(m, d, v)
  {
  }

  lemma FreshFilled(m0: Mem, o0: Roles, free0: seq<nat>, m: Mem, o: Roles, m': Mem, o': Roles, d: nat, v: nat, p: nat,
                    w: Want)
    requires Owned(m0, o0, free0) && IsDir(o0, d) && v < USERPAGES && p in o0 && o0[p].Free? && free0 != []
    requires p == free0[0]
    requires o == o0[p := Held] && m == m0[p := w.data] && SameSlots(m0, m, o) && SameLeaves(m0, m, o)
    requires LeafSet(m, m', o, d, v, Present(p, w.user, w.flags)) && SlotsUpTo(m, m', d, v, v + 1)
    requires DataKept(m, m', o, o')
    requires o' == AfterMap(o, free0[1..], Slot(m, d, v / ENTRIES), d, v, Present(p, w.user, w.flags))
    requires p in m' && m'[p] == w.data
    ensures Filled(m0, m', o0, d, v, [w]) && GrewIn(o0, o', d, v, v + 1)
    ensures SlotsUpTo(m0, m', d, v, v + 1) && DataKept(m0, m', o0, o')
  {
    hide Leaf, Slot;
    assert |free0| > 1 ==> Fits(m0, o0, free0, free0[1]);
    forall d': nat, v': nat | IsDir(o0, d') && v' < ALLPAGES
      ensures if d' == d && v <= v' < v + 1 then IsMapped(m', Leaf(m', d, v'), w)
              else Leaf(m', d', v') == Leaf(m0, d', v')
    {
      assert o[d'] == o0[d'];
      assert Leaf(m', d', v') == if d' == d && v' == v then Present(p, w.user, w.flags) else Leaf(m, d', v');
      assert Leaf(m, d', v') == Leaf(m0, d', v');
    }
    forall i: nat | i < ENTRIES ensures Slot(m, d, i) == Slot(m0, d, i) {
      assert o[d] == o0[d];
    }
    forall q | q in o0 && q in o' && o0[q] == o'[q] && (o0[q].User? || o0[q].Held?)
      ensures q in m0 && q in m' && m'[q] == m0[q]
    {
      assert o[q] == o0[q] == o'[q];
    }
  }

  /** One page more mapped. */
  lemma FilledMore(m0: Mem, o0: Roles, m: Mem, o: Roles, free: seq<nat>, m': Mem, o': Roles, d: nat, lo: nat,
                   ws: seq<Want>, w: Want)
    requires Owned(m, o, free) && lo + |ws| < USERPAGES
    requires Filled(m0, m, o0, d, lo, ws) && GrewIn(o0, o, d, lo, lo + |ws|) && DataKept(m0, m, o0, o)
    requires var v := lo + |ws|; Filled(m, m', o, d, v, [w]) && GrewIn(o, o', d, v, v + 1) && DataKept(m, m', o, o')
    ensures Filled(m0, m', o0, d, lo, ws + [w]) && GrewIn(o0, o', d, lo, lo + |ws| + 1) && DataKept(m0, m', o0, o')
  {
    hide Leaf, Owned;
    var v, ws' := lo + |ws|, ws + [w];
    forall d': nat, v': nat | IsDir(o0, d') && v' < ALLPAGES
      ensures if d' == d && lo <= v' < lo + |ws'| then IsMapped(m', Leaf(m', d, v'), ws'[v' - lo])
              else Leaf(m', d', v') == Leaf(m0, d', v')
    {
      assert o[d'] == o0[d'];
      if d' == d && lo <= v' < v {
        assert Leaf(m', d, v') == Leaf(m, d, v') && IsMapped(m, Leaf(m, d, v'), ws[v' - lo]);
        LeafOwner(m, o, free, d, v');
        assert o'[Leaf(m, d, v').frame] == o[Leaf(m, d, v').frame];
      } else if d' == d && v' == v {
        assert IsMapped(m', Leaf(m', d, v'), [w][v' - v]);
      } else {
        assert Leaf(m', d', v') == Leaf(m, d', v') == Leaf(m0, d', v');
      }
    }
    forall q | q in o0 && q in o' && o0[q] == o'[q] && (o0[q].User? || o0[q].Held?)
      ensures q in m0 && q in m' && m'[q] == m0[q]
    {
      assert o[q] == o0[q] == o'[q];
    }
    forall q | q in o0 && q in o'
      ensures
        if o0[q].Free? then
          o'[q].Free? || (o'[q].Table? && o'[q].d == d) || (o'[q].User? && o'[q].d == d && lo <= o'[q].v < v + 1)
        else o'[q] == o0[q]
    {
      assert q in o && (o'[q] == o[q] || o[q].Free?);
    }
  }

  lemma LeafOwner(m: Mem, o: Roles, free: seq<nat>, d: nat, v: nat)
    requires Owned(m, o, free) && IsDir(o, d) && v < USERPAGES && Leaf(m, d, v).Present?
    ensures Leaf(m, d, v).frame in o && o[Leaf(m, d, v).frame] == User(d, v)
  {
    assert LeafFits(m, o, d, v);
  }

  lemma Settled(m: Mem, o: Roles, free: seq<nat>)
    requires Owned(m, o, free)
    ensures DataKept(m, m, o, o)
    ensures free != [] ==> free[0] in o && o[free[0]].Free?
  {
    DataStays(m, o, free, m, o, {});
    assert free != [] ==> Fits(m, o, free, free[0]);
  }

  // ---- allocuvm ----

  function Zeros(n: nat): (ws: seq<Want>)
    ensures |ws| == n && forall k :: 0 <= k < n ==> ws[k] == Want(Zeroes(), true, PTE_W)
  {
    seq(n, _ => Want(Zeroes(), true, PTE_W))
  }

  lemma SlotsMore(m0: Mem, m: Mem, m': Mem, d: nat, lo: nat, v: nat)
    requires lo <= v && SlotsUpTo(m0, m, d, lo, v) && SlotsUpTo(m, m', d, v, v + 1)
    ensures SlotsUpTo(m0, m', d, lo, v + 1)
  {
    forall i: nat | i < ENTRIES
      ensures Slot(m', d, i).Present? <==> Slot(m0, d, i).Present? || lo / ENTRIES <= i <= v / ENTRIES
    {
      assert Slot(m', d, i).Present? <==> Slot(m, d, i).Present? || i == v / ENTRIES;
    }
  }

  lemma SlotNow(m0: Mem, m: Mem, d: nat, lo: nat, v: nat)
    requires lo <= v < ALLPAGES && SlotsUpTo(m0, m, d, lo, v)
    ensures Slot(m, d, v / ENTRIES).Absent? <==> NewTable(m0, d, lo, v)
  {
    assert Slot(m, d, v / ENTRIES).Present? <==>
      Slot(m0, d, v / ENTRIES).Present? || (lo < v && lo / ENTRIES <= v / ENTRIES <= (v - 1) / ENTRIES);
  }

  lemma {:induction false} NeedGrows(m: Mem, d: nat, lo: nat, v: nat, hi: nat)
    requires v <= hi
    ensures Need(m, d, lo, v) <= Need(m, d, lo, hi)
  {
    if v < hi {
      NeedGrows(m, d, lo, v, hi - 1);
    }
  }

  lemma NothingYet(m: Mem, o: Roles, free: seq<nat>, d: nat, lo: nat)
    requires Owned(m, o, free)
    ensures Filled(m, m, o, d, lo, []) && GrewIn(o, o, d, lo, lo) && GrewIn(o, o, d, 0, 0)
    ensures DataKept(m, m, o, o) && SlotsUpTo(m, m, d, lo, lo) && SameLeaves(m, m, o)
  {
    DataStays(m, o, free, m, o, {});
  }

  lemma GrewDirs(o: Roles, o': Roles, d: nat, lo: nat, hi: nat)
    requires GrewIn(o, o', d, lo, hi)
    ensures forall d' :: IsDir(o, d') <==> IsDir(o', d')
  {
    forall d' ensures IsDir(o, d') <==> IsDir(o', d') {
      assert d' in o <==> d' in o';
      assert d' in o && d' in o' ==> o'[d'] == o[d'] || o[d'].Free?;
    }
  }

  lemma FilledElsewhere(m: Mem, m': Mem, o: Roles, d: nat, lo: nat, ws: seq<Want>, v: nat)
    requires Filled(m, m', o, d, lo, ws) && IsDir(o, d) && lo + |ws| <= v < ALLPAGES
    ensures Leaf(m', d, v) == Leaf(m, d, v)
  {
  }

  lemma BackAgain(o: Roles, p: nat)
    requires p in o && o[p].Free?
    ensures var o': Roles := o[p := Held]; o'[p := Free] == o
  {
  }

  lemma UnmappedFor(m: Mem, m': Mem, o: Roles, o': Roles, d: nat, lo: nat, hi: nat)
    requires Unmapped(m, m', o, d, lo, hi) && forall d' :: IsDir(o', d') ==> IsDir(o, d')
    ensures Unmapped(m, m', o', d, lo, hi)
  {
  }

  lemma StillHeld(o: Roles, o': Roles, d: nat, lo: nat, hi: nat, p: nat)
    requires Released(o, o', d, lo, hi) && p in o && o[p].Held?
    ensures p in o' && o'[p].Held?
  {
    assert p in o' && o'[p] == o[p];
  }

  lemma HeldGiven(m0: Mem, o0: Roles, m: Mem, o: Roles, m': Mem, d: nat, lo: nat, hi: nat, p: nat)
    requires p in o0 && o0[p].Held? && p in o && o[p].Held? && m' == m[p := Junk()]
    requires Unmapped(m0, m, o0, d, lo, hi) && Released(o0, o, d, lo, hi) && DataKept(m0, m, o0, o)
    requires SameLeaves(m, m', o)
    ensures Unmapped(m0, m', o0, d, lo, hi) && Released(o0[p := Free], o[p := Free], d, lo, hi)
    ensures DataKept(m0, m', o0[p := Free], o[p := Free])
  {
    hide Leaf;
    StillDir(o0, o, d, lo, hi);
    forall d': nat, v: nat | IsDir(o0, d') && v < ALLPAGES
      ensures Leaf(m', d', v) == if d' == d && lo <= v < hi then Absent else Leaf(m0, d', v)
    {
      assert Leaf(m', d', v) == Leaf(m, d', v);
    }
    var o1, o2 := o0[p := Free], o[p := Free];
    forall q | q in o1 && q in o2
      ensures o2[q] == if o1[q].User? && o1[q].d == d && lo <= o1[q].v < hi then Free else o1[q]
    {
      assert q != p ==> o[q] == if o0[q].User? && o0[q].d == d && lo <= o0[q].v < hi then Free else o0[q];
    }
    forall q | q in o1 && q in o2 && o1[q] == o2[q] && (o1[q].User? || o1[q].Held?)
      ensures q in m0 && q in m' && m'[q] == m0[q]
    {
      assert o[q] == o0[q];
    }
  }

  /** What was mapped from lo to v and then unmapped from lo to hi, where nothing was
      mapped before: only tables stay. */
  lemma Undone(m0: Mem, o0: Roles, free0: seq<nat>, m: Mem, o: Roles, m1: Mem, m': Mem, o': Roles, d: nat, lo: nat,
               v: nat, hi: nat, page: nat)
    requires Owned(m0, o0, free0) && IsDir(o0, d) && lo <= v <= hi <= USERPAGES
    requires forall x :: lo <= x < hi ==> Leaf(m0, d, x).Absent?
    requires Filled(m0, m, o0, d, lo, Zeros(v - lo)) && GrewIn(o0, o, d, lo, v) && DataKept(m0, m, o0, o)
    requires SameLeaves(m, m1, o) && forall p :: p in m && p != page ==> p in m1 && m1[p] == m[p]
    requires page in o ==> o[page].Free? || m1 == m
    requires Unmapped(m1, m', o, d, lo, hi) && Released(o, o', d, lo, hi) && DataKept(m1, m', o, o')
    ensures SameLeaves(m0, m', o0) && GrewIn(o0, o', d, 0, 0) && DataKept(m0, m', o0, o')
  {
    hide Leaf;
    forall d': nat, x: nat | IsDir(o0, d') && x < ALLPAGES ensures Leaf(m', d', x) == Leaf(m0, d', x) {
      assert o[d'] == o0[d'];
      assert Leaf(m1, d', x) == Leaf(m, d', x);
      assert (d' == d && lo <= x < v) || Leaf(m, d', x) == Leaf(m0, d', x);
    }
    forall p | p in o0 && p in o'
      ensures if o0[p].Free? then o'[p].Free? || (o'[p].Table? && o'[p].d == d) else o'[p] == o0[p]
    {
      assert Fits(m0, o0, free0, p);
      assert o'[p] == if o[p].User? && o[p].d == d && lo <= o[p].v < hi then Free else o[p];
    }
    forall p | p in o0 && p in o' && o0[p] == o'[p] && (o0[p].User? || o0[p].Held?)
      ensures p in m0 && p in m' && m'[p] == m0[p]
    {
      assert o[p] == o0[p];
    }
  }

  /** A page with one user role has no other. */
  lemma OnlyUser(m: Mem, o: Roles, free: seq<nat>, d: nat, v: nat, pa: nat)
    requires Owned(m, o, free) && pa in o && o[pa] == User(d, v)
    ensures forall p :: p in o && o[p] == User(d, v) ==> p == pa
  {
    assert Fits(m, o, free, pa);
    forall p | p in o && o[p] == User(d, v) ensures p == pa {
      assert Fits(m, o, free, p);
    }
  }

  lemma NoneUnmapped(m: Mem, o: Roles, free: seq<nat>, d: nat, lo: nat, hi: nat)
    requires Owned(m, o, free) && hi <= lo
    ensures Unmapped(m, m, o, d, lo, hi) && Released(o, o, d, lo, hi) && DataKept(m, m, o, o) && SameSlots(m, m, o)
  {
    DataStays(m, o, free, m, o, {});
  }

  lemma StillDir(o: Roles, o': Roles, d: nat, lo: nat, hi: nat)
    requires Released(o, o', d, lo, hi)
    ensures forall d' :: IsDir(o', d') <==> IsDir(o, d')
  {
    forall d' ensures IsDir(o', d') <==> IsDir(o, d') {
      assert d' in o <==> d' in o';
      assert d' in o ==> o'[d'] == if o[d'].User? && o[d'].d == d && lo <= o[d'].v < hi then Free else o[d'];
    }
  }

  lemma SlotsChain(m0: Mem, m: Mem, m': Mem, o0: Roles, o: Roles, d: nat, lo: nat, hi: nat)
    requires SameSlots(m0, m, o0) && SameSlots(m, m', o) && Released(o0, o, d, lo, hi)
    ensures SameSlots(m0, m', o0)
  {
    StillDir(o0, o, d, lo, hi);
    forall d': nat, i: nat | IsDir(o0, d') && i < ENTRIES ensures Slot(m', d', i) == Slot(m0, d', i) {
      assert Slot(m', d', i) == Slot(m, d', i) == Slot(m0, d', i);
    }
  }

  lemma AbsentAlready(m: Mem, o: Roles, free: seq<nat>, d: nat, v: nat)
    requires Owned(m, o, free) && IsDir(o, d) && v < USERPAGES && Leaf(m, d, v).Absent?
    ensures Unmapped(m, m, o, d, v, v + 1) && Released(o, o, d, v, v + 1) && DataKept(m, m, o, o)
  {
    DataStays(m, o, free, m, o, {});
    forall p | p in o ensures !(o[p].User? && o[p].d == d && o[p].v == v) {
      assert Fits(m, o, free, p);
    }
  }

  /** Data stays where only the pages xs changed, none of which keeps a data role. */
  lemma DataStays(m: Mem, o: Roles, free: seq<nat>, m': Mem, o': Roles, xs: set<nat>)
    requires Owned(m, o, free)
    requires forall p :: p in m && p !in xs ==> p in m' && m'[p] == m[p]
    requires forall p :: p in xs && p in o && p in o' && o[p] == o'[p] ==> !o[p].User? && !o[p].Held?
    ensures DataKept(m, m', o, o')
  {
    forall p | p in o && (o[p].User? || o[p].Held?) ensures p in m {
      assert Fits(m, o, free, p);
    }
  }
}
