/** Physical pages and who owns each: the free list, a page directory, a page table, a
    user page of an address space, or the kernel code that just allocated it. */
module Pages {
  import opened Blocks

  const PGSIZE := 4096
  const ENTRIES := 1024
  /** Pages below KERNBASE, and in the whole address space. */
  const USERPAGES := 0x8_0000
  const ALLPAGES := 0x10_0000

  const PTE_W := 2

  /** A directory or table entry; `flags` are those beside PTE_P and PTE_U. */
  datatype Pte = Absent | Present(frame: nat, user: bool, flags: nat)

  datatype Page = Entries(e: seq<Pte>) | Bytes(b: seq<Byte>)
  {
    predicate IsTable() { Entries? && |e| == ENTRIES }
    predicate IsData() { Bytes? && |b| == PGSIZE }
  }

  datatype Role = Free | Held | Dir | Table(d: nat, i: nat) | User(d: nat, v: nat)

  /** What every page holds, and the role of every page. */
  type Mem = map<nat, Page>
  type Roles = map<nat, Role>

  /** Entry i of the table in frame t. */
  function Slot(mem: Mem, t: nat, i: nat): Pte
  {
    if t in mem && mem[t].Entries? && i < |mem[t].e| then mem[t].e[i] else Absent
  }

  /** The entry that maps page v in directory d. */
  function Leaf(mem: Mem, d: nat, v: nat): Pte
  {
    var t := Slot(mem, d, v / ENTRIES);
    if t.Absent? then Absent else Slot(mem, t.frame, v % ENTRIES)
  }

  // ---- the partition ----

  /** Page p is what its role says. */
  ghost predicate Fits(mem: Mem, owner: Roles, free: seq<nat>, p: nat)
    requires p in owner
  {
    && p in mem && (owner[p].Free? <==> p in free)
    && match owner[p]
    case Free => mem[p].IsData()
    case Held => true
    case Dir => mem[p].IsTable()
    case Table(d, i) =>
      && mem[p].IsTable() && IsDir(owner, d) && i < ENTRIES
      && Slot(mem, d, i).Present? && Slot(mem, d, i).frame == p
    case User(d, v) =>
      && mem[p].IsData() && IsDir(owner, d) && v < USERPAGES
      && Leaf(mem, d, v).Present? && Leaf(mem, d, v).frame == p
  }

  ghost predicate IsDir(owner: Roles, d: nat) { d in owner && owner[d].Dir? }

  ghost predicate SlotFits(mem: Mem, owner: Roles, d: nat, i: nat)
  {
    var t := Slot(mem, d, i);
    t.Present? ==> t.frame in owner && owner[t.frame] == Table(d, i)
  }

  ghost predicate LeafFits(mem: Mem, owner: Roles, d: nat, v: nat)
  {
    var t := Leaf(mem, d, v);
    t.Present? ==> if v < USERPAGES then t.frame in owner && owner[t.frame] == User(d, v) else !t.user
  }

  /** Every page has one role, and every entry of every address space points to the
      page that has that entry's role: no page is used twice. */
  ghost predicate Owned(mem: Mem, owner: Roles, free: seq<nat>)
  {
    && (forall p :: p in owner ==> Fits(mem, owner, free, p))
    && (forall d: nat, i: nat :: IsDir(owner, d) && i < ENTRIES ==> SlotFits(mem, owner, d, i))
    && (forall d: nat, v: nat :: IsDir(owner, d) && v < ALLPAGES ==> LeafFits(mem, owner, d, v))
    && (forall k :: 0 <= k < |free| ==> free[k] in owner)
    && (forall j, k :: 0 <= j < k < |free| ==> free[j] != free[k])
  }

  /** Two places of two address spaces never share a page. */
  lemma UserPagesAreDistinct(mem: Mem, owner: Roles, free: seq<nat>, d: nat, v: nat, d': nat, v': nat)
    requires Owned(mem, owner, free) && IsDir(owner, d) && IsDir(owner, d') && v < USERPAGES && v' < USERPAGES
    requires Leaf(mem, d, v).Present? && Leaf(mem, d', v').Present? && Leaf(mem, d, v).frame == Leaf(mem, d', v').frame
    ensures d == d' && v == v'
  {
    assert LeafFits(mem, owner, d, v) && LeafFits(mem, owner, d', v');
  }

  /** The directory, table and page on the way to page v. */
  lemma OnTheWay(mem: Mem, owner: Roles, free: seq<nat>, d: nat, v: nat)
    requires Owned(mem, owner, free) && IsDir(owner, d) && v < ALLPAGES
    ensures d in mem && mem[d].IsTable() && SlotFits(mem, owner, d, v / ENTRIES) && LeafFits(mem, owner, d, v)
    ensures Slot(mem, d, v / ENTRIES).Present? ==>
      var t := Slot(mem, d, v / ENTRIES).frame;
      t in owner && owner[t] == Table(d, v / ENTRIES) && t in mem && mem[t].IsTable()
    ensures Leaf(mem, d, v).Present? && v < USERPAGES ==> var p := Leaf(mem, d, v).frame; p in mem && mem[p].IsData()
  {
    assert Fits(mem, owner, free, d);
    assert SlotFits(mem, owner, d, v / ENTRIES) && LeafFits(mem, owner, d, v);
    if Slot(mem, d, v / ENTRIES).Present? {
      assert Fits(mem, owner, free, Slot(mem, d, v / ENTRIES).frame);
    }
    if Leaf(mem, d, v).Present? && v < USERPAGES {
      assert Fits(mem, owner, free, Leaf(mem, d, v).frame);
    }
  }

  // ---- the steps that keep it ----

  /** The directories' entries are the same. */
  ghost predicate SameSlots(mem: Mem, mem': Mem, owner: Roles)
  {
    forall d: nat, i: nat {:trigger Slot(mem', d, i)} :: IsDir(owner, d) && i < ENTRIES ==>
      Slot(mem', d, i) == Slot(mem, d, i)
  }

  /** The address spaces' entries are the same. */
  ghost predicate SameLeaves(mem: Mem, mem': Mem, owner: Roles)
  {
    forall d: nat, v: nat {:trigger Leaf(mem', d, v)} :: IsDir(owner, d) && v < ALLPAGES ==>
      Leaf(mem', d, v) == Leaf(mem, d, v)
  }

  /** The entry of page v in d is now pte, the others are the same. */
  ghost predicate LeafSet(mem: Mem, mem': Mem, owner: Roles, d: nat, v: nat, pte: Pte)
  {
    forall d': nat, v': nat {:trigger Leaf(mem', d', v')} :: IsDir(owner, d') && v' < ALLPAGES ==>
      Leaf(mem', d', v') == if d' == d && v' == v then pte else Leaf(mem, d', v')
  }

  lemma KallocKeeps(mem: Mem, owner: Roles, free: seq<nat>)
    requires Owned(mem, owner, free) && free != []
    ensures Owned(mem, owner[free[0] := Held], free[1..]) && owner[free[0]].Free? && mem[free[0]].IsData()
  {
    var p, owner', free' := free[0], owner[free[0] := Held], free[1..];
    assert Fits(mem, owner, free, p);
    forall q | q in owner' ensures Fits(mem, owner', free', q) {
      assert Fits(mem, owner, free, q);
      assert q in free' <==> q in free && q != p;
    }
    forall d: nat, i: nat | IsDir(owner', d) && i < ENTRIES ensures SlotFits(mem, owner', d, i) {
      assert SlotFits(mem, owner, d, i);
    }
    forall d: nat, v: nat | IsDir(owner', d) && v < ALLPAGES ensures LeafFits(mem, owner', d, v) {
      assert LeafFits(mem, owner, d, v);
    }
  }

  /** Storing data in a page that is no table. */
  lemma StoreKeeps(mem: Mem, owner: Roles, free: seq<nat>, p: nat, page: Page)
    requires Owned(mem, owner, free) && p in owner && !owner[p].Dir? && !owner[p].Table? && page.IsData()
    ensures Owned(mem[p := page], owner, free) && SameSlots(mem, mem[p := page], owner)
    ensures SameLeaves(mem, mem[p := page], owner)
  {
    var mem' := mem[p := page];
    forall d: nat, v: nat | IsDir(owner, d) && v < ALLPAGES
      ensures Leaf(mem', d, v) == Leaf(mem, d, v) && LeafFits(mem', owner, d, v)
    {
      OnTheWay(mem, owner, free, d, v);
    }
    forall d: nat, i: nat | IsDir(owner, d) && i < ENTRIES ensures SlotFits(mem', owner, d, i) {
      assert SlotFits(mem, owner, d, i);
    }
    forall q | q in owner ensures Fits(mem', owner, free, q) {
      assert Fits(mem, owner, free, q);
    }
  }

  /** A page no one uses goes on the free list. */
  lemma ReleaseKeeps(mem: Mem, owner: Roles, free: seq<nat>, p: nat)
    requires Owned(mem, owner, free) && p in owner && owner[p].Held? && p in mem && mem[p].IsData()
    ensures Owned(mem, owner[p := Free], [p] + free)
  {
    var owner', free' := owner[p := Free], [p] + free;
    assert Fits(mem, owner, free, p);
    forall q | q in owner' ensures Fits(mem, owner', free', q) {
      assert Fits(mem, owner, free, q);
    }
    forall d: nat, i: nat | IsDir(owner', d) && i < ENTRIES ensures SlotFits(mem, owner', d, i) {
      assert SlotFits(mem, owner, d, i);
    }
    forall d: nat, v: nat | IsDir(owner', d) && v < ALLPAGES ensures LeafFits(mem, owner', d, v) {
      assert LeafFits(mem, owner, d, v);
    }
  }

  /** What writing an entry of a table does to the entries seen. */
  lemma TableWrite(mem: Mem, owner: Roles, free: seq<nat>, d: nat, v: nat, t: nat, pte: Pte)
    requires Owned(mem, owner, free) && IsDir(owner, d) && v < ALLPAGES
    requires Slot(mem, d, v / ENTRIES).Present? && Slot(mem, d, v / ENTRIES).frame == t && t in mem && mem[t].IsTable()
    ensures var mem' := mem[t := Entries(mem[t].e[v % ENTRIES := pte])];
      SameSlots(mem, mem', owner) && LeafSet(mem, mem', owner, d, v, pte)
  {
    var mem' := mem[t := Entries(mem[t].e[v % ENTRIES := pte])];
    OnTheWay(mem, owner, free, d, v);
    assert t in owner && owner[t] == Table(d, v / ENTRIES);
    hide Owned;
    forall d': nat, v': nat | IsDir(owner, d') && v' < ALLPAGES
      ensures Leaf(mem', d', v') == if d' == d && v' == v then pte else Leaf(mem, d', v')
    {
      OnTheWay(mem, owner, free, d', v');
      assert d' != t;
    }
  }

  /** A fresh table under entry i of directory d maps nothing. */
  lemma InstallKeeps(mem: Mem, owner: Roles, free: seq<nat>, d: nat, i: nat, t: nat, pte: Pte)
    requires Owned(mem, owner, free) && IsDir(owner, d) && i < ENTRIES && t in owner && owner[t].Held?
    requires d in mem && mem[d].IsTable() && Slot(mem, d, i).Absent? && pte.Present? && pte.frame == t
    ensures var mem', owner' := mem[t := NoEntries()][d := Entries(mem[d].e[i := pte])], owner[t := Table(d, i)];
      && Owned(mem', owner', free) && SameLeaves(mem, mem', owner)
      && forall d': nat, i': nat {:trigger Slot(mem', d', i')} :: IsDir(owner, d') && i' < ENTRIES ==>
           Slot(mem', d', i') == if d' == d && i' == i then pte else Slot(mem, d', i')
  {
    var mem', owner' := mem[t := NoEntries()][d := Entries(mem[d].e[i := pte])], owner[t := Table(d, i)];
    forall d': nat, i': nat | IsDir(owner, d') && i' < ENTRIES
      ensures Slot(mem', d', i') == (if d' == d && i' == i then pte else Slot(mem, d', i'))
      ensures SlotFits(mem', owner', d', i')
    {
      assert SlotFits(mem, owner, d', i') && Fits(mem, owner, free, d');
    }
    forall d': nat, v: nat | IsDir(owner, d') && v < ALLPAGES
      ensures Leaf(mem', d', v) == Leaf(mem, d', v) && LeafFits(mem', owner', d', v)
    {
      OnTheWay(mem, owner, free, d', v);
    }
    forall q | q in owner' ensures Fits(mem', owner', free, q) {
      assert Fits(mem, owner, free, q);
    }
  }

  function NoEntries(): (t: Page)
    ensures t.IsTable() && forall i :: 0 <= i < ENTRIES ==> t.e[i] == Absent
  {
    Entries(seq(ENTRIES, _ => Absent))
  }

  /** An entry written where there was none: a held page becomes the user page v of d,
      or the kernel maps one of its own pages, out of the user's reach. */
  lemma MapKeeps(mem: Mem, owner: Roles, free: seq<nat>, d: nat, v: nat, t: nat, pte: Pte)
    requires Owned(mem, owner, free) && IsDir(owner, d) && v < ALLPAGES && Leaf(mem, d, v).Absent? && pte.Present?
    requires Slot(mem, d, v / ENTRIES).Present? && Slot(mem, d, v / ENTRIES).frame == t && t in mem && mem[t].IsTable()
    requires if v < USERPAGES then
               pte.frame in owner && owner[pte.frame].Held? && pte.frame in mem && mem[pte.frame].IsData()
             else !pte.user
    ensures var mem' := mem[t := Entries(mem[t].e[v % ENTRIES := pte])];
      var owner' := if v < USERPAGES then owner[pte.frame := User(d, v)] else owner;
      Owned(mem', owner', free)
  {
    var mem' := mem[t := Entries(mem[t].e[v % ENTRIES := pte])];
    var owner' := if v < USERPAGES then owner[pte.frame := User(d, v)] else owner;
    TableWrite(mem, owner, free, d, v, t, pte);
    hide Slot, Leaf;
    forall d': nat, i: nat | IsDir(owner', d') && i < ENTRIES ensures SlotFits(mem', owner', d', i) {
      assert SlotFits(mem, owner, d', i) && Slot(mem', d', i) == Slot(mem, d', i);
    }
    forall d': nat, v': nat | IsDir(owner', d') && v' < ALLPAGES ensures LeafFits(mem', owner', d', v') {
      assert LeafFits(mem, owner, d', v');
      assert Leaf(mem', d', v') == if d' == d && v' == v then pte else Leaf(mem, d', v');
    }
    forall q | q in owner' ensures Fits(mem', owner', free, q) {
      assert Fits(mem, owner, free, q);
    }
  }

  /** A user page's entry cleared: the page belongs to no one. */
  lemma UnmapKeeps(mem: Mem, owner: Roles, free: seq<nat>, d: nat, v: nat, t: nat)
    requires Owned(mem, owner, free) && IsDir(owner, d) && v < USERPAGES && Leaf(mem, d, v).Present?
    requires Slot(mem, d, v / ENTRIES).Present? && Slot(mem, d, v / ENTRIES).frame == t && t in mem && mem[t].IsTable()
    ensures Leaf(mem, d, v).frame in owner && owner[Leaf(mem, d, v).frame] == User(d, v)
    ensures var mem' := mem[t := Entries(mem[t].e[v % ENTRIES := Absent])];
      var owner' := owner[Leaf(mem, d, v).frame := Held];
      Owned(mem', owner', free)
  {
    assert LeafFits(mem, owner, d, v);
    var p := Leaf(mem, d, v).frame;
    var mem', owner' := mem[t := Entries(mem[t].e[v % ENTRIES := Absent])], owner[p := Held];
    TableWrite(mem, owner, free, d, v, t, Absent);
    hide Slot, Leaf;
    forall d': nat, i: nat | IsDir(owner', d') && i < ENTRIES ensures SlotFits(mem', owner', d', i) {
      assert SlotFits(mem, owner, d', i) && Slot(mem', d', i) == Slot(mem, d', i);
    }
    forall d': nat, v': nat | IsDir(owner', d') && v' < ALLPAGES ensures LeafFits(mem', owner', d', v') {
      assert LeafFits(mem, owner, d', v');
      assert Leaf(mem', d', v') == if d' == d && v' == v then Absent else Leaf(mem, d', v');
    }
    forall q | q in owner' ensures Fits(mem', owner', free, q) {
      assert Fits(mem, owner, free, q);
    }
  }

  /** A held page cleared for a new directory, which maps nothing. */
  lemma NewDirKeeps(mem: Mem, owner: Roles, free: seq<nat>, d: nat)
    requires Owned(mem, owner, free) && d in owner && owner[d].Held?
    ensures var mem' := mem[d := NoEntries()];
      && Owned(mem', owner[d := Dir], free) && SameLeaves(mem, mem', owner)
      && (forall i: nat :: Slot(mem', d, i).Absent?) && (forall v: nat :: Leaf(mem', d, v).Absent?)
  {
    var mem', owner' := mem[d := NoEntries()], owner[d := Dir];
    assert forall i: nat :: Slot(mem', d, i).Absent?;
    forall d': nat, v: nat | IsDir(owner, d') && v < ALLPAGES
      ensures Leaf(mem', d', v) == Leaf(mem, d', v) && LeafFits(mem', owner', d', v)
    {
      OnTheWay(mem, owner, free, d', v);
    }
    forall d': nat, i: nat | IsDir(owner', d') && i < ENTRIES ensures SlotFits(mem', owner', d', i) {
      assert d' != d ==> SlotFits(mem, owner, d', i);
    }
    forall q | q in owner' ensures Fits(mem', owner', free, q) {
      assert Fits(mem, owner, free, q);
    }
  }

  /** Directory d and its tables given up. */
  ghost function Orphaned(owner: Roles, d: nat): Roles
  {
    map p | p in owner :: if p == d || (owner[p].Table? && owner[p].d == d) then Held else owner[p]
  }

  lemma OrphanKeeps(mem: Mem, owner: Roles, free: seq<nat>, d: nat)
    requires Owned(mem, owner, free) && IsDir(owner, d) && forall p :: p in owner && owner[p].User? ==> owner[p].d != d
    ensures Owned(mem, Orphaned(owner, d), free)
  {
    var owner' := Orphaned(owner, d);
    forall d': nat, i: nat | IsDir(owner', d') && i < ENTRIES ensures SlotFits(mem, owner', d', i) {
      assert IsDir(owner, d') && d' != d && SlotFits(mem, owner, d', i);
    }
    forall d': nat, v: nat | IsDir(owner', d') && v < ALLPAGES ensures LeafFits(mem, owner', d', v) {
      assert IsDir(owner, d') && d' != d && LeafFits(mem, owner, d', v);
    }
    forall q | q in owner' ensures Fits(mem, owner', free, q) {
      assert Fits(mem, owner, free, q);
    }
    forall k | 0 <= k < |free| ensures free[k] in owner' {
      assert free[k] in owner;
    }
  }
}
