/** The buffer cache over whole runs of any interleaving of its users. */
module BufRuns {
  import opened Blocks
  import opened BufSpec

  datatype Act =
    | Getting(b: nat)
    | Filling(i: nat)
    | Modifying(i: nat, b: nat, data: Block)
    | Pinning(i: nat)
    | Writing(i: nat)
    | Unlocking(i: nat)
    | Dropping(i: nat)

  /** What a user of the cache may do next, and what comes of it. */
  ghost predicate Does(c: Cache, a: Act, c': Cache)
    requires Shape(c)
  {
    match a
    case Getting(b) => b < |c.disk| && Get(c, ROOTDEV, b).1.Some? && c' == Get(c, ROOTDEV, b).0
    case Filling(i) =>
      && i < |c.bufs| && c.bufs[i].dev == ROOTDEV && c.bufs[i].refcnt > 0 && !c.bufs[i].locked
      && c.bufs[i].blockno < |c.disk|
      && c' == Fill(c, i)
    case Modifying(i, b, data) => Held(c, i) && c.bufs[i].blockno == b && c' == Modify(c, i, data)
    case Pinning(i) => Held(c, i) && c' == Pin(c, i)
    case Writing(i) => Held(c, i) && c' == WriteOut(c, i)
    case Unlocking(i) => Held(c, i) && i !in c.touched && c' == Unlock(c, i)
    case Dropping(i) =>
      && i < |c.bufs| && c.bufs[i].dev == ROOTDEV && c.bufs[i].refcnt > (if c.bufs[i].locked then 1 else 0)
      && c' == Drop(c, i)
  }

  predicate Held(c: Cache, i: nat) {
    i < |c.bufs| && c.bufs[i].locked && c.bufs[i].valid && c.bufs[i].dev == ROOTDEV && c.bufs[i].blockno < |c.disk|
  }

  ghost predicate IsRun(cs: seq<Cache>, acts: seq<Act>)
  {
    && |cs| == |acts| + 1
    && (forall i :: 0 <= i < |cs| ==> Shape(cs[i]))
    && forall i :: 0 <= i < |acts| ==> Does(cs[i], acts[i], cs[i + 1])
  }

  /** binit leaves every buffer unused, as device 0. */
  ghost predicate Booted(c: Cache)
  {
    && Shape(c) && c.touched == {}
    && forall i :: 0 <= i < |c.bufs| ==>
         c.bufs[i].dev == 0 && !c.bufs[i].valid && !c.bufs[i].dirty && !c.bufs[i].locked && c.bufs[i].refcnt == 0
  }

  /** A plain map of blocks after the same acts: only stores count. */
  function Plain(m: seq<Block>, acts: seq<Act>): (r: seq<Block>)
    ensures |r| == |m|
  {
    if acts == [] then m
    else
      var r := Plain(m, acts[..|acts| - 1]);
      match acts[|acts| - 1]
      case Modifying(_, b, data) => if b < |r| then r[b := data] else r
      case _ => r
  }

  lemma ActRefines(c: Cache, a: Act, c': Cache)
    requires Good(c) && Does(c, a, c')
    ensures Good(c') && |c'.disk| == |c.disk| && |c'.bufs| == |c.bufs|
    ensures forall x: nat {:trigger View(c', x)} :: x < |c.disk| ==>
      View(c', x) == match a case Modifying(_, b, data) => if x == b then data else View(c, x) case _ => View(c, x)
  {
    hide View, GoodBuf, FirstIn, LastFree;
    match a
    case Getting(b) => GetKeepsView(c, b);
    case Filling(i) => FillKeepsView(c, i);
    case Modifying(i, b, data) => ModifyChangesView(c, i, data);
    case Pinning(i) => PinKeepsView(c, i);
    case Writing(i) => WriteOutKeepsView(c, i);
    case Unlocking(i) => UnlockKeepsView(c, i);
    case Dropping(i) => DropKeepsView(c, i);
  }

  /** Over every run the cache and the disk behind it are one plain block map: bread
      shows the last data stored in a block, whatever was recycled in between. */
  lemma {:induction false} RunIsPlainMap(cs: seq<Cache>, acts: seq<Act>, k: nat)
    requires IsRun(cs, acts) && Booted(cs[0]) && k <= |acts|
    ensures Good(cs[k]) && |cs[k].disk| == |cs[0].disk| && |cs[k].bufs| == |cs[0].bufs|
    ensures forall x: nat {:trigger View(cs[k], x)} :: x < |cs[0].disk| ==>
      View(cs[k], x) == Plain(cs[0].disk, acts[..k])[x]
  {
    hide View, Does, Good;
    if k == 0 {
      BootedIsGood(cs[0]);
    } else {
      RunIsPlainMap(cs, acts, k - 1);
      ActRefines(cs[k - 1], acts[k - 1], cs[k]);
      assert acts[..k][..k - 1] == acts[..k - 1];
      forall x: nat | x < |cs[0].disk| ensures View(cs[k], x) == Plain(cs[0].disk, acts[..k])[x] {
        assert View(cs[k - 1], x) == Plain(cs[0].disk, acts[..k - 1])[x];
      }
    }
  }

  lemma BootedIsGood(c: Cache)
    requires Booted(c)
    ensures Good(c) && forall x: nat {:trigger View(c, x)} :: x < |c.disk| ==> View(c, x) == c.disk[x]
  {
    forall i | 0 <= i < |c.bufs| ensures GoodBuf(c, i) {
    }
    forall x: nat | x < |c.disk| ensures View(c, x) == c.disk[x] {
      ViewUncached(c, x);
    }
  }

  // ---- references ----

  /** How often bget has returned buffer i. */
  function Gets(cs: seq<Cache>, acts: seq<Act>, k: nat, i: nat): nat
    requires k <= |acts| <= |cs| && forall j :: 0 <= j < |cs| ==> Shape(cs[j])
  {
    if k == 0 then 0
    else Gets(cs, acts, k - 1, i)
         + if acts[k - 1].Getting? && Get(cs[k - 1], ROOTDEV, acts[k - 1].b).1 == Some(i) then 1 else 0
  }

  /** How often an act was done. */
  function Times(acts: seq<Act>, k: nat, a: Act): nat
    requires k <= |acts|
  {
    if k == 0 then 0 else Times(acts, k - 1, a) + if acts[k - 1] == a then 1 else 0
  }

  lemma CountStep(c: Cache, a: Act, c': Cache, i: nat)
    requires Shape(c) && Does(c, a, c') && i < |c.bufs|
    ensures |c'.bufs| == |c.bufs|
    ensures c'.bufs[i].refcnt ==
      c.bufs[i].refcnt + (if a.Getting? && Get(c, ROOTDEV, a.b).1 == Some(i) then 1 else 0)
      - (if a == Dropping(i) then 1 else 0)
    ensures a == Filling(i) ==> !c.bufs[i].locked && c'.bufs[i].locked
    ensures a == Unlocking(i) ==> c.bufs[i].locked && !c'.bufs[i].locked
    ensures a != Filling(i) && a != Unlocking(i) ==> c'.bufs[i].locked == c.bufs[i].locked
  {
    hide FirstIn, LastFree, ToFront;
  }

  /** Over every run from binit, a buffer's refcnt is the number of times bget returned it less
      the number of times brelse gave it back, and its lock is held exactly if it was taken once
      more than released. */
  lemma {:induction false} ReferencesAddUp(cs: seq<Cache>, acts: seq<Act>, k: nat, i: nat)
    requires IsRun(cs, acts) && Booted(cs[0]) && k <= |acts| && i < |cs[0].bufs|
    ensures |cs[k].bufs| == |cs[0].bufs|
    ensures cs[k].bufs[i].refcnt == Gets(cs, acts, k, i) - Times(acts, k, Dropping(i))
    ensures Times(acts, k, Filling(i)) - Times(acts, k, Unlocking(i)) == if cs[k].bufs[i].locked then 1 else 0
  {
    hide Does, Shape, Get;
    if k > 0 {
      ReferencesAddUp(cs, acts, k - 1, i);
      CountStep(cs[k - 1], acts[k - 1], cs[k], i);
    }
  }

  /** So once every reference is given back the buffer is bget's to recycle, unless log_write
      has pinned it. */
  lemma GivenBackIsFree(cs: seq<Cache>, acts: seq<Act>, k: nat, i: nat)
    requires IsRun(cs, acts) && Booted(cs[0]) && k <= |acts| && i < |cs[0].bufs|
    ensures |cs[k].bufs| == |cs[0].bufs|
    ensures cs[k].bufs[i].Free() <==> Gets(cs, acts, k, i) == Times(acts, k, Dropping(i)) && !cs[k].bufs[i].dirty
  {
    hide Does, Shape, Get;
    ReferencesAddUp(cs, acts, k, i);
  }

  /** bread and brelse of block b, where bget finds a buffer that no one holds: the holder has
      what bread is to show, and afterwards the buffer is referred to as often as before. */
  lemma BreadAndBack(c: Cache, b: nat) returns (cs: seq<Cache>, i: nat)
    requires Good(c) && b < |c.disk| && Get(c, ROOTDEV, b).1.Some? && Get(c, ROOTDEV, b).1.value < |c.bufs|
    requires !c.bufs[Get(c, ROOTDEV, b).1.value].locked
    ensures cs != [] && cs[0] == c && IsRun(cs, [Getting(b), Filling(i), Unlocking(i), Dropping(i)])
    ensures Held(cs[2], i) && cs[2].bufs[i].blockno == b && cs[2].bufs[i].data == View(c, b)
    ensures i < |c.bufs| == |cs[4].bufs| && !cs[4].bufs[i].locked && cs[4].bufs[i].refcnt == c.bufs[i].refcnt
  {
    hide View, Good, Get, ToFront, Shape;
    GoodIsShape(c);
    var r := Get(c, ROOTDEV, b);
    i := r.1.value;
    var c1 := r.0;
    GetKeepsView(c, b);
    GetsOne(c, b);
    Unheld(c, i);
    var c2 := Fill(c1, i);
    FillKeepsView(c1, i);
    var c3 := Unlock(c2, i);
    UnlockKeepsView(c2, i);
    var c4 := Drop(c3, i);
    DropKeepsView(c3, i);
    GoodIsShape(c1);
    GoodIsShape(c2);
    GoodIsShape(c3);
    GoodIsShape(c4);
    cs := [c, c1, c2, c3, c4];
  }

  /** Who holds a buffer can store in it and bwrite it: the disk has the data, and bread shows it. */
  lemma HolderWrites(c: Cache, i: nat, data: Block) returns (cs: seq<Cache>)
    requires Good(c) && Held(c, i)
    ensures var b := c.bufs[i].blockno;
      && cs != [] && cs[0] == c && IsRun(cs, [Modifying(i, b, data), Writing(i)])
      && |cs[2].bufs| == |c.bufs| && cs[2].disk == c.disk[b := data] && !cs[2].bufs[i].dirty
      && Shape(cs[2]) && View(cs[2], b) == data
  {
    hide View, Good, Shape;
    var c1 := Modify(c, i, data);
    ModifyChangesView(c, i, data);
    var c2 := WriteOut(c1, i);
    WriteOutKeepsView(c1, i);
    GoodIsShape(c);
    GoodIsShape(c1);
    GoodIsShape(c2);
    cs := [c, c1, c2];
  }

  /** Or hand it to log_write: it stays off the disk, no bget recycles it, and bread shows it. */
  lemma HolderLogs(c: Cache, i: nat, data: Block) returns (cs: seq<Cache>)
    requires Good(c) && Held(c, i)
    ensures var b := c.bufs[i].blockno;
      && cs != [] && cs[0] == c && IsRun(cs, [Modifying(i, b, data), Pinning(i)])
      && |cs[2].bufs| == |c.bufs| && cs[2].disk == c.disk && !cs[2].bufs[i].Free() && cs[2].bufs[i].dirty
      && Shape(cs[2]) && View(cs[2], b) == data
  {
    hide View, Good, Shape;
    var c1 := Modify(c, i, data);
    ModifyChangesView(c, i, data);
    var c2 := Pin(c1, i);
    PinKeepsView(c1, i);
    GoodIsShape(c);
    GoodIsShape(c1);
    GoodIsShape(c2);
    cs := [c, c1, c2];
  }

  lemma Unheld(c: Cache, i: nat)
    requires Good(c) && i < |c.bufs| && !c.bufs[i].locked
    ensures i !in c.touched
  {
    assert GoodBuf(c, i);
  }

  // ---- recency ----

  /** When buffer i was last given up by its last user, -1 for never. */
  function LastOut(cs: seq<Cache>, acts: seq<Act>, k: nat, i: nat): (t: int)
    requires k <= |acts| <= |cs| && forall j :: 0 <= j < |cs| ==> i < |cs[j].bufs|
    ensures -1 <= t < k
  {
    if k == 0 then -1
    else if acts[k - 1] == Dropping(i) && cs[k - 1].bufs[i].refcnt == 1 then k - 1
    else LastOut(cs, acts, k - 1, i)
  }

  /** The ring is in order of last use, most recent first. */
  lemma {:induction false} RingIsRecency(cs: seq<Cache>, acts: seq<Act>, k: nat, n: nat, x: nat, y: nat)
    requires IsRun(cs, acts) && k <= |acts| && (forall j :: 0 <= j < |cs| ==> |cs[j].bufs| == n) && x < y < n
    ensures LastOut(cs, acts, k, cs[k].ring[x]) >= LastOut(cs, acts, k, cs[k].ring[y])
  {
    hide Does, Shape;
    RingBounds(cs[k]);
    if k > 0 {
      var c, c', a := cs[k - 1], cs[k], acts[k - 1];
      RingBounds(c);
      if a.Dropping? {
        DropBounds(c, a, c');
      }
      if a.Dropping? && c.bufs[a.i].refcnt == 1 {
        var x0, y0 := MovedToFront(c, a.i, c', x, y);
        if x > 0 {
          RingIsRecency(cs, acts, k - 1, n, x0, y0);
        }
      } else {
        SameRing(c, a, c');
        RingIsRecency(cs, acts, k - 1, n, x, y);
      }
    }
  }

  /** The buffer bget recycles for a block without one is, of those it may recycle, one
      released longest ago. */
  lemma RecyclesLeastRecent(cs: seq<Cache>, acts: seq<Act>, k: nat, n: nat, b: nat, j: nat)
    requires IsRun(cs, acts) && k <= |acts| && (forall m :: 0 <= m < |cs| ==> |cs[m].bufs| == n)
    requires forall i :: 0 <= i < n ==> !cs[k].bufs[i].Is(ROOTDEV, b)
    requires j < n && cs[k].bufs[j].Free()
    ensures var r := Get(cs[k], ROOTDEV, b).1;
      r.Some? && r.value < n && LastOut(cs, acts, k, r.value) <= LastOut(cs, acts, k, j)
  {
    hide Does, FirstIn, LastFree, LastOut;
    var c := cs[k];
    assert j in c.ring;
    var y: nat :| y < |c.ring| && c.ring[y] == j;
    assert FirstIn(c, 0, ROOTDEV, b) == |c.ring|;
    var q := LastFree(c, |c.ring|);
    assert q >= y;
    if y < q {
      RingIsRecency(cs, acts, k, n, y, q);
    }
  }

  lemma DropBounds(c: Cache, a: Act, c': Cache)
    requires Shape(c) && Does(c, a, c') && a.Dropping?
    ensures a.i < |c.bufs|
  {
  }

  lemma RingBounds(c: Cache)
    requires Shape(c)
    ensures |c.ring| == |c.bufs| && forall k :: 0 <= k < |c.ring| ==> c.ring[k] < |c.bufs|
  {
  }

  /** Where two buffers of the new ring stood before buffer i moved to the front. */
  lemma MovedToFront(c: Cache, i: nat, c': Cache, x: nat, y: nat) returns (x0: nat, y0: nat)
    requires Shape(c) && Does(c, Dropping(i), c') && c.bufs[i].refcnt == 1 && x < y < |c.ring|
    ensures y0 < |c.ring| == |c'.ring| && c'.ring[y] == c.ring[y0] != i
    ensures if x == 0 then c'.ring[0] == i else x0 < y0 && c'.ring[x] == c.ring[x0] != i
  {
    assert i in c.ring;
    var p: nat :| p < |c.ring| && c.ring[p] == i;
    RingAfter(c, i, c', p);
    hide Does, Shape;
    MovedFrom(c.ring, p, x);
    MovedFrom(c.ring, p, y);
    y0, x0 := FromBefore(y, p), FromBefore(x, p);
  }

  lemma RingAfter(c: Cache, i: nat, c': Cache, p: nat)
    requires Shape(c) && Does(c, Dropping(i), c') && c.bufs[i].refcnt == 1 && p < |c.ring| && c.ring[p] == i
    ensures c'.ring == [i] + (c.ring[..p] + c.ring[p + 1..]) && Distinct(c.ring)
  {
    hide Without;
    WithoutOne(c.ring, p);
  }

  lemma SameRing(c: Cache, a: Act, c': Cache)
    requires Shape(c) && Does(c, a, c') && !(a.Dropping? && c.bufs[a.i].refcnt == 1)
    ensures c'.ring == c.ring
  {
  }
}
