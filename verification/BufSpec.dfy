/** What the buffer cache of bio.c computes, as functions on its state, and why it
    never shows: through bread a plain map from block numbers to contents. */
module BufSpec {
  import opened Blocks

  const ROOTDEV := 1

  datatype Buf = Buf(dev: nat, blockno: nat, valid: bool, dirty: bool, refcnt: nat, locked: bool, data: Block)
  {
    predicate Is(d: nat, b: nat) { dev == d && blockno == b }

    /** bget may give the buffer to another block. */
    predicate Free() { refcnt == 0 && !dirty }
  }

  /** The buffers, the ring from most to least recently released, the disk behind,
      and the buffers whose holder has changed the data and not yet called log_write
      or bwrite. */
  datatype Cache = Cache(bufs: seq<Buf>, ring: seq<nat>, disk: seq<Block>, touched: set<nat>)

  // ---- the operations ----

  /** First position from k on of a buffer for (dev, b), the ring's length if none. */
  function FirstIn(c: Cache, k: nat, dev: nat, b: nat): (p: nat)
    requires k <= |c.ring| && forall j :: 0 <= j < |c.ring| ==> c.ring[j] < |c.bufs|
    ensures k <= p <= |c.ring|
    ensures forall j :: k <= j < p ==> !c.bufs[c.ring[j]].Is(dev, b)
    ensures p < |c.ring| ==> c.bufs[c.ring[p]].Is(dev, b)
    decreases |c.ring| - k
  {
    if k == |c.ring| || c.bufs[c.ring[k]].Is(dev, b) then k else FirstIn(c, k + 1, dev, b)
  }

  /** Last position before k of a buffer bget may recycle, -1 if none. */
  function LastFree(c: Cache, k: nat): (p: int)
    requires k <= |c.ring| && forall j :: 0 <= j < |c.ring| ==> c.ring[j] < |c.bufs|
    ensures -1 <= p < k
    ensures forall j :: p < j < k ==> !c.bufs[c.ring[j]].Free()
    ensures p >= 0 ==> c.bufs[c.ring[p]].Free()
  {
    if k == 0 then -1 else if c.bufs[c.ring[k - 1]].Free() then k - 1 else LastFree(c, k - 1)
  }

  /** bget, up to the release of bcache.lock; None is the panic "no buffers". */
  function Get(c: Cache, dev: nat, b: nat): (Cache, Option<nat>)
    requires Shape(c)
  {
    var p := FirstIn(c, 0, dev, b);
    if p < |c.ring| then
      var i := c.ring[p];
      (c.(bufs := c.bufs[i := c.bufs[i].(refcnt := c.bufs[i].refcnt + 1)]), Some(i))
    else
      var q := LastFree(c, |c.ring|);
      if q < 0 then (c, None)
      else
        var i := c.ring[q];
        (c.(bufs := c.bufs[i := Buf(dev, b, false, false, 1, c.bufs[i].locked, c.bufs[i].data)]), Some(i))
  }

  /** acquiresleep on a buffer no one holds, then the disk read if it is not valid. */
  function Fill(c: Cache, i: nat): Cache
    requires i < |c.bufs| && c.bufs[i].blockno < |c.disk|
  {
    var u := c.bufs[i].(locked := true);
    c.(bufs := c.bufs[i := if u.valid then u else u.(data := c.disk[u.blockno], valid := true)])
  }

  /** The holder stores new data in the buffer. */
  function Modify(c: Cache, i: nat, data: Block): Cache
    requires i < |c.bufs|
  {
    c.(bufs := c.bufs[i := c.bufs[i].(data := data)], touched := c.touched + {i})
  }

  /** log_write pins the buffer. */
  function Pin(c: Cache, i: nat): Cache
    requires i < |c.bufs|
  {
    c.(bufs := c.bufs[i := c.bufs[i].(dirty := true)], touched := c.touched - {i})
  }

  /** bwrite: the buffer goes to the disk and is clean. */
  function WriteOut(c: Cache, i: nat): Cache
    requires i < |c.bufs| && c.bufs[i].blockno < |c.disk|
  {
    var u := c.bufs[i];
    Cache(c.bufs[i := u.(dirty := false, valid := true)], c.ring, c.disk[u.blockno := u.data], c.touched - {i})
  }

  /** The ring with buffer i moved to the front. */
  function ToFront(ring: seq<nat>, i: nat): (r: seq<nat>)
  {
    [i] + Without(ring, i)
  }

  ghost predicate Distinct(ring: seq<nat>) { forall j, k :: 0 <= j < k < |ring| ==> ring[j] != ring[k] }

  function Without(ring: seq<nat>, i: nat): (r: seq<nat>)
    ensures forall x :: x in r <==> x in ring && x != i
  {
    if ring == [] then [] else if ring[0] == i then Without(ring[1..], i) else [ring[0]] + Without(ring[1..], i)
  }

  lemma {:induction false} WithoutOne(ring: seq<nat>, k: nat)
    requires Distinct(ring) && k < |ring|
    ensures Without(ring, ring[k]) == ring[..k] + ring[k + 1..]
  {
    if k == 0 {
      assert ring[0] !in ring[1..];
      WithoutNone(ring[1..], ring[0]);
    } else {
      WithoutOne(ring[1..], k - 1);
      assert ring[1..][..k - 1] == ring[1..k] && ring[1..][k..] == ring[k + 1..];
    }
  }

  lemma {:induction false} WithoutNone(ring: seq<nat>, i: nat)
    requires i !in ring
    ensures Without(ring, i) == ring
  {
    if ring != [] {
      WithoutNone(ring[1..], i);
    }
  }

  lemma ToFrontKeepsShape(c: Cache, i: nat)
    requires Shape(c) && i < |c.bufs|
    ensures Shape(c.(ring := ToFront(c.ring, i)))
  {
    hide Without;
    assert i in c.ring;
    var k :| 0 <= k < |c.ring| && c.ring[k] == i;
    WithoutOne(c.ring, k);
    var r := ToFront(c.ring, i);
    forall x: nat | x < |r| ensures r[x] == c.ring[FromBefore(x, k)] {
      MovedFrom(c.ring, k, x);
    }
    MovedKeepsDistinct(c.ring, r, k);
    MovedKeepsAll(c.ring, r, k, |c.bufs|);
  }

  lemma MovedKeepsDistinct(ring: seq<nat>, r: seq<nat>, k: nat)
    requires k < |ring| == |r| && Distinct(ring) && forall x: nat :: x < |r| ==> r[x] == ring[FromBefore(x, k)]
    ensures Distinct(r)
  {
    forall x: nat, y: nat | x < y < |r| ensures r[x] != r[y] {
      assert FromBefore(x, k) != FromBefore(y, k);
    }
  }

  lemma MovedKeepsAll(ring: seq<nat>, r: seq<nat>, k: nat, n: nat)
    requires k < |ring| == |r| && forall x: nat :: x < |r| ==> r[x] == ring[FromBefore(x, k)]
    requires forall i: nat :: i < n ==> i in ring
    ensures forall i: nat :: i < n ==> i in r
  {
    forall i: nat | i < n ensures i in r {
      assert i in ring;
      var m: nat :| m < |ring| && ring[m] == i;
      var x := if m == k then 0 else if m < k then m + 1 else m;
      assert FromBefore(x, k) == m && r[x] == i;
    }
  }

  /** Where the x-th of the ring was before the k-th moved to the front. */
  function FromBefore(x: nat, k: nat): nat { if x == 0 then k else if x <= k then x - 1 else x }

  lemma MovedFrom(ring: seq<nat>, k: nat, x: nat)
    requires k < |ring| && x < |ring|
    ensures ([ring[k]] + (ring[..k] + ring[k + 1..]))[x] == ring[FromBefore(x, k)]
  {
  }

  /** The first half of brelse, releasesleep. */
  function Unlock(c: Cache, i: nat): Cache
    requires i < |c.bufs|
  {
    c.(bufs := c.bufs[i := c.bufs[i].(locked := false)])
  }

  /** The second half of brelse, under bcache.lock: the last one out moves the buffer to
      the front.  By now another may hold the buffer. */
  function Drop(c: Cache, i: nat): Cache
    requires i < |c.bufs| && c.bufs[i].refcnt > 0
  {
    var u := c.bufs[i].(refcnt := c.bufs[i].refcnt - 1);
    c.(bufs := c.bufs[i := u], ring := if u.refcnt == 0 then ToFront(c.ring, i) else c.ring)
  }

  // ---- the invariant ----

  /** The ring holds every buffer once. */
  ghost predicate Shape(c: Cache)
  {
    && |c.ring| == |c.bufs|
    && (forall k :: 0 <= k < |c.ring| ==> c.ring[k] < |c.bufs|)
    && (forall i :: 0 <= i < |c.bufs| ==> i in c.ring)
    && Distinct(c.ring)
  }

  ghost predicate Good(c: Cache)
  {
    && Shape(c)
    && (forall i, j :: 0 <= i < |c.bufs| && 0 <= j < |c.bufs| && c.bufs[i].dev != 0 ==>
          c.bufs[i].Is(c.bufs[j].dev, c.bufs[j].blockno) ==> i == j)
    && (forall i :: 0 <= i < |c.bufs| ==> GoodBuf(c, i))
  }

  /** A locked buffer is in use; a dirty one is valid; a valid one that is neither dirty
      nor being changed holds what the disk holds. */
  ghost predicate GoodBuf(c: Cache, i: nat)
    requires i < |c.bufs|
  {
    var u := c.bufs[i];
    && (u.dev != 0 ==> u.dev == ROOTDEV && u.blockno < |c.disk|)
    && (u.locked ==> u.refcnt > 0)
    && (i in c.touched ==> u.locked && u.valid)
    && (u.dirty ==> u.valid)
    && (u.valid ==> u.dev == ROOTDEV)
    && (u.valid && !u.dirty && i !in c.touched ==> u.data == c.disk[u.blockno])
  }

  lemma GoodIsShape(c: Cache)
    requires Good(c)
    ensures Shape(c)
  {
  }

  /** What bread shows for block b. */
  ghost function View(c: Cache, b: nat): Block
    requires Shape(c) && b < |c.disk|
  {
    var p := FirstIn(c, 0, ROOTDEV, b);
    if p < |c.ring| && c.bufs[c.ring[p]].valid then c.bufs[c.ring[p]].data else c.disk[b]
  }

  /** The view of a block is its buffer if there is a valid one, else the disk. */
  lemma ViewOfBuffer(c: Cache, i: nat)
    requires Good(c) && i < |c.bufs| && c.bufs[i].dev == ROOTDEV
    ensures c.bufs[i].blockno < |c.disk|
    ensures var b := c.bufs[i].blockno;
      FirstIn(c, 0, ROOTDEV, b) < |c.ring| && c.ring[FirstIn(c, 0, ROOTDEV, b)] == i
    ensures View(c, c.bufs[i].blockno) == if c.bufs[i].valid then c.bufs[i].data else c.disk[c.bufs[i].blockno]
  {
    var b := c.bufs[i].blockno;
    assert GoodBuf(c, i) && i in c.ring;
    var k :| 0 <= k < |c.ring| && c.ring[k] == i;
    var p := FirstIn(c, 0, ROOTDEV, b);
    assert p <= k;
  }

  /** Two good caches show the same for b if their buffers for b, or else their disks, agree. */
  lemma ViewUncached(c: Cache, b: nat)
    requires Good(c) && b < |c.disk|
    ensures (forall i :: 0 <= i < |c.bufs| ==> !c.bufs[i].Is(ROOTDEV, b)) ==> View(c, b) == c.disk[b]
    ensures forall i :: 0 <= i < |c.bufs| && c.bufs[i].Is(ROOTDEV, b) ==>
      View(c, b) == if c.bufs[i].valid then c.bufs[i].data else c.disk[b]
  {
    forall i | 0 <= i < |c.bufs| && c.bufs[i].Is(ROOTDEV, b)
      ensures View(c, b) == if c.bufs[i].valid then c.bufs[i].data else c.disk[b]
    {
      ViewOfBuffer(c, i);
    }
  }

  // ---- every operation keeps the invariant and, but for Modify, the view ----

  /** c' is c but for buffer i, up to the order of the ring, and b is not the block of
      that buffer: then b looks the same. */
  lemma ViewElsewhere(c: Cache, c': Cache, i: nat, b: nat)
    requires Good(c) && Good(c') && i < |c.bufs| == |c'.bufs| && b < |c.disk| == |c'.disk| && c'.disk[b] == c.disk[b]
    requires forall j :: 0 <= j < |c.bufs| && j != i ==>
      && c'.bufs[j].Is(ROOTDEV, b) == c.bufs[j].Is(ROOTDEV, b)
      && c'.bufs[j].valid == c.bufs[j].valid && c'.bufs[j].data == c.bufs[j].data
    requires !c.bufs[i].Is(ROOTDEV, b) && !c'.bufs[i].Is(ROOTDEV, b)
    ensures View(c', b) == View(c, b)
  {
    ViewUncached(c, b);
    ViewUncached(c', b);
  }

  /** The two caches show the same blocks. */
  ghost predicate SameView(c: Cache, c': Cache)
    requires Shape(c) && Shape(c')
  {
    |c'.disk| == |c.disk| && forall b: nat {:trigger View(c', b)} :: b < |c.disk| ==> View(c', b) == View(c, b)
  }

  /** bget keeps the view: a recycled buffer is neither in use nor dirty, so the block
      it gives up is on the disk as it was shown. */
  lemma GetKeepsView(c: Cache, b: nat)
    requires Good(c) && b < |c.disk|
    ensures var (c', r) := Get(c, ROOTDEV, b);
      && Good(c') && SameView(c, c')
      && c'.disk == c.disk
      && (r.Some? ==> r.value < |c'.bufs| && c'.bufs[r.value].Is(ROOTDEV, b) && c'.bufs[r.value].refcnt > 0)
      && (r.None? ==> forall i :: 0 <= i < |c.bufs| ==> !c.bufs[i].Free() && !c.bufs[i].Is(ROOTDEV, b))
  {
    hide FirstIn, LastFree, View;
    var (c', r) := Get(c, ROOTDEV, b);
    NotCached(c, b);
    if r.Some? {
      var i := r.value;
      assert GoodBuf(c, i);
      forall j | 0 <= j < |c'.bufs| ensures GoodBuf(c', j) {
        assert GoodBuf(c, j);
      }
      forall x: nat | x < |c.disk| ensures View(c', x) == View(c, x) {
        if c.bufs[i].Is(ROOTDEV, x) || c'.bufs[i].Is(ROOTDEV, x) {
          RecycledView(c, c', i, b, x);
        } else {
          ViewElsewhere(c, c', i, x);
        }
      }
    }
  }

  /** Buffer i now is that of block b; x is b, or the block it was for. */
  lemma RecycledView(c: Cache, c': Cache, i: nat, b: nat, x: nat)
    requires Good(c) && Good(c') && i < |c.bufs| == |c'.bufs| && x < |c.disk| && c'.disk == c.disk
    requires forall j :: 0 <= j < |c.bufs| && j != i ==> c'.bufs[j] == c.bufs[j]
    requires c'.bufs[i].Is(ROOTDEV, b)
    requires if c.bufs[i].Is(ROOTDEV, b) then c'.bufs[i].valid == c.bufs[i].valid && c'.bufs[i].data == c.bufs[i].data
             else c.bufs[i].Free() && !c'.bufs[i].valid && i !in c.touched && forall j :: 0 <= j < |c.bufs| ==>
               !c.bufs[j].Is(ROOTDEV, b)
    requires c.bufs[i].Is(ROOTDEV, x) || c'.bufs[i].Is(ROOTDEV, x)
    ensures View(c', x) == View(c, x)
  {
    hide View;
    ViewUncached(c, x);
    ViewUncached(c', x);
    assert GoodBuf(c, i);
    if c.bufs[i].Is(ROOTDEV, x) && x != b {
      forall j | 0 <= j < |c'.bufs| ensures !c'.bufs[j].Is(ROOTDEV, x) {
        assert j != i ==> c'.bufs[j] == c.bufs[j];
      }
    }
  }

  lemma NotCached(c: Cache, b: nat)
    requires Shape(c)
    ensures FirstIn(c, 0, ROOTDEV, b) == |c.ring| ==> forall i :: 0 <= i < |c.bufs| ==> !c.bufs[i].Is(ROOTDEV, b)
    ensures LastFree(c, |c.ring|) < 0 ==> forall i :: 0 <= i < |c.bufs| ==> !c.bufs[i].Free()
  {
    forall i | 0 <= i < |c.bufs|
      ensures FirstIn(c, 0, ROOTDEV, b) == |c.ring| ==> !c.bufs[i].Is(ROOTDEV, b)
      ensures LastFree(c, |c.ring|) < 0 ==> !c.bufs[i].Free()
    {
      assert i in c.ring;
      var k :| 0 <= k < |c.ring| && c.ring[k] == i;
      assert !(FirstIn(c, 0, ROOTDEV, b) == |c.ring|) || !c.bufs[c.ring[k]].Is(ROOTDEV, b);
    }
  }

  /** An operation on buffer i alone, which stays the buffer of its block. */
  lemma TouchOne(c: Cache, c': Cache, i: nat)
    requires Good(c) && i < |c.bufs| && c.bufs[i].dev == ROOTDEV && Shape(c')
    requires |c'.disk| == |c.disk| && |c'.bufs| == |c.bufs| && forall j :: 0 <= j < |c.bufs| && j != i ==>
      c'.bufs[j] == c.bufs[j]
    requires c'.bufs[i].Is(ROOTDEV, c.bufs[i].blockno) && GoodBuf(c', i)
    requires forall j :: j != i ==> (j in c'.touched <==> j in c.touched)
    requires forall x :: 0 <= x < |c.disk| && x != c.bufs[i].blockno ==> c'.disk[x] == c.disk[x]
    ensures Good(c') && c.bufs[i].blockno < |c.disk|
    ensures forall x: nat {:trigger View(c', x)} :: x < |c.disk| && x != c.bufs[i].blockno ==> View(c', x) == View(c, x)
    ensures var b := c.bufs[i].blockno;
      View(c', b) == if c'.bufs[i].valid then c'.bufs[i].data else c'.disk[b]
  {
    assert GoodBuf(c, i);
    forall j | 0 <= j < |c'.bufs| ensures GoodBuf(c', j) {
      assert GoodBuf(c, j);
    }
    assert Good(c');
    forall x: nat | x < |c.disk| && x != c.bufs[i].blockno ensures View(c', x) == View(c, x) {
      ViewElsewhere(c, c', i, x);
    }
    ViewOfBuffer(c', i);
  }

  lemma FillKeepsView(c: Cache, i: nat)
    requires Good(c) && i < |c.bufs| && c.bufs[i].dev == ROOTDEV && c.bufs[i].refcnt > 0 && !c.bufs[i].locked
    requires c.bufs[i].blockno < |c.disk|
    ensures var c' := Fill(c, i);
      && Good(c') && SameView(c, c') && c'.disk == c.disk
      && c'.bufs[i].locked && c'.bufs[i].valid && c'.bufs[i].data == View(c, c.bufs[i].blockno)
  {
    assert GoodBuf(c, i);
    TouchOne(c, Fill(c, i), i);
    ViewOfBuffer(c, i);
  }

  /** Storing in a buffer changes the view of its block and of no other. */
  lemma ModifyChangesView(c: Cache, i: nat, data: Block)
    requires Good(c) && i < |c.bufs| && c.bufs[i].locked && c.bufs[i].valid
    ensures var c' := Modify(c, i, data);
      && Good(c') && c'.disk == c.disk
      && c.bufs[i].blockno < |c.disk|
      && forall x: nat {:trigger View(c', x)} :: x < |c.disk| ==>
           View(c', x) == if x == c.bufs[i].blockno then data else View(c, x)
  {
    assert GoodBuf(c, i);
    TouchOne(c, Modify(c, i, data), i);
  }

  lemma PinKeepsView(c: Cache, i: nat)
    requires Good(c) && i < |c.bufs| && c.bufs[i].locked && c.bufs[i].valid
    ensures var c' := Pin(c, i);
      Good(c') && SameView(c, c') && c'.disk == c.disk
  {
    assert GoodBuf(c, i);
    TouchOne(c, Pin(c, i), i);
    ViewOfBuffer(c, i);
  }

  /** bwrite puts on the disk what is shown. */
  lemma WriteOutKeepsView(c: Cache, i: nat)
    requires Good(c) && i < |c.bufs| && c.bufs[i].locked && c.bufs[i].valid && c.bufs[i].blockno < |c.disk|
    ensures var c' := WriteOut(c, i);
      && Good(c') && SameView(c, c')
      && c'.disk == c.disk[c.bufs[i].blockno := View(c, c.bufs[i].blockno)]
  {
    assert GoodBuf(c, i);
    ViewOfBuffer(c, i);
    TouchOne(c, WriteOut(c, i), i);
  }

  lemma UnlockKeepsView(c: Cache, i: nat)
    requires Good(c) && i < |c.bufs| && i !in c.touched && c.bufs[i].dev == ROOTDEV
    ensures var c' := Unlock(c, i);
      Good(c') && SameView(c, c') && c'.disk == c.disk
  {
    assert GoodBuf(c, i);
    TouchOne(c, Unlock(c, i), i);
    ViewOfBuffer(c, i);
  }

  lemma DropKeepsView(c: Cache, i: nat)
    requires Good(c) && i < |c.bufs| && c.bufs[i].dev == ROOTDEV && c.bufs[i].refcnt > if c.bufs[i].locked then 1 else 0
    ensures var c' := Drop(c, i);
      Good(c') && SameView(c, c') && c'.disk == c.disk
  {
    assert GoodBuf(c, i);
    ToFrontKeepsShape(c, i);
    TouchOne(c, Drop(c, i), i);
    ViewOfBuffer(c, i);
  }

  /** bget changes one buffer: that of the block, or a free one. */
  lemma GetsOne(c: Cache, b: nat)
    requires Shape(c)
    ensures var (c', r) := Get(c, ROOTDEV, b);
      && (r.None? <==> forall i :: 0 <= i < |c.bufs| ==> !c.bufs[i].Is(ROOTDEV, b) && !c.bufs[i].Free())
      && (r.Some? ==>
            var i := r.value;
            && i < |c.bufs| && |c'.bufs| == |c.bufs| && c' == c.(bufs := c.bufs[i := c'.bufs[i]])
            && if c.bufs[i].Is(ROOTDEV, b) then c'.bufs[i] == c.bufs[i].(refcnt := c.bufs[i].refcnt + 1)
               else c.bufs[i].Free() && c'.bufs[i] == Buf(ROOTDEV, b, false, false, 1, c.bufs[i].locked, c.bufs[i].data)
                    && forall j :: 0 <= j < |c.bufs| ==> !c.bufs[j].Is(ROOTDEV, b))
  {
    hide FirstIn, LastFree;
    NotCached(c, b);
  }
}
