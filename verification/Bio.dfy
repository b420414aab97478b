/** bio.c: the buffer cache itself, a doubly linked ring through its buffers. */
module Bio {
  import opened Blocks
  import opened BufSpec

  /** The k-th node of the ring; position -1 and the one behind the last are the head. */
  function Node(ring: seq<nat>, head: nat, k: int): nat { if 0 <= k < |ring| then ring[k] else head }

  /** The links run through the ring in order, forth and back. */
  ghost predicate Linked(next: seq<nat>, prev: seq<nat>, ring: seq<nat>, head: nat)
  {
    && |next| == |prev| == head + 1
    && (forall k :: 0 <= k < |ring| ==> ring[k] < head)
    && (forall k {:trigger next[Node(ring, head, k)]} :: -1 <= k < |ring| ==>
      next[Node(ring, head, k)] == Node(ring, head, k + 1))
    && (forall k {:trigger prev[Node(ring, head, k)]} :: 0 <= k <= |ring| ==>
      prev[Node(ring, head, k)] == Node(ring, head, k - 1))
  }

  /** Taking the k-th buffer out: the buffers on its two sides are linked to each other. */
  lemma UnlinkLinked(next: seq<nat>, prev: seq<nat>, ring: seq<nat>, head: nat, k: nat)
    requires Linked(next, prev, ring, head) && Distinct(ring) && k < |ring|
    ensures next[ring[k]] <= head && prev[ring[k]] <= head
    ensures var b := ring[k];
      Linked(next[prev[b] := next[b]], prev[next[b] := prev[b]], ring[..k] + ring[k + 1..], head)
  {
    var b, r := ring[k], ring[..k] + ring[k + 1..];
    assert Node(ring, head, k) == b;
    assert prev[b] == Node(ring, head, k - 1) && next[b] == Node(ring, head, k + 1);
    var next', prev' := next[prev[b] := next[b]], prev[next[b] := prev[b]];
    forall j | -1 <= j < |r| ensures next'[Node(r, head, j)] == Node(r, head, j + 1) {
      var i := if j < k then j else j + 1;
      assert Node(r, head, j) == Node(ring, head, i);
      assert Node(ring, head, i) == prev[b] <==> i == k - 1;
    }
    forall j | 0 <= j <= |r| ensures prev'[Node(r, head, j)] == Node(r, head, j - 1) {
      var i := if j < k then j else j + 1;
      assert Node(r, head, j) == Node(ring, head, i);
      assert Node(ring, head, i) == next[b] <==> i == k + 1;
    }
  }

  /** Putting b between the head and the first buffer. */
  lemma PushLinked(next: seq<nat>, prev: seq<nat>, ring: seq<nat>, head: nat, b: nat)
    requires Linked(next, prev, ring, head) && b !in ring && b < head
    ensures next[head] <= head && next[head] != b
    ensures Linked(next[b := next[head]][head := b], prev[b := head][next[head] := b], [b] + ring, head)
  {
    var r := [b] + ring;
    assert Node(ring, head, -1) == head && next[head] == Node(ring, head, 0);
    var next', prev' := next[b := next[head]][head := b], prev[b := head][next[head] := b];
    forall j | -1 <= j < |r| ensures next'[Node(r, head, j)] == Node(r, head, j + 1) {
      if j > 0 {
        assert Node(r, head, j) == Node(ring, head, j - 1);
        assert Node(r, head, j + 1) == Node(ring, head, j);
      }
    }
    forall j | 0 <= j <= |r| ensures prev'[Node(r, head, j)] == Node(r, head, j - 1) {
      assert prev[Node(ring, head, 0)] == head;
      if j > 1 {
        assert Node(r, head, j) == Node(ring, head, j - 1);
        assert prev[Node(ring, head, j - 1)] == Node(ring, head, j - 2) == Node(r, head, j - 1);
      }
    }
  }

  /** The buffers the kernel starts with belong to no device. */
  const NO_BLOCK := Buf(0, 0, false, false, 0, false, ZeroBlock())

  /** The ring binit builds: the buffer pushed last comes first. */
  function Countdown(n: nat): (r: seq<nat>)
    ensures |r| == n && forall k :: 0 <= k < n ==> r[k] == n - 1 - k
  {
    if n == 0 then [] else [n - 1] + Countdown(n - 1)
  }

  class BufferCache {
    var bufs: seq<Buf>
    var next: seq<nat>
    var prev: seq<nat>
    var disk: seq<Block>
    ghost var ring: seq<nat>
    ghost var touched: set<nat>

    ghost function Contents(): Cache
      reads this
    {
      Cache(bufs, ring, disk, touched)
    }

    ghost predicate Valid()
      reads this
    {
      Good(Contents()) && Linked(next, prev, ring, |bufs|)
    }

    /** binit: every buffer goes behind the head. */
    constructor Binit(n: nat, image: seq<Block>)
      ensures Valid() && bufs == seq(n, i => NO_BLOCK) && disk == image && ring == Countdown(n) && touched == {}
    {
      bufs := seq(n, i => NO_BLOCK);
      next, prev := seq(n + 1, i => n), seq(n + 1, i => n);
      disk, touched, ring := image, {}, [];
      new;
      var b := 0;
      while b < n
        invariant 0 <= b <= n
        invariant ring == Countdown(b) && Linked(next, prev, ring, n)
        invariant bufs == seq(n, i => NO_BLOCK) && disk == image && touched == {}
      {
        PushLinked(next, prev, ring, n, b);
        ring := [b] + ring;
        PushFront(b);
        b := b + 1;
      }
      forall i | 0 <= i < n ensures i in ring {
        assert ring[n - 1 - i] == i;
      }
    }

    /** Link b in between the head and the first buffer. */
    method PushFront(b: nat)
      requires |next| == |prev| == |bufs| + 1 && b < |bufs| && next[|bufs|] <= |bufs| && next[|bufs|] != b
      modifies `next, `prev
      ensures next == old(next)[b := old(next)[|bufs|]][|bufs| := b]
      ensures prev == old(prev)[b := |bufs|][old(next)[|bufs|] := b]
    {
      var head := |bufs|;
      next := next[b := next[head]];
      prev := prev[b := head];
      prev := prev[next[head] := b];
      next := next[head := b];
    }

    /** bget: forward for the block, then backward for a buffer to recycle. */
    method Bget(b: nat) returns (r: Option<nat>)
      requires Valid() && b < |disk|
      modifies `bufs
      ensures Valid()
      ensures (Contents(), r) == Get(old(Contents()), ROOTDEV, b)
    {
      hide Good;
      var head, i := |bufs|, next[|bufs|];
      ghost var c, k := Contents(), 0;
      GetKeepsView(c, b);
      assert Node(ring, head, -1) == head;
      while i != head
        invariant 0 <= k <= |ring| && i == Node(ring, head, k)
        invariant FirstIn(c, 0, ROOTDEV, b) == FirstIn(c, k, ROOTDEV, b)
        invariant bufs == c.bufs
        decreases |ring| - k
      {
        if bufs[i].Is(ROOTDEV, b) {
          bufs := bufs[i := bufs[i].(refcnt := bufs[i].refcnt + 1)];
          return Some(i);
        }
        i, k := next[i], k + 1;
      }
      i, k := prev[head], |ring|;
      assert Node(ring, head, |ring|) == head;
      while i != head
        invariant 0 <= k <= |ring| && i == Node(ring, head, k - 1)
        invariant LastFree(c, |ring|) == LastFree(c, k)
        invariant bufs == c.bufs
        decreases k
      {
        if bufs[i].Free() {
          bufs := bufs[i := Buf(ROOTDEV, b, false, false, 1, bufs[i].locked, bufs[i].data)];
          return Some(i);
        }
        i, k := prev[i], k - 1;
      }
      return None;
    }

    /** The rest of bread, once the buffer's lock is free: the holder sees the block. */
    method Fill(i: nat)
      requires Valid() && i < |bufs| && bufs[i].dev == ROOTDEV && bufs[i].refcnt > 0 && !bufs[i].locked
      modifies `bufs
      ensures Valid() && old(bufs[i].blockno < |disk|)
      ensures Contents() == BufSpec.Fill(old(Contents()), i)
      ensures bufs[i].data == old(View(Contents(), bufs[i].blockno))
    {
      hide Good;
      ViewOfBuffer(Contents(), i);
      FillKeepsView(Contents(), i);
      bufs := bufs[i := bufs[i].(locked := true)];
      if !bufs[i].valid {
        bufs := bufs[i := bufs[i].(data := disk[bufs[i].blockno], valid := true)];
      }
      assert bufs == BufSpec.Fill(old(Contents()), i).bufs;
    }

    /** The holder stores data in its buffer. */
    method Store(i: nat, data: Block)
      requires Valid() && i < |bufs| && bufs[i].locked && bufs[i].valid
      modifies `bufs, `touched
      ensures Valid() && Contents() == Modify(old(Contents()), i, data)
    {
      hide Good;
      ModifyChangesView(Contents(), i, data);
      bufs := bufs[i := bufs[i].(data := data)];
      touched := touched + {i};
    }

    /** log_write sets B_DIRTY. */
    method SetDirty(i: nat)
      requires Valid() && i < |bufs| && bufs[i].locked && bufs[i].valid
      modifies `bufs, `touched
      ensures Valid() && Contents() == Pin(old(Contents()), i)
    {
      hide Good;
      PinKeepsView(Contents(), i);
      bufs := bufs[i := bufs[i].(dirty := true)];
      touched := touched - {i};
    }

    /** bwrite. */
    method Bwrite(i: nat)
      requires Valid() && i < |bufs| && bufs[i].locked && bufs[i].valid
      modifies `bufs, `disk, `touched
      ensures Valid() && old(bufs[i].blockno < |disk|)
      ensures Contents() == WriteOut(old(Contents()), i)
    {
      hide Good;
      HeldBuffer(Contents(), i);
      WriteOutKeepsView(Contents(), i);
      bufs := bufs[i := bufs[i].(dirty := true)];
      disk := disk[bufs[i].blockno := bufs[i].data];
      bufs := bufs[i := bufs[i].(dirty := false, valid := true)];
      touched := touched - {i};
      assert bufs == WriteOut(old(Contents()), i).bufs;
    }

    /** releasesleep on the buffer's lock. */
    method Releasesleep(i: nat)
      requires Valid() && i < |bufs| && bufs[i].locked && i !in touched && bufs[i].valid
      modifies `bufs
      ensures Valid() && Contents() == Unlock(old(Contents()), i)
    {
      hide Good;
      HeldBuffer(Contents(), i);
      UnlockKeepsView(Contents(), i);
      bufs := bufs[i := bufs[i].(locked := false)];
    }

    /** Unlink buffer i and link it in behind the head. */
    method ToHead(i: nat)
      requires Linked(next, prev, ring, |bufs|) && Distinct(ring) && i in ring
      modifies `next, `prev, `ring
      ensures Linked(next, prev, ring, |bufs|) && ring == ToFront(old(ring), i)
    {
      ghost var k :| 0 <= k < |ring| && ring[k] == i;
      assert Node(ring, |bufs|, k) == i;
      UnlinkLinked(next, prev, ring, |bufs|, k);
      WithoutOne(ring, k);
      next, prev := next[prev[i] := next[i]], prev[next[i] := prev[i]];
      ring := ring[..k] + ring[k + 1..];
      PushLinked(next, prev, ring, |bufs|, i);
      ring := [i] + ring;
      PushFront(i);
    }

    /** The rest of brelse: the last one out unlinks the buffer and puts it behind the head. */
    method Unref(i: nat)
      requires Valid() && i < |bufs| && bufs[i].dev == ROOTDEV && bufs[i].refcnt > if bufs[i].locked then 1 else 0
      modifies `bufs, `next, `prev, `ring
      ensures Valid() && Contents() == Drop(old(Contents()), i)
      ensures |bufs| == |old(bufs)| && bufs[i].refcnt == old(bufs[i].refcnt) - 1
    {
      hide Good, Linked, ToFront, Distinct;
      ghost var c := Contents();
      InRing(c, i);
      DropKeepsView(c, i);
      bufs := bufs[i := bufs[i].(refcnt := bufs[i].refcnt - 1)];
      if bufs[i].refcnt == 0 {
        ToHead(i);
      }
    }

    /** brelse, when no one takes the lock between its halves. */
    method Brelse(i: nat)
      requires Valid() && i < |bufs| && bufs[i].locked && i !in touched && bufs[i].valid
      modifies `bufs, `next, `prev, `ring
      ensures Valid() && old(bufs[i].refcnt > 0) && Contents() == Drop(Unlock(old(Contents()), i), i)
      ensures |bufs| == |old(bufs)| && bufs[i].refcnt == old(bufs[i].refcnt) - 1 && !bufs[i].locked
    {
      hide Good;
      HeldBuffer(Contents(), i);
      Releasesleep(i);
      Unref(i);
    }
  }

  lemma InRing(c: Cache, i: nat)
    requires Good(c) && i < |c.bufs|
    ensures i in c.ring && Distinct(c.ring)
  {
  }

  /** A held buffer is in use and belongs to the disk's device. */
  lemma HeldBuffer(c: Cache, i: nat)
    requires Good(c) && i < |c.bufs| && c.bufs[i].locked && c.bufs[i].valid
    ensures c.bufs[i].refcnt > 0 && c.bufs[i].dev == ROOTDEV && c.bufs[i].blockno < |c.disk| && i in c.ring
    ensures Distinct(c.ring)
  {
    assert GoodBuf(c, i);
  }
}
