/** umalloc.c: malloc and free over a circular list through the chunks' headers. */
module Umalloc {
  import opened Blocks
  import opened FreeList

  /** Units in a 32-bit address space. */
  const UNITS := 0x2000_0000

  function Succ(i: nat, n: nat): nat { if i + 1 < n then i + 1 else 0 }

  /** The headers in memory are those of the list bs, closed to a ring. */
  ghost predicate Rep(ptr: map<nat, nat>, size: map<nat, nat>, bs: seq<Chunk>)
  {
    forall i :: 0 <= i < |bs| ==> RepAt(ptr, size, bs, i)
  }

  ghost predicate RepAt(ptr: map<nat, nat>, size: map<nat, nat>, bs: seq<Chunk>, i: nat)
    requires i < |bs|
  {
    && bs[i].at in ptr && ptr[bs[i].at] == bs[Succ(i, |bs|)].at
    && bs[i].at in size && size[bs[i].at] == bs[i].len
  }

  lemma Apart(bs: seq<Chunk>, i: nat, j: nat)
    requires Sorted(bs) && i < |bs| && j < |bs|
    ensures i < j ==> bs[i].End() < bs[j].at
    ensures j < i ==> bs[j].End() < bs[i].at
  {
  }

  ghost predicate InLive(live: map<nat, nat>, u: int) { exists a :: a in live && a <= u < a + live[a] }

  /** The units obtained from sbrk are the free ones and the live ones, each in one
      chunk only. */
  ghost predicate Partition(bs: seq<Chunk>, live: map<nat, nat>, cells: set<int>)
    requires bs != []
  {
    && (forall u :: u in cells <==> Covers(bs, u) || InLive(live, u))
    && (forall u :: Covers(bs, u) ==> !InLive(live, u))
    && (forall a, b :: a in live && b in live && a < b ==> a + live[a] <= b)
    && (forall a :: a in live ==> a > bs[0].at && live[a] > 0)
    && (forall u :: u in cells ==> u < UNITS)
  }

  // ---- the list ----

  /** Where a chunk at bp belongs: behind the last chunk below it. */
  lemma {:induction false} SlotExists(bs: seq<Chunk>, bp: nat, n: nat) returns (t: nat)
    requires Sorted(bs) && 0 < n <= |bs| && bs[0].at < bp && forall i :: 0 <= i < |bs| ==> bs[i].at != bp
    requires forall i :: n <= i < |bs| ==> bp < bs[i].at
    ensures t < |bs| && bs[t].at < bp && (t + 1 < |bs| ==> bp < bs[t + 1].at)
  {
    if bs[n - 1].at < bp {
      t := n - 1;
    } else {
      t := SlotExists(bs, bp, n - 1);
    }
  }

  /** free's search at chunk i, with chunk next behind it in the ring, stops only where bp
      belongs, and goes on only from chunks other than t. */
  lemma SearchStops(bs: seq<Chunk>, bp: nat, t: nat, i: nat, next: nat)
    requires Sorted(bs) && bs[0].at < bp && t < |bs| && bs[t].at < bp && (t + 1 < |bs| ==> bp < bs[t + 1].at)
    requires i < |bs| && next == bs[Succ(i, |bs|)].at
    ensures (bs[i].at < bp < next || (bs[i].at >= next && (bp > bs[i].at || bp < next))) <==>
      bs[i].at < bp && (i + 1 < |bs| ==> bp < bs[i + 1].at)
    ensures i == t ==> bs[i].at < bp && (i + 1 < |bs| ==> bp < bs[i + 1].at)
  {
    Apart(bs, 0, i);
    if i + 1 < |bs| {
      Apart(bs, i, i + 1);
    }
  }

  /** A live chunk fits the gap between the free chunks around it. */
  lemma LiveFits(bs: seq<Chunk>, live: map<nat, nat>, cells: set<int>, bp: nat, i: nat)
    requires Sorted(bs) && Partition(bs, live, cells) && bp in live && i < |bs|
    requires bs[i].at < bp && (i + 1 < |bs| ==> bp < bs[i + 1].at)
    ensures Between(bs, i, Chunk(bp, live[bp]))
  {
    assert InLive(live, bp);
    assert !bs[i].Has(bp);
    if i + 1 < |bs| {
      assert bs[i + 1].Has(bs[i + 1].at);
      assert Covers(bs, bs[i + 1].at) && !InLive(live, bs[i + 1].at);
    }
  }

  lemma NotFree(bs: seq<Chunk>, live: map<nat, nat>, cells: set<int>, bp: nat)
    requires Sorted(bs) && Partition(bs, live, cells) && bp in live
    ensures forall i :: 0 <= i < |bs| ==> bs[i].at != bp
  {
    assert InLive(live, bp);
    forall i | 0 <= i < |bs| ensures bs[i].at != bp {
      if i > 0 {
        assert bs[i].Has(bs[i].at);
        assert Covers(bs, bs[i].at);
      }
    }
  }

  /** Memory after free relinked and resized the chunks around slot i. */
  lemma PutRep(ptr: map<nat, nat>, size: map<nat, nat>, bs: seq<Chunk>, i: nat, b: Chunk, ptr': map<nat, nat>,
               size': map<nat, nat>)
    requires Sorted(bs) && Rep(ptr, size, bs) && Between(bs, i, b)
    requires var c, last := Merged(bs, i, b), bs[High(bs, i, b) - 1].at;
      last in ptr && c.at in ptr' && c.at in size' && size'[c.at] == c.len && ptr'[c.at] == ptr[last]
    requires forall k :: 0 <= k < Low(bs, i, b) || High(bs, i, b) <= k < |bs| ==>
      KeptAt(ptr, size, bs, i, b, ptr', size', k)
    ensures Rep(ptr', size', Put(bs, i, b))
  {
    hide High, Merged, Sorted, Rep;
    MergedHas(bs, i, b);
    var r, c, lo, hi := Put(bs, i, b), Merged(bs, i, b), Low(bs, i, b), High(bs, i, b);
    assert c.at == if lo == i then bs[i].at else b.at by {
      MergedAt(bs, i, b);
    }
    forall k | 0 <= k < |r| ensures RepAt(ptr', size', r, k) {
      if k == lo {
        RepHere(ptr, size, bs, hi - 1);
      } else {
        var j := if k < lo then k else k - lo - 1 + hi;
        assert r[k] == bs[j] && KeptAt(ptr, size, bs, i, b, ptr', size', j);
        RepHere(ptr, size, bs, j);
      }
    }
    assert Rep(ptr', size', r) by {
      RepAll(ptr', size', r);
    }
  }

  ghost predicate KeptAt(ptr: map<nat, nat>, size: map<nat, nat>, bs: seq<Chunk>, i: nat, b: Chunk,
                         ptr': map<nat, nat>, size': map<nat, nat>, k: nat)
    requires i < |bs|
  {
    && k < |bs| && bs[k].at in ptr && bs[k].at in ptr' && bs[k].at in size'
    && size'[bs[k].at] == bs[k].len && ptr'[bs[k].at] == if k == i then b.at else ptr[bs[k].at]
  }

  lemma MergedAt(bs: seq<Chunk>, i: nat, b: Chunk)
    requires i < |bs|
    ensures Merged(bs, i, b).at == if Low(bs, i, b) == i then bs[i].at else b.at
  {
  }

  lemma RepHere(ptr: map<nat, nat>, size: map<nat, nat>, bs: seq<Chunk>, i: nat)
    requires Rep(ptr, size, bs) && i < |bs|
    ensures RepAt(ptr, size, bs, i)
  {
  }

  lemma RepAll(ptr: map<nat, nat>, size: map<nat, nat>, bs: seq<Chunk>)
    requires forall i :: 0 <= i < |bs| ==> RepAt(ptr, size, bs, i)
    ensures Rep(ptr, size, bs)
  {
  }

  /** Memory after malloc unlinked chunk j. */
  lemma TakeAllRep(ptr: map<nat, nat>, size: map<nat, nat>, bs: seq<Chunk>, j: nat)
    requires Sorted(bs) && Rep(ptr, size, bs) && 0 < j < |bs| && bs[j].at in ptr
    ensures Rep(ptr[bs[j - 1].at := ptr[bs[j].at]], size, bs[..j] + bs[j + 1..])
  {
    hide Sorted;
    var r, ptr' := bs[..j] + bs[j + 1..], ptr[bs[j - 1].at := ptr[bs[j].at]];
    RepHere(ptr, size, bs, j);
    forall k | 0 <= k < |r| ensures RepAt(ptr', size, r, k) {
      var m := if k < j then k else k + 1;
      assert r[k] == bs[m];
      RepHere(ptr, size, bs, m);
      Apart(bs, m, j - 1);
    }
  }

  /** Memory after malloc cut n units off the end of chunk j. */
  lemma TakeTailRep(ptr: map<nat, nat>, size: map<nat, nat>, bs: seq<Chunk>, j: nat, n: nat)
    requires Sorted(bs) && Rep(ptr, size, bs) && j < |bs| && 0 < n < bs[j].len
    ensures Rep(ptr, size[bs[j].at := bs[j].len - n][bs[j].End() - n := n], bs[j := Chunk(bs[j].at, bs[j].len - n)])
  {
    hide Sorted;
    var r, size' := bs[j := Chunk(bs[j].at, bs[j].len - n)], size[bs[j].at := bs[j].len - n][bs[j].End() - n := n];
    forall k | 0 <= k < |r| ensures RepAt(ptr, size', r, k) {
      RepHere(ptr, size, bs, k);
      Apart(bs, k, j);
      assert r[Succ(k, |r|)].at == bs[Succ(k, |bs|)].at;
    }
  }

  // ---- the units ----

  lemma FreePartition(bs: seq<Chunk>, live: map<nat, nat>, cells: set<int>, bp: nat, i: nat)
    requires Sorted(bs) && Partition(bs, live, cells) && bp in live && i < |bs| && Between(bs, i, Chunk(bp, live[bp]))
    ensures Put(bs, i, Chunk(bp, live[bp])) != [] && Partition(Put(bs, i, Chunk(bp, live[bp])), live - {bp}, cells)
  {
    hide Sorted, Put, Covers, Between;
    var b, live' := Chunk(bp, live[bp]), live - {bp};
    var r := Put(bs, i, b);
    PutSorted(bs, i, b);
    assert r != [] by {
      SortedNotEmpty(r);
    }
    forall u: int
      ensures Covers(r, u) <==> Covers(bs, u) || b.Has(u)
      ensures InLive(live', u) <==> InLive(live, u) && !b.Has(u)
    {
      PutCovers(bs, i, b, u);
      LiveWithout(live, bp, u);
    }
  }

  lemma SortedNotEmpty(bs: seq<Chunk>)
    requires Sorted(bs)
    ensures bs != []
  {
  }

  lemma LiveWithout(live: map<nat, nat>, bp: nat, u: int)
    requires bp in live && forall a, b :: a in live && b in live && a < b ==> a + live[a] <= b
    ensures InLive(live - {bp}, u) <==> InLive(live, u) && !Chunk(bp, live[bp]).Has(u)
    ensures Chunk(bp, live[bp]).Has(u) ==> InLive(live, u)
  {
    var live' := live - {bp};
    if InLive(live, u) && !Chunk(bp, live[bp]).Has(u) {
      var a :| a in live && a <= u < a + live[a];
      assert a in live' && live'[a] == live[a];
    }
    if InLive(live', u) {
      var a :| a in live' && a <= u < a + live'[a];
      assert a in live && live'[a] == live[a];
    }
  }

  lemma LiveWith(live: map<nat, nat>, a: nat, n: nat, u: int)
    requires a !in live
    ensures InLive(live[a := n], u) <==> InLive(live, u) || a <= u < a + n
  {
    var live' := live[a := n];
    if InLive(live, u) {
      var b :| b in live && b <= u < b + live[b];
      assert b in live' && live'[b] == live[b];
    }
    if a <= u < a + n {
      assert a in live' && live'[a] == n;
    }
  }

  lemma TakePartition(bs: seq<Chunk>, live: map<nat, nat>, cells: set<int>, j: nat, n: nat)
    requires Sorted(bs) && Partition(bs, live, cells) && j < |bs| && 0 < n <= bs[j].len
    ensures bs[j].End() - n !in live
    ensures Take(bs, j, n) != [] && Partition(Take(bs, j, n), live[bs[j].End() - n := n], cells)
  {
    hide Take;
    var a := bs[j].End() - n;
    var r, live' := Take(bs, j, n), live[a := n];
    TakeSorted(bs, j, n);
    Apart(bs, 0, j);
    forall u | a <= u < a + n ensures Covers(bs, u) && !InLive(live, u) {
      assert bs[j].Has(u);
    }
    assert InLive(live, a) || a !in live;
    forall b | b in live ensures b < a ==> b + live[b] <= a
      ensures a < b ==> a + n <= b
    {
      assert InLive(live, b);
      assert b < a && b + live[b] > a ==> InLive(live, a);
    }
    hide Sorted, Covers;
    forall u: int
      ensures Covers(r, u) <==> Covers(bs, u) && !(a <= u < a + n)
      ensures InLive(live', u) <==> InLive(live, u) || a <= u < a + n
    {
      TakeCovers(bs, j, n, u);
      LiveWith(live, a, n, u);
    }
  }

  /** New core above everything obtained so far, not yet on the list. */
  lemma GrowPartition(bs: seq<Chunk>, live: map<nat, nat>, cells: set<int>, hp: nat, nu: nat)
    requires Sorted(bs) && Partition(bs, live, cells) && bs[0].at < hp && 0 < nu && hp + nu <= UNITS
    requires forall u :: u in cells ==> u < hp
    ensures hp !in live && Partition(bs, live[hp := nu], cells + Chunk(hp, nu).Units())
  {
    hide Covers;
    assert hp in live ==> InLive(live, hp);
    forall a | a in live ensures a + live[a] <= hp {
      assert InLive(live, a + live[a] - 1);
    }
    forall u: int
      ensures InLive(live[hp := nu], u) <==> InLive(live, u) || hp <= u < hp + nu
      ensures u in Chunk(hp, nu).Units() <==> hp <= u < hp + nu
    {
      LiveWith(live, hp, nu, u);
      assert Chunk(hp, nu).Has(u) <==> hp <= u < hp + nu;
    }
  }

  ghost function FreeUnits(bs: seq<Chunk>, cells: set<int>): set<int> { set u | u in cells && Covers(bs, u) }
  ghost function LiveUnits(live: map<nat, nat>, cells: set<int>): set<int> { set u | u in cells && InLive(live, u) }

  /** Free and live units add up to the units obtained. */
  lemma UnitsAddUp(bs: seq<Chunk>, live: map<nat, nat>, cells: set<int>)
    requires bs != [] && Partition(bs, live, cells)
    ensures FreeUnits(bs, cells) !! LiveUnits(live, cells)
    ensures |FreeUnits(bs, cells)| + |LiveUnits(live, cells)| == |cells|
  {
    assert cells == FreeUnits(bs, cells) + LiveUnits(live, cells);
  }

  /** How far the ring runs from k to j: 1 to n. */
  function Ahead(k: nat, j: nat, n: nat): (d: int)
  {
    if k < j then j - k else j - k + n
  }

  class Allocator {
    const base: nat
    /** None before the first malloc. */
    var freep: Option<nat>
    var ptr: map<nat, nat>
    var size: map<nat, nat>
    /** The free list from `base` on, the chunks handed out, the units obtained. */
    ghost var bs: seq<Chunk>
    ghost var live: map<nat, nat>
    ghost var cells: set<int>

    ghost predicate Valid()
      reads this
    {
      && Sorted(bs) && bs[0].at == base
      && Partition(bs, live, cells)
      && (forall a :: a in live ==> a in size && size[a] == live[a])
      && if freep.None? then live == map[] && |bs| == 1
         else Rep(ptr, size, bs) && exists k :: 0 <= k < |bs| && bs[k].at == freep.value
    }

    constructor (at: nat)
      ensures Valid() && base == at && live == map[] && cells == {}
    {
      base, freep, ptr, size := at, None, map[], map[];
      bs, live, cells := [Chunk(at, 0)], map[], {};
      new;
      assert forall u :: !Covers(bs, u) && !InLive(live, u);
    }

    /** The search of free: behind which free chunk bp belongs. */
    method FindSlot(bp: nat) returns (p: nat, ghost i: nat)
      requires Valid() && bp in live
      ensures i < |bs| && p == bs[i].at < bp && (i + 1 < |bs| ==> bp < bs[i + 1].at)
    {
      hide Partition, Rep, Sorted;
      assert bp > base && bs != [] by {
        LiveAbove(bs, live, cells, bp);
      }
      NotFree(bs, live, cells, bp);
      ghost var t := SlotExists(bs, bp, |bs|);
      p := freep.value;
      i :| 0 <= i < |bs| && bs[i].at == freep.value;
      RepHere(ptr, size, bs, i);
      SearchStops(bs, bp, t, i, ptr[p]);
      while !(bp > p && bp < ptr[p])
        invariant i < |bs| && p == bs[i].at && RepAt(ptr, size, bs, i)
        decreases if i <= t then t - i else t - i + |bs|
      {
        SearchStops(bs, bp, t, i, ptr[p]);
        if p >= ptr[p] && (bp > p || bp < ptr[p]) {
          break;
        }
        p := ptr[p];
        i := Succ(i, |bs|);
        RepHere(ptr, size, bs, i);
        SearchStops(bs, bp, t, i, ptr[p]);
      }
    }

    /** malloc takes n units from chunk j, the one behind chunk i. */
    method TakeFrom(prevp: nat, p0: nat, n: nat, ghost i: nat, ghost j: nat) returns (p: nat)
      requires Valid() && freep.Some? && i < |bs| && j == Succ(i, |bs|) && prevp == bs[i].at && p0 == bs[j].at
      requires 0 < n <= bs[j].len
      modifies `freep, `ptr, `size, `bs, `live
      ensures Valid() && freep.Some? && p !in old(live) && live == old(live)[p := n]
      ensures p == old(bs)[j].End() - n && bs == Take(old(bs), j, n)
    {
      hide Partition, Rep, Sorted;
      TakeSorted(bs, j, n);
      TakePartition(bs, live, cells, j, n);
      TakenIsBehind(bs, i, j, n);
      RepHere(ptr, size, bs, j);
      forall a | a in live ensures a != bs[j].at && a != bs[j].End() - n {
        NotFree(bs, live, cells, a);
      }
      p := p0;
      if size[p] == n {
        TakeAllRep(ptr, size, bs, j);
        ptr := ptr[prevp := ptr[p]];
      } else {
        TakeTailRep(ptr, size, bs, j, n);
        size := size[p := size[p] - n];
        p := p + size[p];
        size := size[p := n];
      }
      freep := Some(prevp);
      live := live[p := n];
      bs := Take(bs, j, n);
      assert bs[i].at == prevp;
    }

    /** morecore: fresh core, freed onto the list. */
    method Morecore(n: nat, more: Option<nat>) returns (r: Option<nat>, ghost f: nat)
      requires Valid() && freep.Some? && n > 0 && FromSbrk(base, cells, more, Core(n))
      modifies this
      ensures Valid() && freep.Some? && live == old(live)
      ensures more.None? ==> r.None? && bs == old(bs) && cells == old(cells)
      ensures more.Some? ==>
        r == freep && cells == old(cells) + Chunk(more.value, Core(n)).Units() && f < |bs| && bs[f].len >= n
    {
      hide Partition, Rep, Sorted;
      if more.None? {
        return None, 0;
      }
      var hp, nu := more.value, Core(n);
      GrowPartition(bs, live, cells, hp, nu);
      size := size[hp := nu];
      live, cells := live[hp := nu], cells + Chunk(hp, nu).Units();
      assert Rep(ptr, size, bs) by {
        ResizedElsewhere(ptr, old(size), bs, live, cells, hp, nu);
      }
      ghost var i := Free(hp + 1);
      assert live == old(live);
      r := freep;
      f := Low(old(bs), i, Chunk(hp, nu));
      MergedHas(old(bs), i, Chunk(hp, nu));
    }

    /** malloc, with the answer sbrk would give; `asked` says whether it was asked. */
    method Malloc(nbytes: Word, more: Option<nat>) returns (r: Option<nat>, ghost asked: bool)
      requires Valid() && Askable(UnitsFor(nbytes)) && FromSbrk(base, cells, more, Core(UnitsFor(nbytes)))
      modifies this
      ensures Valid()
      ensures asked <==> NoneFits(old(bs), UnitsFor(nbytes))
      ensures r.None? <==> asked && more.None?
      ensures r.None? ==> live == old(live) && cells == old(cells) && bs == old(bs)
      ensures r.Some? ==> r.value > 0 && r.value - 1 !in old(live) && live == old(live)[r.value - 1 := UnitsFor(nbytes)]
      ensures r.Some? ==> cells == old(cells) + if asked then Chunk(more.value, Core(UnitsFor(nbytes))).Units() else {}
      ensures r.Some? && !asked ==>
        FirstFit(old(bs), if old(freep).Some? then old(freep).value else base, UnitsFor(nbytes), bs, r.value - 1)
    {
      hide Partition, Rep, Sorted, NoneBefore, NoneFits, UnitsFor, FromSbrk, FirstFit, Take, Core;
      var n := UnitsFor(nbytes);
      asked := false;
      StartList();
      var prevp := freep.value;
      ghost var k: nat :| k < |bs| && bs[k].at == prevp;
      ghost var i: nat, j: nat, f: nat := k, Succ(k, |bs|), 0;
      RepHere(ptr, size, bs, k);
      var p := ptr[prevp];
      assert NoneBefore(bs, k, j, n) by {
        NoneYet(bs, k, n);
      }
      while true
        invariant Valid() && freep.Some? && live == old(live)
        invariant k < |bs| && i < |bs| && j == Succ(i, |bs|) && freep.value == bs[k].at && prevp == bs[i].at
        invariant p == bs[j].at
        invariant NoneBefore(bs, k, j, n)
        invariant !asked ==> bs == old(bs) && cells == old(cells)
        invariant !asked ==> freep.value == if old(freep).Some? then old(freep).value else base
        invariant asked ==>
          NoneFits(old(bs), n) && more.Some? && cells == old(cells) + Chunk(more.value, Core(n)).Units()
        invariant asked ==> f < |bs| && bs[f].len >= n
        decreases !asked, |bs| - Ahead(k, j, |bs|)
      {
        RepHere(ptr, size, bs, j);
        if size[p] >= n {
          assert !asked ==> !NoneFits(bs, n) by {
            SomeFits(bs, j, n);
          }
          if !asked {
            FitIsFirst(bs, k, j, n);
          }
          var a := TakeFrom(prevp, p, n, i, j);
          return Some(a + 1), asked;
        }
        OneFurther(bs, k, j, n);
        if p == freep.value {
          assert j == k by {
            SameChunk(bs, j, k);
          }
          assert !asked by {
            if asked {
              SomeFits(bs, f, n);
            }
          }
          asked := true;
          var q;
          q, f := Morecore(n, more);
          if q.None? {
            return None, true;
          }
          p := q.value;
          k :| 0 <= k < |bs| && bs[k].at == p;
          i, j := k, Succ(k, |bs|);
          NoneYet(bs, k, n);
        } else {
          i, j := j, Succ(j, |bs|);
        }
        RepHere(ptr, size, bs, i);
        prevp := p;
        p := ptr[p];
      }
    }

    /** The list of one, on the first call. */
    method StartList()
      requires Valid()
      modifies `freep, `ptr, `size
      ensures Valid() && freep == Some(if old(freep).Some? then old(freep).value else base)
    {
      if freep.None? {
        ptr, freep, size := ptr[base := base], Some(base), size[base := 0];
      }
    }

    /** free. */
    method Free(ap: nat) returns (ghost i: nat)
      requires Valid() && ap > 0 && ap - 1 in live
      modifies `freep, `ptr, `size, `bs, `live
      ensures Valid() && live == old(live) - {ap - 1}
      ensures var b := Chunk(ap - 1, old(live)[ap - 1]);
        Between(old(bs), i, b) && bs == Put(old(bs), i, b) && freep == Some(old(bs)[i].at)
    {
      hide Partition, Rep, Sorted;
      var bp, p := ap - 1, 0;
      p, i := FindSlot(bp);
      LiveFits(bs, live, cells, bp, i);
      ghost var b := Chunk(bp, live[bp]);
      FreePartition(bs, live, cells, bp, i);
      PutSorted(bs, i, b);
      Relink(bp, p, i);
      assert Put(bs, i, b)[i].at == p by {
        MergedAt(bs, i, b);
      }
      freep := Some(p);
      live := live - {bp};
      bs := Put(bs, i, b);
    }

    method Relink(bp: nat, p: nat, ghost i: nat)
      requires Valid() && bp in live && i < |bs| && p == bs[i].at && Between(bs, i, Chunk(bp, live[bp]))
      modifies `ptr, `size
      ensures Rep(ptr, size, Put(bs, i, Chunk(bp, live[bp])))
      ensures forall a :: a in live && a != bp ==> a in size && size[a] == live[a]
    {
      hide Partition, Rep, Sorted;
      ghost var b := Chunk(bp, live[bp]);
      RepHere(ptr, size, bs, i);
      RepHere(ptr, size, bs, Succ(i, |bs|));
      Around(bs, live, cells, bp, i);
      var next := ptr[p];
      if bp + size[bp] == next {
        size := size[bp := size[bp] + size[next]];
        ptr := ptr[bp := ptr[next]];
      } else {
        ptr := ptr[bp := next];
      }
      if p + size[p] == bp {
        size := size[p := size[p] + size[bp]];
        ptr := ptr[p := ptr[bp]];
      } else {
        ptr := ptr[p := bp];
      }
      forall k | 0 <= k < Low(bs, i, b) || High(bs, i, b) <= k < |bs|
        ensures KeptAt(old(ptr), old(size), bs, i, b, ptr, size, k)
      {
        RepHere(old(ptr), old(size), bs, k);
        Apart(bs, k, i);
      }
      PutRep(old(ptr), old(size), bs, i, b, ptr, size);
      forall a | a in live && a != bp ensures a in size && size[a] == live[a] {
        NotFree(bs, live, cells, a);
      }
    }
  }

  /** The units a request for nbytes takes, with its header, in 32-bit arithmetic. */
  function UnitsFor(nbytes: Word): (n: nat)
    ensures 0 < n <= UNITS
    ensures nbytes <= 0xFFFF_FFF8 ==> 8 * (n - 2) < nbytes <= 8 * (n - 1)
    ensures nbytes > 0xFFFF_FFF8 ==> n == 1
  {
    (nbytes + 7) % 0x1_0000_0000 / 8 + 1
  }

  /** What morecore asks sbrk for: what is needed, but at least 4096 units. */
  function Core(nu: nat): (c: nat)
    ensures nu <= c && 4096 <= c && (c == nu || c == 4096)
  {
    if nu < 4096 then 4096 else nu
  }

  /** The answer of sbrk: None, or core above everything obtained so far. */
  ghost predicate FromSbrk(base: nat, cells: set<int>, more: Option<nat>, n: nat)
  {
    more.Some? ==> base < more.value && more.value + n <= UNITS && forall u :: u in cells ==> u < more.value
  }

  /** morecore's argument to sbrk, which takes an int, is positive. */
  predicate Askable(n: nat) { 8 * Core(n) < 0x8000_0000 }

  /** A chunk is large enough for its request exactly if the request does not wrap;
      sbrk can be asked for it exactly if it also is below 2^31 - 15, or wraps. */
  lemma UnitsCoverRequest(nbytes: Word)
    ensures 8 * (UnitsFor(nbytes) - 1) >= nbytes <==> nbytes <= 0xFFFF_FFF8
    ensures Askable(UnitsFor(nbytes)) <==> nbytes <= 0x7FFF_FFF0 || nbytes > 0xFFFF_FFF8
  {
  }

  /** No chunk met on the way from k to before j has n units. */
  ghost predicate NoneBefore(bs: seq<Chunk>, k: nat, j: nat, n: nat)
  {
    forall m :: 0 <= m < |bs| && Ahead(k, m, |bs|) < Ahead(k, j, |bs|) ==> bs[m].len < n
  }

  /** p is cut off the end of the first chunk behind the one at `from`, around the ring, that has
      n units. */
  ghost predicate FirstFit(bs: seq<Chunk>, from: nat, n: nat, bs': seq<Chunk>, p: nat)
  {
    exists k: nat, j: nat :: k < |bs| && j < |bs| && bs[k].at == from && NoneBefore(bs, k, j, n) && n <= bs[j].len
                             && p == bs[j].End() - n && bs' == Take(bs, j, n)
  }

  lemma FitIsFirst(bs: seq<Chunk>, k: nat, j: nat, n: nat)
    requires k < |bs| && j < |bs| && NoneBefore(bs, k, j, n) && n <= bs[j].len
    ensures FirstFit(bs, bs[k].at, n, Take(bs, j, n), bs[j].End() - n)
  {
    hide NoneBefore;
  }

  ghost predicate NoneFits(bs: seq<Chunk>, n: nat) { forall m :: 0 <= m < |bs| ==> bs[m].len < n }

  lemma OneFurther(bs: seq<Chunk>, k: nat, j: nat, n: nat)
    requires k < |bs| && j < |bs| && NoneBefore(bs, k, j, n) && bs[j].len < n
    ensures j == k ==> NoneFits(bs, n)
    ensures j != k ==> NoneBefore(bs, k, Succ(j, |bs|), n) && Ahead(k, Succ(j, |bs|), |bs|) == Ahead(k, j, |bs|) + 1
  {
    assert forall m :: 0 <= m < |bs| && Ahead(k, m, |bs|) == Ahead(k, j, |bs|) ==> m == j;
    assert j == k ==> Ahead(k, j, |bs|) == |bs|;
  }

  lemma NoneYet(bs: seq<Chunk>, k: nat, n: nat)
    requires k < |bs|
    ensures NoneBefore(bs, k, Succ(k, |bs|), n)
  {
  }

  lemma SomeFits(bs: seq<Chunk>, j: nat, n: nat)
    requires j < |bs| && bs[j].len >= n
    ensures !NoneFits(bs, n)
  {
  }

  lemma SameChunk(bs: seq<Chunk>, j: nat, k: nat)
    requires Sorted(bs) && j < |bs| && k < |bs| && bs[j].at == bs[k].at
    ensures j == k
  {
    Apart(bs, j, k);
  }

  lemma TakenIsBehind(bs: seq<Chunk>, i: nat, j: nat, n: nat)
    requires Sorted(bs) && i < |bs| && j == Succ(i, |bs|) && 0 < n <= bs[j].len
    ensures j == i + 1 && Take(bs, j, n)[i] == bs[i]
  {
  }

  /** A size stored outside the free chunks' headers. */
  lemma ResizedElsewhere(ptr: map<nat, nat>, size: map<nat, nat>, bs: seq<Chunk>, live: map<nat, nat>, cells: set<int>,
                         hp: nat, nu: nat)
    requires Sorted(bs) && Partition(bs, live, cells) && hp in live && Rep(ptr, size, bs)
    ensures Rep(ptr, size[hp := nu], bs)
  {
    NotFree(bs, live, cells, hp);
    var size' := size[hp := nu];
    forall i | 0 <= i < |bs| ensures RepAt(ptr, size', bs, i) {
      RepHere(ptr, size, bs, i);
    }
  }

  /** The addresses that free tells apart. */
  lemma Around(bs: seq<Chunk>, live: map<nat, nat>, cells: set<int>, bp: nat, i: nat)
    requires Sorted(bs) && Partition(bs, live, cells) && bp in live && Between(bs, i, Chunk(bp, live[bp]))
    ensures bs[i].at < bp && forall k :: 0 <= k < |bs| ==> bs[k].at != bp
    ensures bp + live[bp] == bs[Succ(i, |bs|)].at <==> High(bs, i, Chunk(bp, live[bp])) == i + 2
    ensures i + 1 < |bs| ==> bs[i].at < bs[i + 1].at
  {
    LiveAbove(bs, live, cells, bp);
    NotFree(bs, live, cells, bp);
  }

  lemma LiveAbove(bs: seq<Chunk>, live: map<nat, nat>, cells: set<int>, bp: nat)
    requires Sorted(bs) && Partition(bs, live, cells) && bp in live
    ensures bp > bs[0].at
  {
  }
}
