/** What umalloc.c's free list holds: chunks of 8-byte units, in address order, and
    what free and malloc do to them. */
module FreeList {

  /** Units at..at + len; `at` is the chunk's header. */
  datatype Chunk = Chunk(at: nat, len: nat)
  {
    function End(): nat { at + len }
    predicate Has(u: int) { at <= u < End() }
    ghost function Units(): set<int> { set u | at <= u < End() && Has(u) }
  }

  /** The list in address order from `base`, which holds no unit; no two chunks touch. */
  ghost predicate Sorted(bs: seq<Chunk>)
  {
    && bs != [] && bs[0].len == 0
    && (forall i :: 0 < i < |bs| ==> bs[i].len > 0)
    && forall i, j :: 0 <= i < j < |bs| ==> bs[i].End() < bs[j].at
  }

  ghost predicate Covers(bs: seq<Chunk>, u: int) { exists i :: 0 <= i < |bs| && bs[i].Has(u) }

  /** b lies in the gap behind chunk i. */
  ghost predicate Between(bs: seq<Chunk>, i: nat, b: Chunk)
  {
    && i < |bs| && b.len > 0 && bs[i].End() <= b.at && (i == 0 ==> bs[0].at < b.at)
    && (i + 1 < |bs| ==> b.End() <= bs[i + 1].at)
  }

  /** b put behind chunk i, as one chunk with whichever neighbour it touches. */
  function Put(bs: seq<Chunk>, i: nat, b: Chunk): (r: seq<Chunk>)
    requires i < |bs|
  {
    bs[..Low(bs, i, b)] + [Merged(bs, i, b)] + bs[High(bs, i, b)..]
  }

  /** The chunks from Low on and before High go into the merged one. */
  function Low(bs: seq<Chunk>, i: nat, b: Chunk): (lo: nat)
    requires i < |bs|
    ensures i <= lo <= i + 1
  {
    if bs[i].End() == b.at then i else i + 1
  }

  function High(bs: seq<Chunk>, i: nat, b: Chunk): (hi: nat)
    requires i < |bs|
    ensures i < hi <= i + 2 && hi <= |bs|
  {
    if i + 1 < |bs| && b.End() == bs[i + 1].at then i + 2 else i + 1
  }

  function Merged(bs: seq<Chunk>, i: nat, b: Chunk): Chunk
    requires i < |bs|
  {
    var at := if bs[i].End() == b.at then bs[i].at else b.at;
    var end := if i + 1 < |bs| && b.End() == bs[i + 1].at then bs[i + 1].End() else b.End();
    Chunk(at, if end < at then 0 else end - at)
  }

  /** The last n units of chunk j handed out. */
  function Take(bs: seq<Chunk>, j: nat, n: nat): (r: seq<Chunk>)
    requires j < |bs| && n <= bs[j].len
  {
    if bs[j].len == n then bs[..j] + bs[j + 1..] else bs[j := Chunk(bs[j].at, bs[j].len - n)]
  }

  /** The merged chunk has the units of b and of the neighbours it swallowed. */
  lemma MergedHas(bs: seq<Chunk>, i: nat, b: Chunk)
    requires Sorted(bs) && Between(bs, i, b)
    ensures var c, lo, hi := Merged(bs, i, b), Low(bs, i, b), High(bs, i, b);
      && lo > 0 && c.len >= b.len
      && bs[lo - 1].End() < c.at && (hi < |bs| ==> c.End() < bs[hi].at)
      && forall u :: c.Has(u) <==> b.Has(u) || (lo == i && bs[i].Has(u)) || (hi == i + 2 && bs[i + 1].Has(u))
  {
  }

  /** Chunk k of the list with b put in. */
  lemma PutAt(bs: seq<Chunk>, i: nat, b: Chunk, k: nat)
    requires i < |bs| && k < |Put(bs, i, b)|
    ensures Put(bs, i, b)[k] ==
      var lo := Low(bs, i, b);
      if k < lo then bs[k] else if k == lo then Merged(bs, i, b) else bs[k - lo - 1 + High(bs, i, b)]
  {
    hide Merged, Low, High;
  }

  lemma PutSorted(bs: seq<Chunk>, i: nat, b: Chunk)
    requires Sorted(bs) && Between(bs, i, b)
    ensures Sorted(Put(bs, i, b)) && Put(bs, i, b)[0] == bs[0]
  {
    hide Merged, Low, High;
    MergedHas(bs, i, b);
    var r := Put(bs, i, b);
    PutAt(bs, i, b, 0);
    hide Put;
    forall k | 0 < k < |r| ensures r[k].len > 0 {
      PutAt(bs, i, b, k);
    }
    forall j, k | 0 <= j < k < |r| ensures r[j].End() < r[k].at {
      PutAt(bs, i, b, j);
      PutAt(bs, i, b, k);
    }
  }

  lemma TakeSorted(bs: seq<Chunk>, j: nat, n: nat)
    requires Sorted(bs) && j < |bs| && 0 < n <= bs[j].len
    ensures Sorted(Take(bs, j, n)) && Take(bs, j, n)[0] == bs[0]
  {
  }

  lemma PutCovers(bs: seq<Chunk>, i: nat, b: Chunk, u: int)
    requires Sorted(bs) && Between(bs, i, b)
    ensures Covers(Put(bs, i, b), u) <==> Covers(bs, u) || b.Has(u)
  {
    hide Merged, Low, High, Sorted;
    MergedHas(bs, i, b);
    var r, c, lo, hi := Put(bs, i, b), Merged(bs, i, b), Low(bs, i, b), High(bs, i, b);
    if c.Has(u) {
      assert r[lo].Has(u);
    } else {
      if Covers(bs, u) {
        var k :| 0 <= k < |bs| && bs[k].Has(u);
        assert r[if k < lo then k else k + lo + 1 - hi].Has(u);
      }
      if Covers(r, u) {
        var k :| 0 <= k < |r| && r[k].Has(u);
        assert bs[if k < lo then k else k - lo - 1 + hi].Has(u);
      }
    }
  }

  /** A unit lies in one chunk at most. */
  lemma OnlyOne(bs: seq<Chunk>, j: nat, u: int)
    requires Sorted(bs) && j < |bs| && bs[j].Has(u)
    ensures forall k :: 0 <= k < |bs| && bs[k].Has(u) ==> k == j
  {
  }

  lemma TakeCovers(bs: seq<Chunk>, j: nat, n: nat, u: int)
    requires Sorted(bs) && j < |bs| && 0 < n <= bs[j].len
    ensures Covers(Take(bs, j, n), u) <==> Covers(bs, u) && !(bs[j].End() - n <= u < bs[j].End())
  {
    hide Sorted;
    var r, gone := Take(bs, j, n), bs[j].len == n;
    if bs[j].Has(u) {
      OnlyOne(bs, j, u);
      if Covers(r, u) {
        var k :| 0 <= k < |r| && r[k].Has(u);
        assert bs[if gone && k >= j then k + 1 else k].Has(u);
      }
      if u < bs[j].End() - n {
        assert r[j].Has(u);
      }
    } else {
      if Covers(r, u) {
        var k :| 0 <= k < |r| && r[k].Has(u);
        assert bs[if gone && k >= j then k + 1 else k].Has(u);
      }
      if Covers(bs, u) {
        var k :| 0 <= k < |bs| && bs[k].Has(u);
        assert r[if gone && k > j then k - 1 else k].Has(u);
      }
    }
  }
}
