/** What readi and writei do to the index trees as they move over a byte range. */
module Advance {
  import opened Blocks
  import opened FileTree
  import opened Alloc
  import opened Content

  /** File block bn holds one of the n bytes from off on. */
  predicate Touched(off: nat, n: nat, bn: nat) { n > 0 && off / BSIZE <= bn <= (off + n - 1) / BSIZE }

  /** Position q lies on the way to a touched block of the file. */
  ghost predicate OnPath(inum: nat, off: nat, n: nat, q: Pos)
    requires off + n <= MAXBYTES
  {
    exists bn: nat :: Touched(off, n, bn) && q.Above(DataPos(inum, bn))
  }

  /** s' is reached from s by bmap (and data stores) over the n bytes at off of file inum. */
  ghost predicate Advanced(sb: Superblock, s: Image, owner: map<nat, Pos>, s': Image, owner': map<nat, Pos>,
                           inum: nat, off: nat, n: nat)
  {
    && Owned(sb, s, owner) && Owned(sb, s', owner') && inum < sb.ninodes && off + n <= MAXBYTES
    && Framed(sb, s, s', inum)
    && MapGrew(sb, s, s', inum, off, n)
    && RootsGrew(sb, s, s', inum, off, n)
    && OwnersOnPath(owner, owner', inum, off, n)
  }

  ghost predicate Framed(sb: Superblock, s: Image, s': Image, inum: nat)
    requires ValidImage(sb, s) && ValidImage(sb, s')
  {
    && (forall i :: 0 <= i < sb.ninodes && i != inum ==> s'.inodes[i] == s.inodes[i])
    && (inum < sb.ninodes ==> s'.inodes[inum].(addrs := s.inodes[inum].addrs) == s.inodes[inum])
    && (forall k :: 0 <= k < sb.bmapstart ==> s'.disk[k] == s.disk[k])
  }

  ghost predicate MapGrew(sb: Superblock, s: Image, s': Image, inum: nat, off: nat, n: nat)
    requires ValidImage(sb, s) && ValidImage(sb, s')
  {
    && (forall j: nat, bn: nat {:trigger FlatAt(s', j, bn)} ::
      j < sb.ninodes && bn < MAXFILE && FlatAt(s, j, bn) != 0 ==>
          FlatAt(s', j, bn) == FlatAt(s, j, bn))
    && (forall bn: nat {:trigger FlatAt(s', inum, bn)} :: inum < sb.ninodes && bn < MAXFILE && Touched(off, n, bn) ==>
          FlatAt(s', inum, bn) != 0)
    && (forall j: nat, bn: nat {:trigger FlatAt(s', j, bn)} ::
          j < sb.ninodes && bn < MAXFILE && FlatAt(s', j, bn) != FlatAt(s, j, bn) ==> j == inum && Touched(off, n, bn))
  }

  /** An entry of addrs[] changes exactly when it was empty and leads to a touched block. */
  ghost predicate RootsGrew(sb: Superblock, s: Image, s': Image, inum: nat, off: nat, n: nat)
    requires ValidImage(sb, s) && ValidImage(sb, s')
  {
    inum < sb.ninodes ==> forall k :: 0 <= k < 13 ==>
      var a, a' := s.inodes[inum].addrs[k], s'.inodes[inum].addrs[k];
      && (a' != a <==> a == 0 && exists bn: nat :: bn < MAXFILE && Touched(off, n, bn) && DataPos(inum, bn).slot == k)
      && (a' == 0 ==> a == 0)
  }

  ghost predicate OwnersOnPath(owner: map<nat, Pos>, owner': map<nat, Pos>, inum: nat, off: nat, n: nat)
    requires off + n <= MAXBYTES
  {
    && (forall b {:trigger b in owner} :: b in owner ==> b in owner' && owner'[b] == owner[b])
    && (forall b {:trigger b in owner'} :: b in owner' && b !in owner ==> OnPath(inum, off, n, owner'[b]))
  }

  lemma AdvancedByNothing(sb: Superblock, s: Image, owner: map<nat, Pos>, inum: nat, off: nat)
    requires Owned(sb, s, owner) && inum < sb.ninodes && off <= MAXBYTES
    ensures Advanced(sb, s, owner, s, owner, inum, off, 0)
  {
  }

  /** One bmap call carries the range on by the m bytes of the block it maps. */
  lemma AdvanceByBmap(sb: Superblock, s: Image, owner: map<nat, Pos>, s1: Image, owner1: map<nat, Pos>,
                      s2: Image, owner2: map<nat, Pos>, inum: nat, off: nat, n: nat, m: nat)
    requires Advanced(sb, s, owner, s1, owner1, inum, off, n)
    requires 0 < m && off + n + m <= MAXBYTES && (off + n + m - 1) / BSIZE == (off + n) / BSIZE
    requires Grown(sb, s1, owner1, s2, owner2, DataPos(inum, (off + n) / BSIZE))
    requires FlatAt(s2, inum, (off + n) / BSIZE) != 0
    ensures Advanced(sb, s, owner, s2, owner2, inum, off, n + m)
  {
    var bn := (off + n) / BSIZE;
    TouchedStep(off, n, m);
    FlatGrew(sb, s1, owner1, s2, owner2, inum, bn);
    RootsGrewOne(sb, s1, owner1, s2, owner2, inum, bn);
    OwnersStep(sb, owner, owner1, owner2, inum, off, n, m);
    RootsStep(sb, s, s1, s2, inum, off, n, m);
  }

  lemma TouchedStep(off: nat, n: nat, m: nat)
    requires 0 < m && (off + n + m - 1) / BSIZE == (off + n) / BSIZE
    ensures forall bn: nat {:trigger Touched(off, n + m, bn)} ::
      Touched(off, n + m, bn) <==> Touched(off, n, bn) || bn == (off + n) / BSIZE
  {
  }

  lemma FlatGrew(sb: Superblock, s: Image, owner: map<nat, Pos>, s': Image, owner': map<nat, Pos>, inum: nat, bn: nat)
    requires inum < sb.ninodes && bn < MAXFILE && Grown(sb, s, owner, s', owner', DataPos(inum, bn))
    ensures forall j: nat, k: nat {:trigger FlatAt(s', j, k)} :: j < sb.ninodes && k < MAXFILE ==>
      FlatAt(s', j, k) == FlatAt(s, j, k) || (FlatAt(s, j, k) == 0 && j == inum && k == bn)
  {
    forall j: nat, k: nat | j < sb.ninodes && k < MAXFILE
      ensures FlatAt(s', j, k) == FlatAt(s, j, k) || (FlatAt(s, j, k) == 0 && j == inum && k == bn)
    {
      SplitOfBlock(j, sb.ninodes, k);
      SplitOfBlock(inum, sb.ninodes, bn);
      var p, q := DataPos(inum, bn), DataPos(j, k);
      if q.Above(p) {
        assert q.path == p.path;
        assert BlockNo(q) == k && BlockNo(p) == bn;
      }
    }
  }

  lemma RootsGrewOne(sb: Superblock, s: Image, owner: map<nat, Pos>, s': Image, owner': map<nat, Pos>, inum: nat,
                     bn: nat)
    requires inum < sb.ninodes && bn < MAXFILE && Grown(sb, s, owner, s', owner', DataPos(inum, bn))
    requires FlatAt(s', inum, bn) != 0
    ensures forall k :: 0 <= k < 13 ==>
      var a, a' := s.inodes[inum].addrs[k], s'.inodes[inum].addrs[k];
      && (a' != a ==> a == 0 && k == DataPos(inum, bn).slot)
      && (k == DataPos(inum, bn).slot ==> a' != 0)
  {
    hide TreesOwned, OwnersPlaced, MapMarks;
    var p := DataPos(inum, bn);
    SplitOfBlock(inum, sb.ninodes, bn);
    HungAbove(sb, s', p);
    assert NodeAt(s', p.Prefix(0)) != 0;
    forall k | 0 <= k < 13
      ensures s'.inodes[inum].addrs[k] != s.inodes[inum].addrs[k] ==> s.inodes[inum].addrs[k] == 0 && k == p.slot
    {
      assert Pos(inum, k, []).Valid(sb.ninodes);
    }
  }

  lemma RootsStep(sb: Superblock, s: Image, s1: Image, s2: Image, inum: nat, off: nat, n: nat, m: nat)
    requires ValidImage(sb, s) && ValidImage(sb, s1) && ValidImage(sb, s2) && inum < sb.ninodes
    requires 0 < m && off + n + m <= MAXBYTES && (off + n + m - 1) / BSIZE == (off + n) / BSIZE
    requires RootsGrew(sb, s, s1, inum, off, n)
    requires forall k :: 0 <= k < 13 ==>
      var a, a' := s1.inodes[inum].addrs[k], s2.inodes[inum].addrs[k];
      && (a' != a ==> a == 0 && k == DataPos(inum, (off + n) / BSIZE).slot)
      && (k == DataPos(inum, (off + n) / BSIZE).slot ==> a' != 0)
    ensures RootsGrew(sb, s, s2, inum, off, n + m)
  {
    TouchedStep(off, n, m);
    var bn := (off + n) / BSIZE;
    assert Touched(off, n + m, bn);
    forall k | 0 <= k < 13
      ensures var a, a' := s.inodes[inum].addrs[k], s2.inodes[inum].addrs[k];
        && (a' != a <==> a == 0 && exists b: nat :: b < MAXFILE && Touched(off, n + m, b) && DataPos(inum, b).slot == k)
        && (a' == 0 ==> a == 0)
    {
      if b: nat :| b < MAXFILE && Touched(off, n + m, b) && DataPos(inum, b).slot == k {
        assert b != bn ==> Touched(off, n, b);
      }
      if b: nat :| b < MAXFILE && Touched(off, n, b) && DataPos(inum, b).slot == k {
        assert Touched(off, n + m, b);
      }
    }
  }

  lemma OwnersStep(sb: Superblock, owner: map<nat, Pos>, owner1: map<nat, Pos>, owner2: map<nat, Pos>,
                   inum: nat, off: nat, n: nat, m: nat)
    requires 0 < m && off + n + m <= MAXBYTES && (off + n + m - 1) / BSIZE == (off + n) / BSIZE
    requires OwnersOnPath(owner, owner1, inum, off, n)
    requires forall b {:trigger b in owner1} :: b in owner1 ==> b in owner2 && owner2[b] == owner1[b]
    requires forall b {:trigger b in owner2} :: b in owner2 && b !in owner1 ==>
      owner2[b].Above(DataPos(inum, (off + n) / BSIZE))
    ensures OwnersOnPath(owner, owner2, inum, off, n + m)
  {
    TouchedStep(off, n, m);
    assert Touched(off, n + m, (off + n) / BSIZE);
    forall b | b in owner2 && b !in owner ensures OnPath(inum, off, n + m, owner2[b]) {
      if b in owner1 {
        var bn: nat :| Touched(off, n, bn) && owner1[b].Above(DataPos(inum, bn));
        assert Touched(off, n + m, bn);
      }
    }
  }

  /** Storing file data moves no tree. */
  lemma AdvanceByStore(sb: Superblock, s: Image, owner: map<nat, Pos>, s1: Image, owner1: map<nat, Pos>,
                       s2: Image, inum: nat, off: nat, n: nat, bn: nat, data: Block)
    requires Advanced(sb, s, owner, s1, owner1, inum, off, n)
    requires BlockStored(sb, s1, owner1, s2, inum, bn, data)
    ensures Advanced(sb, s, owner, s2, owner1, inum, off, n)
  {
    StoringKeepsTrees(sb, s1, owner1, s2, inum, bn, data);
    SplitOfBlock(inum, sb.ninodes, bn);
    assert owner1[FlatAt(s1, inum, bn)] == DataPos(inum, bn);
    forall j: nat, k: nat | j < sb.ninodes && k < MAXFILE ensures FlatAt(s2, j, k) == FlatAt(s1, j, k) {
      SplitOfBlock(j, sb.ninodes, k);
    }
  }
}
