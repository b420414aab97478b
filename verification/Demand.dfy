/** How many blocks a byte range of a file asks of the free map. */
module Demand {
  import opened Blocks
  import opened Counting
  import opened FileTree
  import opened Alloc
  import opened Content
  import opened Advance

  /** The positions on the way to the n bytes at off, tables and data. */
  ghost function PathPositions(inum: nat, off: nat, n: nat): set<Pos>
    requires off + n <= MAXBYTES
  {
    set bn: nat, k: nat | bn < MAXFILE && Touched(off, n, bn) && 0 <= k <= |DataPos(inum, bn).path| ::
      DataPos(inum, bn).Prefix(k)
  }

  /** Those of them without a block: what bmap has to fill. */
  ghost function Empties(sb: Superblock, s: Image, inum: nat, off: nat, n: nat): set<Pos>
    requires ValidImage(sb, s) && off + n <= MAXBYTES
  {
    set q | q in PathPositions(inum, off, n) && q.Valid(sb.ninodes) && NodeAt(s, q) == 0
  }

  ghost function FreeBlocks(sb: Superblock, d: seq<Block>): set<nat>
    requires sb.Valid() && |d| == sb.size
  {
    set b: nat | b < sb.size && !InUse(sb, d, b)
  }

  ghost function Fresh(owner: map<nat, Pos>, owner': map<nat, Pos>): set<nat> {
    set b | b in owner' && b !in owner
  }

  lemma PathIsOnPath(inum: nat, off: nat, n: nat, q: Pos)
    requires off + n <= MAXBYTES
    ensures q in PathPositions(inum, off, n) <==> OnPath(inum, off, n, q)
  {
    if bn: nat :| bn < MAXFILE && Touched(off, n, bn) && q.Above(DataPos(inum, bn)) {
      assert q == DataPos(inum, bn).Prefix(|q.path|);
    }
    if q in PathPositions(inum, off, n) {
      var bn: nat, k: nat :|
        bn < MAXFILE && Touched(off, n, bn) && k <= |DataPos(inum, bn).path| && q == DataPos(inum, bn).Prefix(k);
      assert q.Above(DataPos(inum, bn));
    }
  }

  /** balloc cannot hand out a block, and the blocks allocated on the way to the n bytes at off left
      one of these bytes without a place. */
  ghost predicate Stuck(sb: Superblock, s: Image, owner: map<nat, Pos>, s': Image, owner': map<nat, Pos>,
                        inum: nat, off: nat, n: nat, inOp: bool)
  {
    && Owned(sb, s, owner) && Owned(sb, s', owner') && inum < sb.ninodes && off + n <= MAXBYTES
    && OwnersOnPath(owner, owner', inum, off, n)
    && (exists bn: nat :: bn < MAXFILE && Touched(off, n, bn) && FlatAt(s', inum, bn) == 0)
    && Exhausted(sb, s'.disk, inOp)
  }

  lemma StuckWithin(sb: Superblock, s: Image, owner: map<nat, Pos>, s': Image, owner': map<nat, Pos>,
                    inum: nat, off: nat, m: nat, n: nat, inOp: bool)
    requires Stuck(sb, s, owner, s', owner', inum, off, m, inOp) && m <= n && off + n <= MAXBYTES
    ensures Stuck(sb, s, owner, s', owner', inum, off, n, inOp)
  {
    hide TreesOwned, OwnersPlaced, MapMarks, FlatAt, InUse;
    assert forall bn: nat {:trigger Touched(off, n, bn)} :: Touched(off, m, bn) ==> Touched(off, n, bn);
    forall b | b in owner' && b !in owner ensures OnPath(inum, off, n, owner'[b]) {
      var bn: nat :| Touched(off, m, bn) && owner'[b].Above(DataPos(inum, bn));
      assert Touched(off, n, bn);
    }
    var bn: nat :| bn < MAXFILE && Touched(off, m, bn) && FlatAt(s', inum, bn) == 0;
    assert Touched(off, n, bn);
  }

  /** A position that was taken keeps its block. */
  lemma TakenStays(sb: Superblock, s: Image, owner: map<nat, Pos>, s': Image, owner': map<nat, Pos>, q: Pos)
    requires Owned(sb, s, owner) && Owned(sb, s', owner') && q.Valid(sb.ninodes) && NodeAt(s, q) != 0
    requires forall b {:trigger b in owner} :: b in owner ==> b in owner' && owner'[b] == owner[b]
    ensures NodeAt(s', q) == NodeAt(s, q) && NodeAt(s, q) in owner
  {
    hide MapMarks;
    var x := NodeAt(s, q);
    assert owner[x] == q;
    assert owner'[x] == q;
  }

  /** The positions of new blocks were empty and lie on the way. */
  lemma FreshFills(sb: Superblock, s: Image, owner: map<nat, Pos>, s': Image, owner': map<nat, Pos>,
                   inum: nat, off: nat, n: nat, b: nat)
    requires Owned(sb, s, owner) && Owned(sb, s', owner') && off + n <= MAXBYTES
    requires OwnersOnPath(owner, owner', inum, off, n) && b in Fresh(owner, owner')
    ensures owner'[b] in Empties(sb, s, inum, off, n)
  {
    hide MapMarks, TreesOwned, OnPath;
    var q := owner'[b];
    PathIsOnPath(inum, off, n, q);
    assert q.Valid(sb.ninodes) && NodeAt(s', q) == b;
    if NodeAt(s, q) != 0 {
      TakenStays(sb, s, owner, s', owner', q);
      assert false;
    }
  }

  /** Once the whole range has blocks, every position that was empty has a new one. */
  lemma EmptyGetsFresh(sb: Superblock, s: Image, owner: map<nat, Pos>, s': Image, owner': map<nat, Pos>,
                       inum: nat, off: nat, n: nat, q: Pos) returns (b: nat)
    requires Owned(sb, s, owner) && Owned(sb, s', owner') && inum < sb.ninodes && off + n <= MAXBYTES
    requires OwnersOnPath(owner, owner', inum, off, n)
    requires forall bn: nat {:trigger FlatAt(s', inum, bn)} :: bn < MAXFILE && Touched(off, n, bn) ==>
      FlatAt(s', inum, bn) != 0
    requires q in Empties(sb, s, inum, off, n)
    ensures b in Fresh(owner, owner') && owner'[b] == q
  {
    hide MapMarks;
    PathIsOnPath(inum, off, n, q);
    var bn: nat :| bn < MAXFILE && Touched(off, n, bn) && q.Above(DataPos(inum, bn));
    assert FlatAt(s', inum, bn) != 0;
    SplitOfBlock(inum, sb.ninodes, bn);
    if NodeAt(s', q) == 0 {
      EmptyBelow(sb, s', q, DataPos(inum, bn));
      assert false;
    }
    b := NodeAt(s', q);
    NewHere(sb, s, owner, owner', b, q);
  }

  /** The block now at a position that was empty is new. */
  lemma NewHere(sb: Superblock, s: Image, owner: map<nat, Pos>, owner': map<nat, Pos>, b: nat, q: Pos)
    requires Owned(sb, s, owner) && q.Valid(sb.ninodes) && NodeAt(s, q) == 0 && b in owner' && owner'[b] == q && b != 0
    requires forall x {:trigger x in owner} :: x in owner ==> x in owner' && owner'[x] == owner[x]
    ensures b !in owner
  {
  }

  lemma DistinctOwners(sb: Superblock, s: Image, owner: map<nat, Pos>, blocks: set<nat>)
    requires Owned(sb, s, owner) && forall b :: b in blocks ==> b in owner
    ensures forall b, c :: b in blocks && c in blocks && owner[b] == owner[c] ==> b == c
  {
    forall b, c | b in blocks && c in blocks && owner[b] == owner[c] ensures b == c {
      OneAtPosition(sb, s, owner, b, c);
    }
  }

  /** A range that got all its blocks took one new block for each empty position. */
  lemma FreshAreEmpties(sb: Superblock, s: Image, owner: map<nat, Pos>, s': Image, owner': map<nat, Pos>,
                        inum: nat, off: nat, n: nat)
    requires Owned(sb, s, owner) && Owned(sb, s', owner') && inum < sb.ninodes && off + n <= MAXBYTES
    requires OwnersOnPath(owner, owner', inum, off, n)
    requires forall bn: nat {:trigger FlatAt(s', inum, bn)} :: bn < MAXFILE && Touched(off, n, bn) ==>
      FlatAt(s', inum, bn) != 0
    ensures |Fresh(owner, owner')| == |Empties(sb, s, inum, off, n)|
    ensures forall q :: q in Empties(sb, s, inum, off, n) ==> exists b :: b in Fresh(owner, owner') && owner'[b] == q
  {
    hide Owned, OwnersOnPath, Empties, Touched;
    assert ValidImage(sb, s) by { OwnedIsValid(sb, s, owner); }
    var added, empties := Fresh(owner, owner'), Empties(sb, s, inum, off, n);
    forall b | b in added ensures owner'[b] in empties {
      FreshFills(sb, s, owner, s', owner', inum, off, n, b);
    }
    forall q | q in empties ensures exists b :: b in added && owner'[b] == q {
      var b := EmptyGetsFresh(sb, s, owner, s', owner', inum, off, n, q);
    }
    DistinctOwners(sb, s', owner', added);
    AsMany(added, owner', empties);
  }

  lemma OwnedIsValid(sb: Superblock, s: Image, owner: map<nat, Pos>)
    requires Owned(sb, s, owner)
    ensures ValidImage(sb, s)
  {
  }

  /** New blocks were free. */
  lemma FreshWereFree(sb: Superblock, s: Image, owner: map<nat, Pos>, s': Image, owner': map<nat, Pos>)
    requires Owned(sb, s, owner) && Owned(sb, s', owner')
    ensures Fresh(owner, owner') <= FreeBlocks(sb, s.disk)
  {
    hide TreesOwned;
    forall b | b in Fresh(owner, owner') ensures b in FreeBlocks(sb, s.disk) {
      assert b in owner' && sb.DataStart() <= b < sb.size;
      assert !InUse(sb, s.disk, b);
    }
  }

  /** A range that got all its blocks found enough of them free. */
  lemma FoundEnough(sb: Superblock, s: Image, owner: map<nat, Pos>, s': Image, owner': map<nat, Pos>,
                    inum: nat, off: nat, n: nat)
    requires Owned(sb, s, owner) && Owned(sb, s', owner') && inum < sb.ninodes && off + n <= MAXBYTES
    requires OwnersOnPath(owner, owner', inum, off, n) && MapGrew(sb, s, s', inum, off, n)
    ensures |Empties(sb, s, inum, off, n)| <= |FreeBlocks(sb, s.disk)|
  {
    hide TreesOwned, OwnersPlaced, MapMarks, OwnersOnPath, Empties, FreeBlocks, Fresh;
    FreshAreEmpties(sb, s, owner, s', owner', inum, off, n);
    FreshWereFree(sb, s, owner, s', owner');
    SubsetIsNoLarger(Fresh(owner, owner'), FreeBlocks(sb, s.disk));
  }

  /** And it took exactly that many. */
  lemma TakesWhatItNeeds(sb: Superblock, s: Image, owner: map<nat, Pos>, s': Image, owner': map<nat, Pos>,
                         inum: nat, off: nat, n: nat)
    requires Owned(sb, s, owner) && Owned(sb, s', owner') && inum < sb.ninodes && off + n <= MAXBYTES
    requires OwnersOnPath(owner, owner', inum, off, n) && MapGrew(sb, s, s', inum, off, n)
    ensures |FreeBlocks(sb, s'.disk)| == |FreeBlocks(sb, s.disk)| - |Empties(sb, s, inum, off, n)|
  {
    hide TreesOwned, OwnersPlaced, OnPath, Empties;
    FreshAreEmpties(sb, s, owner, s', owner', inum, off, n);
    FreshWereFree(sb, s, owner, s', owner');
    forall b: nat | b < sb.size
      ensures b in FreeBlocks(sb, s'.disk) <==> b in FreeBlocks(sb, s.disk) - Fresh(owner, owner')
    {
      assert InUse(sb, s'.disk, b) <==> b < sb.DataStart() || b in owner';
      assert InUse(sb, s.disk, b) <==> b < sb.DataStart() || b in owner;
      assert b in owner ==> b in owner';
    }
    assert FreeBlocks(sb, s'.disk) == FreeBlocks(sb, s.disk) - Fresh(owner, owner');
  }

  /** A range that got stuck had an empty position. */
  lemma StuckHadEmpty(sb: Superblock, s: Image, owner: map<nat, Pos>, s': Image, owner': map<nat, Pos>,
                      inum: nat, off: nat, n: nat, inOp: bool)
    requires Stuck(sb, s, owner, s', owner', inum, off, n, inOp)
    ensures Empties(sb, s, inum, off, n) != {}
  {
    hide TreesOwned, OwnersPlaced, MapMarks, OwnersOnPath, Empties, Exhausted;
    var bn: nat :| bn < MAXFILE && Touched(off, n, bn) && FlatAt(s', inum, bn) == 0;
    LeftIsEmpty(sb, s, owner, s', owner', inum, off, n, bn);
  }

  /** Without an empty position the range has all its blocks already. */
  lemma NoEmptyNoHole(sb: Superblock, s: Image, inum: nat, off: nat, n: nat, bn: nat)
    requires ValidImage(sb, s) && inum < sb.ninodes && off + n <= MAXBYTES && bn < MAXFILE && Touched(off, n, bn)
    requires Empties(sb, s, inum, off, n) == {}
    ensures FlatAt(s, inum, bn) != 0
  {
    SplitOfBlock(inum, sb.ninodes, bn);
    var p := DataPos(inum, bn);
    PathIsOnPath(inum, off, n, p);
    assert p.Above(p);
    assert p !in Empties(sb, s, inum, off, n);
  }

  /** And a range that has all its blocks has no empty position. */
  lemma AllMappedNoEmpty(sb: Superblock, s: Image, inum: nat, off: nat, n: nat)
    requires ValidImage(sb, s) && inum < sb.ninodes && off + n <= MAXBYTES
    requires forall bn: nat {:trigger Touched(off, n, bn)} :: bn < MAXFILE && Touched(off, n, bn) ==>
      FlatAt(s, inum, bn) != 0
    ensures Empties(sb, s, inum, off, n) == {}
  {
    hide NodeAt;
    forall q | q in Empties(sb, s, inum, off, n) ensures false {
      PathIsOnPath(inum, off, n, q);
      var bn: nat :| bn < MAXFILE && Touched(off, n, bn) && q.Above(DataPos(inum, bn));
      SplitOfBlock(inum, sb.ninodes, bn);
      EmptyBelow(sb, s, q, DataPos(inum, bn));
    }
  }

  /** A range that got all its blocks without a new one had them. */
  lemma NothingTaken(sb: Superblock, s: Image, owner: map<nat, Pos>, s': Image, owner': map<nat, Pos>,
                     inum: nat, off: nat, n: nat)
    requires Owned(sb, s, owner) && Owned(sb, s', owner') && inum < sb.ninodes && off + n <= MAXBYTES
    requires OwnersOnPath(owner, owner', inum, off, n) && MapGrew(sb, s, s', inum, off, n)
    ensures Empties(sb, s, inum, off, n) == {} <==> owner' == owner
  {
    hide TreesOwned, OwnersPlaced, MapMarks, Empties, OnPath;
    FreshAreEmpties(sb, s, owner, s', owner', inum, off, n);
    if Fresh(owner, owner') == {} {
      forall b | b in owner' ensures b in owner {
        assert b !in Fresh(owner, owner');
      }
      assert owner' == owner;
    }
  }

  /** A range that got stuck found too few. */
  lemma StuckIsShort(sb: Superblock, s: Image, owner: map<nat, Pos>, s': Image, owner': map<nat, Pos>,
                     inum: nat, off: nat, n: nat)
    requires Stuck(sb, s, owner, s', owner', inum, off, n, true)
    ensures |Empties(sb, s, inum, off, n)| > |FreeBlocks(sb, s.disk)|
  {
    hide TreesOwned, OwnersPlaced, MapMarks, OwnersOnPath, Empties, PathPositions, InUse, NodeAt;
    var added, empties := Fresh(owner, owner'), Empties(sb, s, inum, off, n);
    var bn: nat :| bn < MAXFILE && Touched(off, n, bn) && FlatAt(s', inum, bn) == 0;
    var left := DataPos(inum, bn);
    LeftIsEmpty(sb, s, owner, s', owner', inum, off, n, bn);
    AllFreeAreFresh(sb, s, owner, s', owner');
    forall b | b in added ensures owner'[b] in empties - {left} {
      FreshFills(sb, s, owner, s', owner', inum, off, n, b);
      FreshIsPlaced(sb, s', owner', b);
    }
    DistinctOwners(sb, s', owner', added);
    AtMostAsMany(added, owner', empties - {left});
  }

  lemma FreshIsPlaced(sb: Superblock, s: Image, owner: map<nat, Pos>, b: nat)
    requires Owned(sb, s, owner) && b in owner
    ensures owner[b].Valid(sb.ninodes) && NodeAt(s, owner[b]) == b != 0
  {
  }

  lemma LeftIsEmpty(sb: Superblock, s: Image, owner: map<nat, Pos>, s': Image, owner': map<nat, Pos>,
                    inum: nat, off: nat, n: nat, bn: nat)
    requires Owned(sb, s, owner) && Owned(sb, s', owner') && inum < sb.ninodes && off + n <= MAXBYTES
    requires OwnersOnPath(owner, owner', inum, off, n)
    requires bn < MAXFILE && Touched(off, n, bn) && FlatAt(s', inum, bn) == 0
    ensures DataPos(inum, bn) in Empties(sb, s, inum, off, n)
  {
    hide MapMarks, TreesOwned, OwnersPlaced;
    SplitOfBlock(inum, sb.ninodes, bn);
    var q := DataPos(inum, bn);
    PathIsOnPath(inum, off, n, q);
    assert q.Above(q);
    if NodeAt(s, q) != 0 {
      TakenStays(sb, s, owner, s', owner', q);
      assert false;
    }
  }

  lemma AllFreeAreFresh(sb: Superblock, s: Image, owner: map<nat, Pos>, s': Image, owner': map<nat, Pos>)
    requires Owned(sb, s, owner) && Owned(sb, s', owner')
    requires forall b: nat :: b < sb.size ==> InUse(sb, s'.disk, b)
    ensures FreeBlocks(sb, s.disk) == Fresh(owner, owner')
  {
    FreshWereFree(sb, s, owner, s', owner');
    forall b | b in FreeBlocks(sb, s.disk) ensures b in Fresh(owner, owner') {
      assert InUse(sb, s'.disk, b);
    }
  }
}
