/** How many blocks one writei hands to log_write, from the state it starts in. */
module LogBound {
  import opened Blocks
  import opened Counting
  import opened FileTree
  import opened Alloc
  import opened Content
  import opened Advance
  import opened Demand
  import opened Dinode
  import opened ReadWrite
  import opened LogMachine

  ghost function Below(a: set<nat>, x: nat): set<nat> { set y | y in a && y < x }

  /** The k lowest numbers of a. */
  ghost function Lowest(a: set<nat>, k: nat): set<nat> { set x | x in a && |Below(a, x)| < k }

  /** The tables that get an entry when the n bytes at off are given blocks. */
  ghost function Filled(sb: Superblock, s: Image, inum: nat, off: nat, n: nat): set<Pos>
    requires ValidImage(sb, s) && off + n <= MAXBYTES
  {
    set q | q in Empties(sb, s, inum, off, n) && q.path != [] :: q.Parent()
  }

  /** How many file blocks n bytes at off span. */
  function Spanned(off: nat, n: nat): nat {
    if n == 0 then 0 else (off + n - 1) / BSIZE - off / BSIZE + 1
  }

  /** The blocks a writei of n bytes at off logs, counted before it starts: the data blocks
      it spans, the tables that get entries, the free-map blocks of as many of the lowest free
      blocks as it needs, and the inode block when the file grows. */
  ghost function WriteCost(sb: Superblock, s: Image, inum: nat, off: nat, n: nat): nat
    requires ValidImage(sb, s) && inum < sb.ninodes && off + n <= MAXBYTES
  {
    Spanned(off, n)
    + |Filled(sb, s, inum, off, n)|
    + |MapBlocksOf(sb, Lowest(FreeBlocks(sb, s.disk), |Empties(sb, s, inum, off, n)|))|
    + if n > 0 && off + n > s.inodes[inum].size then 1 else 0
  }

  /** The blocks taken are exactly the lowest free ones, as many as were empty. */
  lemma FreshAreLowest(sb: Superblock, s: Image, owner: map<nat, Pos>, s': Image, owner': map<nat, Pos>)
    requires Owned(sb, s, owner) && Owned(sb, s', owner') && TookLowest(sb, owner, owner')
    ensures Fresh(owner, owner') == Lowest(FreeBlocks(sb, s.disk), |Fresh(owner, owner')|)
  {
    hide TreesOwned, OwnersPlaced, MapMarks, TookLowest, Fresh, FreeBlocks;
    var added, free := Fresh(owner, owner'), FreeBlocks(sb, s.disk);
    FreshWereFree(sb, s, owner, s', owner');
    forall x | x in free ensures x in added <==> |Below(free, x)| < |added| {
      if x in added {
        forall y | y in Below(free, x) ensures y in added {
          LowerIsFresh(sb, s, owner, s', owner', y, x);
        }
        SubsetIsNoLarger(Below(free, x), added - {x});
      } else {
        forall c | c in added ensures c in Below(free, x) {
          if x < c {
            LowerIsFresh(sb, s, owner, s', owner', x, c);
          }
        }
        SubsetIsNoLarger(added, Below(free, x));
      }
    }
  }

  lemma LowerIsFresh(sb: Superblock, s: Image, owner: map<nat, Pos>, s': Image, owner': map<nat, Pos>, y: nat, c: nat)
    requires Owned(sb, s, owner) && Owned(sb, s', owner') && TookLowest(sb, owner, owner')
    requires c in Fresh(owner, owner') && y in FreeBlocks(sb, s.disk) && y < c
    ensures y in Fresh(owner, owner')
  {
    hide TreesOwned, OwnersPlaced;
    assert FilledBelow(sb, owner, owner', c);
    assert !InUse(sb, s.disk, y);
  }

  /** The blocks of owner that sit at the given places. */
  ghost function BlocksAt(owner: map<nat, Pos>, places: set<Pos>): set<nat> {
    set b | b in owner && owner[b] in places
  }

  ghost function DataPositions(inum: nat, b0: nat, b1: nat): set<Pos>
    requires b1 <= MAXFILE
  {
    set bn: nat | b0 <= bn < b1 :: DataPos(inum, bn)
  }

  lemma PlacesDiffer(inum: nat, bn: nat, bn': nat)
    requires bn < bn' < MAXFILE
    ensures DataPos(inum, bn) != DataPos(inum, bn')
  {
    SplitOfBlock(inum, inum + 1, bn);
    SplitOfBlock(inum, inum + 1, bn');
  }

  lemma {:induction false} DataPositionsCount(inum: nat, b0: nat, b1: nat)
    requires b0 <= b1 <= MAXFILE
    ensures |DataPositions(inum, b0, b1)| == b1 - b0
    decreases b1 - b0
  {
    hide DataPos;
    if b0 < b1 {
      DataPositionsCount(inum, b0, b1 - 1);
      var last := DataPos(inum, b1 - 1);
      forall bn: nat | b0 <= bn < b1 - 1 ensures DataPos(inum, bn) != last {
        PlacesDiffer(inum, bn, b1 - 1);
      }
      assert DataPositions(inum, b0, b1) == DataPositions(inum, b0, b1 - 1) + {last};
    }
  }

  /** The places of the n bytes at off. */
  ghost function TouchedPlaces(inum: nat, off: nat, n: nat): set<Pos>
    requires off + n <= MAXBYTES
  {
    if n == 0 then {} else DataPositions(inum, off / BSIZE, (off + n - 1) / BSIZE + 1)
  }

  lemma TouchedPlace(owner: map<nat, Pos>, inum: nat, off: nat, n: nat, b: nat)
    requires off + n <= MAXBYTES
    ensures b in BlocksAt(owner, TouchedPlaces(inum, off, n)) <==> HoldsTouched(owner, inum, off, n, b)
  {
    hide DataPos;
    if b in owner && n > 0 {
      if bn: nat :| Touched(off, n, bn) && owner[b] == DataPos(inum, bn) {
        assert owner[b] in DataPositions(inum, off / BSIZE, (off + n - 1) / BSIZE + 1);
      }
      if owner[b] in DataPositions(inum, off / BSIZE, (off + n - 1) / BSIZE + 1) {
        var bn: nat :| off / BSIZE <= bn < (off + n - 1) / BSIZE + 1 && owner[b] == DataPos(inum, bn);
        assert Touched(off, n, bn);
      }
    }
  }

  /** Blocks at places that all are taken are as many as the places. */
  lemma BlocksAtCount(sb: Superblock, s: Image, owner: map<nat, Pos>, places: set<Pos>)
    requires Owned(sb, s, owner)
    requires forall q :: q in places ==> exists b :: b in owner && owner[b] == q
    ensures |BlocksAt(owner, places)| == |places|
  {
    hide Owned;
    var blocks := BlocksAt(owner, places);
    DistinctOwners(sb, s, owner, blocks);
    forall q | q in places ensures exists b :: b in blocks && owner[b] == q {
      var b :| b in owner && owner[b] == q;
      assert b in blocks;
    }
    AsMany(blocks, owner, places);
  }

  /** s' and owner' are s and owner after a writei over the n bytes at off. */
  ghost predicate GotBlocks(sb: Superblock, s: Image, owner: map<nat, Pos>, s': Image, owner': map<nat, Pos>,
                            inum: nat, off: nat, n: nat)
  {
    && Owned(sb, s, owner) && Owned(sb, s', owner') && inum < sb.ninodes && off + n <= MAXBYTES
    && OwnersOnPath(owner, owner', inum, off, n) && MapGrew(sb, s, s', inum, off, n)
    && TookLowest(sb, owner, owner')
  }

  /** A range with all its blocks has as many data blocks as it spans. */
  lemma DataCount(sb: Superblock, s: Image, owner: map<nat, Pos>, inum: nat, off: nat, n: nat)
    requires Owned(sb, s, owner) && inum < sb.ninodes && off + n <= MAXBYTES
    requires forall bn: nat {:trigger FlatAt(s, inum, bn)} :: bn < MAXFILE && Touched(off, n, bn) ==>
      FlatAt(s, inum, bn) != 0
    ensures |BlocksAt(owner, TouchedPlaces(inum, off, n))| == Spanned(off, n)
  {
    hide TreesOwned, OwnersPlaced, MapMarks, DataPos, FlatAt;
    var places := TouchedPlaces(inum, off, n);
    forall q | q in places ensures exists b :: b in owner && owner[b] == q {
      var bn: nat :| off / BSIZE <= bn < (off + n - 1) / BSIZE + 1 && q == DataPos(inum, bn);
      assert Touched(off, n, bn);
      assert FlatAt(s, inum, bn) != 0;
      var b := MappedOwner(sb, s, owner, inum, bn);
    }
    BlocksAtCount(sb, s, owner, places);
    if n > 0 {
      DataPositionsCount(inum, off / BSIZE, (off + n - 1) / BSIZE + 1);
    }
  }

  lemma TableCount(sb: Superblock, s: Image, owner: map<nat, Pos>, s': Image, owner': map<nat, Pos>,
                   inum: nat, off: nat, n: nat)
    requires GotBlocks(sb, s, owner, s', owner', inum, off, n)
    ensures |BlocksAt(owner', Filled(sb, s, inum, off, n))| == |Filled(sb, s, inum, off, n)|
  {
    hide TreesOwned, OwnersPlaced, MapMarks, OwnersOnPath, TookLowest, FlatAt, Empties;
    var places := Filled(sb, s, inum, off, n);
    FreshAreEmpties(sb, s, owner, s', owner', inum, off, n);
    forall q | q in places ensures exists b :: b in owner' && owner'[b] == q {
      var c :| c in Empties(sb, s, inum, off, n) && c.path != [] && q == c.Parent();
      var a :| a in Fresh(owner, owner') && owner'[a] == c;
      var b := ParentOwned(sb, s', owner', a);
    }
    BlocksAtCount(sb, s', owner', places);
  }

  /** A new block holds touched data or is a table that got an entry. */
  lemma FreshIsDataOrTable(sb: Superblock, s: Image, owner: map<nat, Pos>, s': Image, owner': map<nat, Pos>,
                           inum: nat, off: nat, n: nat, a: nat)
    requires GotBlocks(sb, s, owner, s', owner', inum, off, n) && a in Fresh(owner, owner')
    ensures HoldsTouched(owner', inum, off, n, a) || a in BlocksAt(owner', Filled(sb, s, inum, off, n))
  {
    hide MapMarks, TreesOwned, TookLowest, MapGrew, PathPositions;
    FreshFills(sb, s, owner, s', owner', inum, off, n, a);
    var q := owner'[a];
    PathIsOnPath(inum, off, n, q);
    var bn: nat :| bn < MAXFILE && Touched(off, n, bn) && q.Above(DataPos(inum, bn));
    var p := DataPos(inum, bn);
    SplitOfBlock(inum, sb.ninodes, bn);
    if |q.path| == |p.path| {
      assert q == p;
    } else {
      var c := p.Prefix(|q.path| + 1);
      assert c.Valid(sb.ninodes) && q.Above(c) && c.Parent() == q;
      EmptyBelow(sb, s, q, c);
      PathIsOnPath(inum, off, n, c);
      assert c.Above(p);
      assert c in Empties(sb, s, inum, off, n);
    }
  }

  /** What bmap logs, by kind. */
  lemma LoggedForByKind(sb: Superblock, s: Image, owner: map<nat, Pos>, s': Image, owner': map<nat, Pos>,
                        inum: nat, off: nat, n: nat, b: nat)
    requires GotBlocks(sb, s, owner, s', owner', inum, off, n)
    ensures LoggedFor(sb, owner, owner', b) || HoldsTouched(owner', inum, off, n, b) <==>
      || HoldsTouched(owner', inum, off, n, b)
      || b in BlocksAt(owner', Filled(sb, s, inum, off, n))
      || b in MapBlocksOf(sb, Fresh(owner, owner'))
  {
    hide TreesOwned, OwnersPlaced, MapMarks, OwnersOnPath, TookLowest, HoldsTouched, Empties, MapGrew, MapBlock, FlatAt;
    if a :| LoggedWith(sb, owner, owner', b, a) {
      assert a in Fresh(owner, owner');
      FreshIsDataOrTable(sb, s, owner, s', owner', inum, off, n, a);
      FreshFills(sb, s, owner, s', owner', inum, off, n, a);
    }
    if b in BlocksAt(owner', Filled(sb, s, inum, off, n)) {
      var c :| c in Empties(sb, s, inum, off, n) && c.path != [] && owner'[b] == c.Parent();
      MapGrewCovers(sb, s, s', inum, off, n);
      FreshAreEmpties(sb, s, owner, s', owner', inum, off, n);
      var a :| a in Fresh(owner, owner') && owner'[a] == c;
      assert LoggedWith(sb, owner, owner', b, a);
    }
    if b in MapBlocksOf(sb, Fresh(owner, owner')) {
      var a :| a in Fresh(owner, owner') && b == MapBlock(sb, a);
      assert LoggedWith(sb, owner, owner', b, a);
    }
  }

  /** The four kinds of logged blocks are apart. */
  lemma KindsAreApart(sb: Superblock, s: Image, owner: map<nat, Pos>, s': Image, owner': map<nat, Pos>,
                      inum: nat, off: nat, n: nat)
    requires GotBlocks(sb, s, owner, s', owner', inum, off, n)
    ensures var data, tables, maps, ib := BlocksAt(owner', TouchedPlaces(inum, off, n)),
      BlocksAt(owner', Filled(sb, s, inum, off, n)), MapBlocksOf(sb, Fresh(owner, owner')), sb.inodestart + inum / 8;
      data !! tables && (data + tables) !! maps && ib !in data + tables + maps
  {
    hide MapMarks, TreesOwned, TookLowest, MapGrew, PathPositions, OwnersOnPath, NodeAt;
    var data, tables := BlocksAt(owner', TouchedPlaces(inum, off, n)), BlocksAt(owner', Filled(sb, s, inum, off, n));
    forall b | b in data ensures b !in tables {
      TouchedPlace(owner', inum, off, n, b);
      var bn: nat :| Touched(off, n, bn) && owner'[b] == DataPos(inum, bn);
      SplitOfBlock(inum, sb.ninodes, bn);
      FilledAreTables(sb, s, inum, off, n, owner'[b]);
    }
    assert forall b {:trigger b in owner'} :: b in owner' ==> sb.DataStart() <= b < sb.size;
    forall x | x in MapBlocksOf(sb, Fresh(owner, owner')) ensures sb.bmapstart <= x < sb.DataStart() {
      var a :| a in Fresh(owner, owner') && x == MapBlock(sb, a);
    }
  }

  lemma FilledAreTables(sb: Superblock, s: Image, inum: nat, off: nat, n: nat, q: Pos)
    requires ValidImage(sb, s) && off + n <= MAXBYTES
    ensures q in Filled(sb, s, inum, off, n) ==> |q.path| < Depth(q.slot) && OnPath(inum, off, n, q)
  {
    if q in Filled(sb, s, inum, off, n) {
      var c :| c in Empties(sb, s, inum, off, n) && c.path != [] && q == c.Parent();
      PathIsOnPath(inum, off, n, c);
      var bn: nat :| bn < MAXFILE && Touched(off, n, bn) && c.Above(DataPos(inum, bn));
      assert q.Above(DataPos(inum, bn));
    }
  }

  /** A writei adds to the log exactly WriteCost blocks, of those the state before it tells. */
  lemma WriteLogs(sb: Superblock, s: Image, owner: map<nat, Pos>, s': Image, owner': map<nat, Pos>,
                  inum: nat, off: nat, src: seq<Byte>, before: set<nat>, after: set<nat>) returns (logged: set<nat>)
    requires WriteDone(sb, s, owner, s', owner', inum, off, src)
    requires LoggedByWrite(sb, s, owner, s', owner', inum, off, |src|, before, after)
    ensures after == before + logged && |logged| == WriteCost(sb, s, inum, off, |src|)
  {
    hide TreesOwned, OwnersPlaced, MapMarks, MapGrew, RootsGrew, OwnersOnPath, OnDisk, Overlaid, TookLowest, Empties,
      BlocksAt, MapBlocksOf, Filled, TouchedPlaces, Fresh, FreeBlocks, HoldsTouched, LoggedFor, Lowest, Spanned;
    var n, ib := |src|, sb.inodestart + inum / 8;
    var grew := s'.inodes[inum].size > s.inodes[inum].size;
    var data, tables := BlocksAt(owner', TouchedPlaces(inum, off, n)), BlocksAt(owner', Filled(sb, s, inum, off, n));
    var maps := MapBlocksOf(sb, Fresh(owner, owner'));
    logged := data + tables + maps + if grew then {ib} else {};
    assert after == before + logged by {
      forall b ensures b in after <==> b in before + logged {
        LoggedForByKind(sb, s, owner, s', owner', inum, off, n, b);
        TouchedPlace(owner', inum, off, n, b);
      }
    }
    FreshAreLowest(sb, s, owner, s', owner');
    FreshAreEmpties(sb, s, owner, s', owner', inum, off, n) by { MapGrewCovers(sb, s, s', inum, off, n); }
    DataCount(sb, s', owner', inum, off, n) by { MapGrewCovers(sb, s, s', inum, off, n); }
    TableCount(sb, s, owner, s', owner', inum, off, n);
    KindsAreApart(sb, s, owner, s', owner', inum, off, n);
    FourApart(data, tables, maps, if grew then {ib} else {});
  }

  lemma MapGrewCovers(sb: Superblock, s: Image, s': Image, inum: nat, off: nat, n: nat)
    requires ValidImage(sb, s) && ValidImage(sb, s') && inum < sb.ninodes && MapGrew(sb, s, s', inum, off, n)
    ensures forall bn: nat {:trigger FlatAt(s', inum, bn)} :: bn < MAXFILE && Touched(off, n, bn) ==>
      FlatAt(s', inum, bn) != 0
  {
  }

  lemma FourApart(a: set<nat>, b: set<nat>, c: set<nat>, d: set<nat>)
    requires a !! b && (a + b) !! c && (a + b + c) !! d
    ensures |a + b + c + d| == |a| + |b| + |c| + |d|
  {
  }

  /** So begin_op's reservation of MAXOPBLOCKS covers a transaction that is one writei
      exactly when the state before the writei says so. */
  lemma ReservationHoldsExactlyWhen(sb: Superblock, s: Image, owner: map<nat, Pos>, s': Image, owner': map<nat, Pos>,
                                    inum: nat, off: nat, src: seq<Byte>, logged: set<nat>)
    requires WriteDone(sb, s, owner, s', owner', inum, off, src)
    requires LoggedByWrite(sb, s, owner, s', owner', inum, off, |src|, {}, logged)
    ensures |logged| == WriteCost(sb, s, inum, off, |src|)
    ensures |logged| <= MAXOPBLOCKS <==> WriteCost(sb, s, inum, off, |src|) <= MAXOPBLOCKS
  {
    hide WriteDone, LoggedByWrite, WriteCost;
    var l := WriteLogs(sb, s, owner, s', owner', inum, off, src, {}, logged);
    assert {} + l == l;
  }

  /** The tables on the way to p, from addrs[] down. */
  function Tables(p: Pos): (r: seq<Pos>)
    requires |p.path| <= 3
    ensures |r| == |p.path|
    ensures forall k: nat :: k < |r| ==> r[k] == p.Prefix(k)
  {
    match |p.path|
    case 0 => []
    case 1 => [p.Prefix(0)]
    case 2 => [p.Prefix(0), p.Prefix(1)]
    case _ => [p.Prefix(0), p.Prefix(1), p.Prefix(2)]
  }

  /** The tables on the way to the first or the last of a few blocks. */
  function RangeTables(inum: nat, b0: nat, b1: nat): (r: seq<Pos>)
    requires b0 < MAXFILE && b1 < MAXFILE
  {
    SplitOfBlock(inum, inum + 1, b0);
    SplitOfBlock(inum, inum + 1, b1);
    var p, q := DataPos(inum, b0), DataPos(inum, b1);
    if p.slot == q.slot && q.path != [] then Tables(p) + Tables(q)[1..] else Tables(p) + Tables(q)
  }

  function RangeData(inum: nat, b0: nat, b1: nat): (r: seq<Pos>)
    requires b0 <= b1 < MAXFILE
    ensures |r| == b1 - b0 + 1
    ensures forall k: nat :: k < |r| ==> r[k] == DataPos(inum, b0 + k)
    decreases b1 - b0
  {
    if b0 == b1 then [DataPos(inum, b0)] else RangeData(inum, b0, b1 - 1) + [DataPos(inum, b1)]
  }

  /** At most five tables lie on the way to four consecutive blocks. */
  lemma RangeTablesAreFew(inum: nat, b0: nat, b1: nat)
    requires b0 <= b1 <= b0 + 3 && b1 < MAXFILE
    ensures |RangeTables(inum, b0, b1)| <= 5
  {
    SplitOfBlock(inum, inum + 1, b0);
    SplitOfBlock(inum, inum + 1, b1);
  }

  /** Every table on the way to a block between is on the way to the first or the last. */
  lemma TableOfRange(inum: nat, b0: nat, b1: nat, bn: nat, q: Pos)
    requires b0 <= bn <= b1 <= b0 + 3 && b1 < MAXFILE
    requires q.Above(DataPos(inum, bn)) && |q.path| < Depth(q.slot)
    ensures q in RangeTables(inum, b0, b1)
  {
    SplitOfBlock(inum, inum + 1, b0);
    SplitOfBlock(inum, inum + 1, b1);
    SplitOfBlock(inum, inum + 1, bn);
    var p, p0, p1 := DataPos(inum, bn), DataPos(inum, b0), DataPos(inum, b1);
    var k := |q.path|;
    assert q == p.Prefix(k);
    assert p0.slot == p.slot ==> p0.Prefix(0) == p.Prefix(0);
    SharedPrefix(inum, b0, b1, bn, k);
    if p0.slot == p.slot && p0.Prefix(k) == q {
      assert Tables(p0)[k] == q;
    } else {
      assert Tables(p1)[k] == q;
      if p0.slot == p1.slot {
        assert Tables(p1)[1..][k - 1] == q;
      }
    }
  }

  /** Of three neighbours within four blocks, the middle one shares a table with an outer one. */
  lemma NearTable(x0: int, x: nat, x1: nat, c: nat)
    requires x0 <= x <= x1 <= x0 + 3 && (c == NINDIRECT || c == NDOUBINDIRECT)
    ensures (x0 >= 0 && x / c == x0 / c) || x / c == x1 / c
  {
  }

  lemma SameLeaf(x: nat, y: nat)
    requires x / NINDIRECT == y / NINDIRECT
    ensures x / NDOUBINDIRECT == y / NDOUBINDIRECT
    ensures x % NDOUBINDIRECT / NINDIRECT == y % NDOUBINDIRECT / NINDIRECT
  {
    assert x / NDOUBINDIRECT == x / NINDIRECT / NINDIRECT;
    assert y / NDOUBINDIRECT == y / NINDIRECT / NINDIRECT;
  }

  lemma SharedPrefix(inum: nat, b0: nat, b1: nat, bn: nat, k: nat)
    requires b0 <= bn <= b1 <= b0 + 3 && b1 < MAXFILE
    requires k < Depth(DataPos(inum, bn).slot)
    ensures
      || SharesPrefix(DataPos(inum, bn), DataPos(inum, b0), k)
      || SharesPrefix(DataPos(inum, bn), DataPos(inum, b1), k)
  {
    if bn >= NDIRECT + NINDIRECT + NDOUBINDIRECT {
      SharedTriple(inum, b0, b1, bn, k);
    } else if bn >= NDIRECT + NINDIRECT {
      SharedDouble(inum, b0, b1, bn, k);
    }
  }

  predicate SharesPrefix(p: Pos, q: Pos, k: nat) {
    q.slot == p.slot && |q.path| == |p.path| && k <= |p.path| && q.path[..k] == p.path[..k]
  }

  lemma SharedDouble(inum: nat, b0: nat, b1: nat, bn: nat, k: nat)
    requires b0 <= bn <= b1 <= b0 + 3 && k < 2
    requires NDIRECT + NINDIRECT <= bn < NDIRECT + NINDIRECT + NDOUBINDIRECT && b1 < MAXFILE
    ensures
      || SharesPrefix(DataPos(inum, bn), DataPos(inum, b0), k)
      || SharesPrefix(DataPos(inum, bn), DataPos(inum, b1), k)
  {
    var base := NDIRECT + NINDIRECT;
    NearTable(b0 - base, bn - base, b1 - base, NINDIRECT);
  }

  lemma SharedTriple(inum: nat, b0: nat, b1: nat, bn: nat, k: nat)
    requires b0 <= bn <= b1 <= b0 + 3 && k < 3
    requires NDIRECT + NINDIRECT + NDOUBINDIRECT <= bn && b1 < MAXFILE
    ensures
      || SharesPrefix(DataPos(inum, bn), DataPos(inum, b0), k)
      || SharesPrefix(DataPos(inum, bn), DataPos(inum, b1), k)
  {
    var base := NDIRECT + NINDIRECT + NDOUBINDIRECT;
    var x0, x, x1 := b0 - base, bn - base, b1 - base;
    NearTable(x0, x, x1, NINDIRECT);
    if x0 >= 0 && x / NINDIRECT == x0 / NINDIRECT {
      SameLeaf(x, x0);
      SameTriple(DataPos(inum, bn), DataPos(inum, b0), k);
    } else {
      SameLeaf(x, x1);
      SameTriple(DataPos(inum, bn), DataPos(inum, b1), k);
    }
  }

  lemma SameTriple(p: Pos, q: Pos, k: nat)
    requires p.slot == q.slot && |p.path| == |q.path| == 3 && p.path[0] == q.path[0] && p.path[1] == q.path[1] && k < 3
    ensures SharesPrefix(p, q, k)
  {
  }

  lemma {:induction false} ImageIsNoLarger(sb: Superblock, a: set<nat>)
    ensures |MapBlocksOf(sb, a)| <= |a|
  {
    if a != {} {
      var x :| x in a;
      ImageIsNoLarger(sb, a - {x});
      assert MapBlocksOf(sb, a) == MapBlocksOf(sb, a - {x}) + {MapBlock(sb, x)};
    }
  }

  lemma {:induction false} ListedAreNoMore(a: set<Pos>, list: seq<Pos>)
    requires forall q :: q in a ==> q in list
    ensures |a| <= |list|
  {
    if list != [] {
      ListedAreNoMore(a - {list[0]}, list[1..]);
      assert a <= a - {list[0]} + {list[0]};
      SubsetIsNoLarger(a, a - {list[0]} + {list[0]});
    } else {
      assert a == {};
    }
  }

  lemma {:induction false} ListedAreNoFewer(a: set<Pos>, list: seq<Pos>)
    requires forall k :: 0 <= k < |list| ==> list[k] in a
    requires forall j, k :: 0 <= j < k < |list| ==> list[j] != list[k]
    ensures |a| >= |list|
  {
    if list != [] {
      ListedAreNoFewer(a - {list[0]}, list[1..]);
    }
  }

  lemma {:induction false} LowestAreFew(a: set<nat>, k: nat)
    ensures |Lowest(a, k)| <= k
    ensures |a| >= k ==> |Lowest(a, k)| == k
  {
    if k > 0 && Lowest(a, k) != {} {
      var m := Greatest(Lowest(a, k));
      var rest := Lowest(a, k) - {m};
      assert rest <= Below(a, m);
      SubsetIsNoLarger(rest, Below(a, m));
    }
    if |a| >= k > 0 {
      LowestReach(a, k);
    }
  }

  lemma {:induction false} Greatest(a: set<nat>) returns (m: nat)
    requires a != {}
    ensures m in a && forall x :: x in a ==> x <= m
  {
    var x :| x in a;
    if a == {x} {
      m := x;
    } else {
      var rest := a - {x};
      assert rest != {} && a == rest + {x};
      m := Greatest(rest);
      m := if x > m then x else m;
      assert forall y :: y in a ==> y == x || y in rest;
    }
  }

  /** Among at least k numbers, k have fewer than k below them. */
  lemma {:induction false} LowestReach(a: set<nat>, k: nat)
    requires |a| >= k
    ensures |Lowest(a, k)| >= k
    decreases |a|
  {
    if a != {} {
      var m := Greatest(a);
      var rest := a - {m};
      assert Below(a, m) == rest;
      forall x | x in rest ensures Below(rest, x) == Below(a, x) {
      }
      if |a| == k {
        forall x | x in a ensures |Below(a, x)| < k {
          SubsetIsNoLarger(Below(a, x), a - {x});
        }
        assert Lowest(a, k) == a;
      } else {
        LowestReach(rest, k);
        SubsetIsNoLarger(Lowest(rest, k), Lowest(a, k));
      }
    }
  }

  /** A chunk of filewrite asks for at most nine blocks and logs at most nineteen. */
  lemma ChunkLogsFew(sb: Superblock, s: Image, inum: nat, off: nat, n: nat)
    requires ValidImage(sb, s) && inum < sb.ninodes && 0 < n <= 1536 && off + n <= MAXBYTES
    ensures Spanned(off, n) <= 4
    ensures |Filled(sb, s, inum, off, n)| <= 5
    ensures |Empties(sb, s, inum, off, n)| <= 9
    ensures 0 < WriteCost(sb, s, inum, off, n) <= 19
  {
    hide NodeAt, Filled, MapBlocksOf, Lowest, FreeBlocks, Empties, DataPos;
    var b0, b1 := off / BSIZE, (off + n - 1) / BSIZE;
    var tables, data := RangeTables(inum, b0, b1), RangeData(inum, b0, b1);
    RangeTablesAreFew(inum, b0, b1);
    forall q | q in Filled(sb, s, inum, off, n) ensures q in tables {
      FilledAreTables(sb, s, inum, off, n, q);
      var bn: nat :| Touched(off, n, bn) && q.Above(DataPos(inum, bn));
      TableOfRange(inum, b0, b1, bn, q);
    }
    ListedAreNoMore(Filled(sb, s, inum, off, n), tables);
    forall q | q in Empties(sb, s, inum, off, n) ensures q in tables + data {
      EmptyIsListed(sb, s, inum, off, n, q);
    }
    ListedAreNoMore(Empties(sb, s, inum, off, n), tables + data);
    var k := |Empties(sb, s, inum, off, n)|;
    LowestAreFew(FreeBlocks(sb, s.disk), k);
    ImageIsNoLarger(sb, Lowest(FreeBlocks(sb, s.disk), k));
  }

  lemma EmptyIsListed(sb: Superblock, s: Image, inum: nat, off: nat, n: nat, q: Pos)
    requires ValidImage(sb, s) && inum < sb.ninodes && 0 < n <= 1536 && off + n <= MAXBYTES
    requires q in Empties(sb, s, inum, off, n)
    ensures var b0, b1 := off / BSIZE, (off + n - 1) / BSIZE;
      q in RangeTables(inum, b0, b1) + RangeData(inum, b0, b1)
  {
    hide NodeAt, RangeTables, DataPos;
    var b0, b1 := off / BSIZE, (off + n - 1) / BSIZE;
    PathIsOnPath(inum, off, n, q);
    var bn: nat :| bn < MAXFILE && Touched(off, n, bn) && q.Above(DataPos(inum, bn));
    SplitOfBlock(inum, sb.ninodes, bn);
    if |q.path| < Depth(q.slot) {
      TableOfRange(inum, b0, b1, bn, q);
    } else {
      assert q.path == DataPos(inum, bn).path;
      assert RangeData(inum, b0, b1)[bn - b0] == q;
    }
  }

  /** File block 32904: the last but one under the first entry of the triple table. */
  const EDGE := NDIRECT + NINDIRECT + NDOUBINDIRECT + NDOUBINDIRECT - 2

  /** The five tables and four data blocks on the way to blocks EDGE to EDGE + 3. */
  function EdgePositions(inum: nat): (r: seq<Pos>)
    ensures |r| == 9
  {
    [Pos(inum, 12, []), Pos(inum, 12, [0]), Pos(inum, 12, [0, 127]), Pos(inum, 12, [1]), Pos(inum, 12, [1, 0]),
     Pos(inum, 12, [0, 127, 126]), Pos(inum, 12, [0, 127, 127]), Pos(inum, 12, [1, 0, 0]), Pos(inum, 12, [1, 0, 1])]
  }

  lemma EdgeIsDistinct(inum: nat)
    ensures forall j, k :: 0 <= j < k < 9 ==> EdgePositions(inum)[j] != EdgePositions(inum)[k]
  {
    var e := EdgePositions(inum);
    assert |e[0].path| == 0 && |e[1].path| == |e[3].path| == 1 && |e[2].path| == |e[4].path| == 2;
    assert e[1].path[0] == 0 && e[3].path[0] == 1 && e[2].path[0] == 0 && e[4].path[0] == 1;
    assert e[5].path[2] == 126 && e[6].path[2] == 127 && e[7].path[2] == 0 && e[8].path[2] == 1;
  }

  lemma EdgeIsAbove(inum: nat, k: nat) returns (bn: nat)
    requires k < 9
    ensures EDGE <= bn < EDGE + 4 && EdgePositions(inum)[k].Above(DataPos(inum, bn))
  {
    bn := EDGE + [0, 0, 0, 2, 2, 0, 1, 2, 3][k];
    assert DataPos(inum, EDGE).path == [0, 127, 126] && DataPos(inum, EDGE + 1).path == [0, 127, 127];
    assert DataPos(inum, EDGE + 2).path == [1, 0, 0] && DataPos(inum, EDGE + 3).path == [1, 0, 1];
    assert EdgePositions(inum)[k].path == DataPos(inum, bn).path[..|EdgePositions(inum)[k].path|];
  }

  lemma NoRootNoNode(sb: Superblock, s: Image, q: Pos)
    requires ValidImage(sb, s) && q.Valid(sb.ninodes) && s.inodes[q.inum].addrs[q.slot] == 0
    ensures NodeAt(s, q) == 0
  {
    EmptyBelow(sb, s, Pos(q.inum, q.slot, []), q);
  }

  lemma EdgeIsEmpty(sb: Superblock, s: Image, inum: nat, k: nat)
    requires ValidImage(sb, s) && inum < sb.ninodes && s.inodes[inum].addrs[12] == 0 && k < 9
    ensures EdgePositions(inum)[k] in Empties(sb, s, inum, EDGE * BSIZE + 1, 1536)
  {
    var bn := EdgeIsAbove(inum, k);
    var q := EdgePositions(inum)[k];
    assert Touched(EDGE * BSIZE + 1, 1536, bn);
    PathIsOnPath(inum, EDGE * BSIZE + 1, 1536, q);
    SplitOfBlock(inum, sb.ninodes, bn);
    NoRootNoNode(sb, s, q);
  }

  /** MAXOPBLOCKS is ten, yet a single chunk can log more: a first write of 1536 bytes
      across the edge of the triple table of a file that has none logs at least eleven. */
  lemma ChunkCanOutrunReservation(sb: Superblock, s: Image, inum: nat)
    requires ValidImage(sb, s) && inum < sb.ninodes
    requires s.inodes[inum].addrs[12] == 0 && s.inodes[inum].size <= EDGE * BSIZE
    requires |FreeBlocks(sb, s.disk)| >= 9
    ensures |Empties(sb, s, inum, EDGE * BSIZE + 1, 1536)| == 9
    ensures WriteCost(sb, s, inum, EDGE * BSIZE + 1, 1536) >= 11
  {
    hide NodeAt, Empties, FreeBlocks, InUse;
    var off := EDGE * BSIZE + 1;
    var e := EdgePositions(inum);
    var filled := Filled(sb, s, inum, off, 1536);
    ChunkLogsFew(sb, s, inum, off, 1536);
    EdgeIsDistinct(inum);
    forall k | 0 <= k < 9 ensures e[k] in Empties(sb, s, inum, off, 1536) {
      EdgeIsEmpty(sb, s, inum, k);
    }
    ListedAreNoFewer(Empties(sb, s, inum, off, 1536), e);
    forall k | 0 <= k < 5 ensures e[k] in filled {
      var c := [1, 2, 5, 4, 7][k];
      assert e[c].Parent() == e[k];
    }
    ListedAreNoFewer(filled, e[..5]);
    var low := Lowest(FreeBlocks(sb, s.disk), 9);
    LowestAreFew(FreeBlocks(sb, s.disk), 9);
    var x :| x in low;
    assert MapBlock(sb, x) in MapBlocksOf(sb, low);
  }
}
