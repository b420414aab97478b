/** How many blocks one itrunc hands to log_write. */
module TruncBound {
  import opened Blocks
  import opened Counting
  import opened FileTree
  import opened Alloc
  import opened Content
  import opened Advance
  import opened Demand
  import opened Dinode
  import opened Fs
  import opened ReadWrite
  import opened Truncate
  import opened LogBound
  import opened LogMachine
  import opened FileWrite
  import opened FileRuns

  /** The free-map blocks of the file's blocks, and the inode's block. */
  ghost function TruncCost(sb: Superblock, owner: map<nat, Pos>, inum: nat): nat {
    |MapBlocksOf(sb, FileBlocks(owner, inum))| + 1
  }

  /** A transaction that is one itrunc stays within begin_op's reservation exactly when the blocks
      of the file lie in fewer than MAXOPBLOCKS free-map blocks. */
  lemma TruncationFitsExactlyWhen(sb: Superblock, s: Image, owner: map<nat, Pos>, inum: nat, logged: set<nat>)
    requires Owned(sb, s, owner) && inum < sb.ninodes
    requires logged == {} + MapBlocksOf(sb, FileBlocks(owner, inum)) + {sb.inodestart + inum / 8}
    ensures |logged| == TruncCost(sb, owner, inum)
    ensures |logged| <= MAXOPBLOCKS <==> |MapBlocksOf(sb, FileBlocks(owner, inum))| < MAXOPBLOCKS
  {
    hide TreesOwned, MapMarks;
    var maps, ib := MapBlocksOf(sb, FileBlocks(owner, inum)), sb.inodestart + inum / 8;
    forall x | x in maps ensures x != ib {
      var a :| a in FileBlocks(owner, inum) && x == MapBlock(sb, a);
      assert sb.bmapstart <= x;
    }
    assert logged == maps + {ib};
  }

  lemma {:induction false} WithinInterval(a: set<nat>, lo: nat, n: nat)
    requires forall x :: x in a ==> lo <= x < lo + n
    ensures |a| <= n
  {
    if n > 0 {
      var rest := a - {lo + n - 1};
      WithinInterval(rest, lo, n - 1);
      SubsetIsNoLarger(a, rest + {lo + n - 1});
    } else {
      assert a == {};
    }
  }

  /** A free-map block has the bits of at most BPB blocks. */
  lemma {:induction false} FewPerMapBlock(sb: Superblock, a: set<nat>)
    ensures |a| <= BPB * |MapBlocksOf(sb, a)|
    decreases |a|
  {
    if a != {} {
      var x :| x in a;
      var rest := OfOneMapBlock(sb, a, x);
      FewPerMapBlock(sb, rest);
    }
  }

  /** The blocks of a whose bits lie elsewhere than the bit of x. */
  lemma OfOneMapBlock(sb: Superblock, a: set<nat>, x: nat) returns (rest: set<nat>)
    requires x in a
    ensures |rest| < |a| <= |rest| + BPB && |MapBlocksOf(sb, a)| == |MapBlocksOf(sb, rest)| + 1
  {
    var m := MapBlock(sb, x);
    var here := set y | y in a && MapBlock(sb, y) == m;
    rest := a - here;
    assert MapBlocksOf(sb, a) == MapBlocksOf(sb, rest) + {m} by {
      assert forall y :: y in a ==> y in rest || MapBlock(sb, y) == m;
    }
    hide MapBlocksOf;
    assert |a| == |here| + |rest| && |here| > 0 by { assert a == here + rest && x in here; }
    forall y | y in here ensures m - sb.bmapstart == y / BPB { }
    WithinInterval(here, (m - sb.bmapstart) * BPB, BPB);
  }

  /** Blocks enough for ten free-map blocks: nine hold the bits of all but one. */
  const TEN_MAPS := 9 * BPB + 1

  /** The tables on the way to the first TEN_MAPS blocks of a file, and some more. */
  function TableList(inum: nat): (r: seq<Pos>)
    ensures |r| == 389
  {
    [Pos(inum, 10, []), Pos(inum, 11, []), Pos(inum, 12, [])]
    + seq(128, i requires 0 <= i => Pos(inum, 11, [i]))
    + seq(2, i requires 0 <= i => Pos(inum, 12, [i]))
    + seq(256, i requires 0 <= i => Pos(inum, 12, [i / 128, i % 128]))
  }

  lemma TableListed(inum: nat, bn: nat, q: Pos)
    requires bn < TEN_MAPS && q.Above(DataPos(inum, bn)) && |q.path| < Depth(q.slot)
    ensures q in TableList(inum)
  {
    var p, r := DataPos(inum, bn), TableList(inum);
    assert q == p.Prefix(|q.path|);
    if |q.path| == 0 {
      assert q.path == [];
      assert q == r[p.slot - 10];
    } else if |q.path| == 1 {
      assert q.path == [p.path[0]];
      if p.slot == 11 {
        assert r[3 + p.path[0]] == q;
      } else {
        assert r[131 + p.path[0]] == q;
      }
    } else {
      assert q.path == [p.path[0], p.path[1]];
      var i := 128 * p.path[0] + p.path[1];
      assert r[133 + i] == q;
    }
  }

  /** The first TEN_MAPS blocks of a file ask for themselves and at most 389 tables. */
  lemma LargeFileFits(sb: Superblock, s: Image, inum: nat)
    requires ValidImage(sb, s) && inum < sb.ninodes
    ensures TEN_MAPS * BSIZE <= MAXBYTES
    ensures |Empties(sb, s, inum, 0, TEN_MAPS * BSIZE)| <= TEN_MAPS + 389
  {
    hide NodeAt, DataPos, TableList;
    var n := TEN_MAPS * BSIZE;
    var data, tables := DataPositions(inum, 0, TEN_MAPS), TableList(inum);
    var empties := Empties(sb, s, inum, 0, n);
    forall q | q in empties ensures q in data || q in tables {
      PathIsOnPath(inum, 0, n, q);
      var bn: nat :| bn < MAXFILE && Touched(0, n, bn) && q.Above(DataPos(inum, bn));
      SplitOfBlock(inum, sb.ninodes, bn);
      if |q.path| < Depth(q.slot) {
        TableListed(inum, bn, q);
      } else {
        assert q.path == DataPos(inum, bn).path;
        assert q == DataPos(inum, bn);
      }
    }
    var more := empties - data;
    ListedAreNoMore(more, tables);
    DataPositionsCount(inum, 0, TEN_MAPS);
    SubsetIsNoLarger(empties, data + more);
  }

  /** A file with all of its first TEN_MAPS blocks has blocks in ten free-map blocks. */
  lemma LargeFileSpreads(sb: Superblock, s: Image, owner: map<nat, Pos>, inum: nat)
    requires Owned(sb, s, owner) && inum < sb.ninodes
    requires forall bn: nat {:trigger FlatAt(s, inum, bn)} :: bn < MAXFILE && Touched(0, TEN_MAPS * BSIZE, bn) ==>
      FlatAt(s, inum, bn) != 0
    ensures TruncCost(sb, owner, inum) >= 11
  {
    hide TreesOwned, OwnersPlaced, MapMarks, FlatAt, MapBlocksOf;
    var n := TEN_MAPS * BSIZE;
    var data := BlocksAt(owner, TouchedPlaces(inum, 0, n));
    DataCount(sb, s, owner, inum, 0, n);
    forall b | b in data ensures b in FileBlocks(owner, inum) {
      PlaceIsOfFile(inum, 0, n, owner[b]);
    }
    SubsetIsNoLarger(data, FileBlocks(owner, inum));
    FewPerMapBlock(sb, FileBlocks(owner, inum));
  }

  lemma PlaceIsOfFile(inum: nat, off: nat, n: nat, q: Pos)
    requires off + n <= MAXBYTES && q in TouchedPlaces(inum, off, n)
    ensures q.inum == inum
  {
  }

  /** The reservation can be outrun: make a file, write TEN_MAPS blocks of it with filewrite, a
      transaction a chunk, and truncate it.  mkfs makes disks of 40000 blocks. */
  method TruncationOverrun(sb: Superblock) returns (fs: FileSystem, ghost ss: seq<FileRuns.State>, ghost acts: seq<Act>)
    requires sb.Valid() && sb.DataStart() < BPB && sb.DataStart() + TEN_MAPS + 389 <= sb.size && sb.ninodes > 2
    ensures fs.sb == sb && fs.Valid() && IsRun(sb, ss, acts) && AfterMkfs(sb, ss[0])
    ensures acts == [Creating(2), Writing(2, 0, seq(TEN_MAPS * BSIZE, _ => 0 as Byte)), Truncating(2)]
    ensures ss[3] == FileRuns.State(fs.Now(), fs.owner)
    ensures fs.logged == {} + MapBlocksOf(sb, FileBlocks(ss[2].owner, 2)) + {sb.inodestart} && |fs.logged| >= 11
  {
    hide TreesOwned, OwnersPlaced, MapMarks, OnDisk, LoggedByWrite, Empties, FreeBlocks, SameContent, Overlaid,
      RootsGrew, OwnersOnPath, InChunks, MapBlocksOf, TruncCost, Truncated;
    fs := new FileSystem.Mkfs(sb);
    ghost var s0 := FileRuns.State(fs.Now(), fs.owner);
    MkfsFree(sb, s0.image);
    var r, dst := Perform(fs, CreateCall(2));
    ghost var s1 := FileRuns.State(fs.Now(), fs.owner);
    SameFree(sb, s0, s1);
    LargeFileFits(sb, s1.image, 2);
    var addr := seq(TEN_MAPS * BSIZE, _ => 0 as Byte);
    var f := new File(2, true, true);
    assert addr[..|addr|] == addr;
    ghost var txns;
    r, txns := Filewrite(fs, f, addr, |addr|);
    ghost var s2 := FileRuns.State(fs.Now(), fs.owner);
    LargeFileSpreads(sb, s2.image, s2.owner, 2);
    fs.BeginOp();
    var ok := Itrunc(fs, 2);
    fs.EndOp();
    ghost var s3 := FileRuns.State(fs.Now(), fs.owner);
    TruncationFitsExactlyWhen(sb, s2.image, s2.owner, 2, fs.logged);
    ss, acts := [s0, s1, s2, s3], [Creating(2), Writing(2, 0, addr), Truncating(2)];
    hide Step;
    assert forall k: nat {:trigger acts[k]} :: k < |acts| ==> Step(sb, ss[k], acts[k], ss[k + 1]);
  }
}
