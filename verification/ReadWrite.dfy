/** readi, writei and iupdate of fs.c against the byte function of a file. */
module ReadWrite {
  import opened Blocks
  import opened FileTree
  import opened Alloc
  import opened Content
  import opened Advance
  import opened Demand
  import opened Dinode
  import opened Fs

  const T_DEV := 3

  /** s' is s with the bytes src laid over file inum at off; no other byte of any file moves. */
  ghost predicate Overlaid(sb: Superblock, s: Image, s': Image, inum: nat, off: nat, src: seq<Byte>)
    requires ValidImage(sb, s) && ValidImage(sb, s')
  {
    forall j: nat, i: nat {:trigger ByteAt(s', j, i)} :: j < sb.ninodes && i < MAXBYTES ==>
      ByteAt(s', j, i) == if j == inum && off <= i < off + |src| then src[i - off] else ByteAt(s, j, i)
  }

  /** dst holds the bytes of file inum from off on. */
  ghost predicate IsSlice(s: Image, inum: nat, off: nat, dst: seq<Byte>)
    requires inum < |s.inodes| && |s.inodes[inum].addrs| == 13 && off + |dst| <= MAXBYTES
  {
    forall k: nat {:trigger dst[k]} :: k < |dst| ==> dst[k] == ByteAt(s, inum, off + k)
  }

  /** `data` with the m bytes src put at position at: memmove into a buffer. */
  function Patch(data: Block, at: nat, src: seq<Byte>): (r: Block)
    requires at + |src| <= BSIZE
    ensures forall k: nat :: k < BSIZE ==> r[k] == if at <= k < at + |src| then src[k - at] else data[k]
  {
    data[..at] + src + data[at + |src|..]
  }

  /** One block's worth of writei extends the overlay by the bytes it copied. */
  lemma OverlayStep(sb: Superblock, s: Image, s1: Image, owner1: map<nat, Pos>, s2: Image,
                    inum: nat, off: nat, src: seq<Byte>, at: nat, more: seq<Byte>)
    requires ValidImage(sb, s) && ValidImage(sb, s2) && Owned(sb, s1, owner1) && Overlaid(sb, s, s1, inum, off, src)
    requires inum < sb.ninodes && at == off + |src| && at + |more| <= MAXBYTES && at % BSIZE + |more| <= BSIZE
    requires |more| > 0
    requires var a := FlatAt(s1, inum, at / BSIZE);
      a != 0 && a < sb.size && BlockStored(sb, s1, owner1, s2, inum, at / BSIZE, Patch(s1.disk[a], at % BSIZE, more))
    ensures Overlaid(sb, s, s2, inum, off, src + more)
  {
    var bn := at / BSIZE;
    var a := FlatAt(s1, inum, bn);
    var data := Patch(s1.disk[a], at % BSIZE, more);
    forall j: nat, i: nat | j < sb.ninodes && i < MAXBYTES
      ensures ByteAt(s2, j, i) ==
        if j == inum && off <= i < off + |src + more| then (src + more)[i - off] else ByteAt(s, j, i)
    {
      StoringReplacesBlock(sb, s1, owner1, s2, inum, bn, data, j, i);
      assert ByteAt(s1, j, i) == if j == inum && off <= i < off + |src| then src[i - off] else ByteAt(s, j, i);
    }
  }

  /** Block b holds one of the n bytes from off on. */
  ghost predicate HoldsTouched(owner: map<nat, Pos>, inum: nat, off: nat, n: nat, b: nat)
    requires off + n <= MAXBYTES
  {
    b in owner && exists bn: nat :: Touched(off, n, bn) && owner[b] == DataPos(inum, bn)
  }

  /** What writei's loop hands to log_write over the n bytes at off: what bmap logs for
      the blocks it allocates, the lowest free ones, and every data block in the range. */
  ghost predicate LoggedWriting(sb: Superblock, owner0: map<nat, Pos>, owner: map<nat, Pos>, inum: nat, off: nat,
      n: nat, before: set<nat>, after: set<nat>)
    requires off + n <= MAXBYTES
  {
    && TookLowest(sb, owner0, owner)
    && forall b {:trigger b in after} :: b in after <==>
         b in before || LoggedFor(sb, owner0, owner, b) || HoldsTouched(owner, inum, off, n, b)
  }

  /** The step both loops share: map the block at off + tot, which holds the next m bytes. */
  method MapNext(fs: FileSystem, inum: nat, off: nat, tot: nat, at: nat, m: nat,
                 ghost s: Image, ghost owner: map<nat, Pos>) returns (r: Option<nat>)
    requires Advanced(fs.sb, s, owner, fs.Now(), fs.owner, inum, off, tot)
    requires at == off + tot && 0 < m && at + m <= MAXBYTES && at % BSIZE + m <= BSIZE
    modifies fs`disk, fs`inodes, fs`owner, fs`logged
    ensures fs.Valid() && ValidImage(fs.sb, old(fs.Now())) && SameContent(fs.sb, old(fs.Now()), fs.Now())
    ensures LoggedAlong(fs.sb, old(fs.owner), fs.owner, old(fs.logged), fs.logged)
    ensures (old(OnlyLogged(fs.base, fs.disk, fs.logged)) ==> OnlyLogged(fs.base, fs.disk, fs.logged))
    ensures forall b {:trigger b in old(fs.owner)} :: b in old(fs.owner) ==>
      b in fs.owner && fs.owner[b] == old(fs.owner)[b]
    ensures fs.outstanding == 0 ==> fs.owner == old(fs.owner)
    ensures r.None? ==> Stuck(fs.sb, s, owner, fs.Now(), fs.owner, inum, off, tot + m, fs.outstanding > 0)
    ensures r.Some? ==>
      && Advanced(fs.sb, s, owner, fs.Now(), fs.owner, inum, off, tot + m)
      && r.value == FlatAt(fs.Now(), inum, at / BSIZE) != 0
      && r.value < fs.sb.size && r.value in fs.owner && fs.owner[r.value] == DataPos(inum, at / BSIZE)
    ensures old(FlatAt(fs.Now(), inum, at / BSIZE)) != 0 ==> unchanged(fs) && r.Some?
  {
    hide TreesOwned, OwnersPlaced, MapMarks, TreesGrewAlong, LoggedAlong, OnlyLogged, Exhausted;
    ghost var s1, owner1 := fs.Now(), fs.owner;
    ghost var bn := at / BSIZE;
    WithinBlock(at, m - 1);
    r := fs.Bmap(inum, at / BSIZE);
    GrowthKeepsContent(fs.sb, s1, owner1, fs.Now(), fs.owner, DataPos(inum, bn));
    assert Touched(off, tot + m, bn);
    if r.Some? {
      AdvanceByBmap(fs.sb, s, owner, s1, owner1, fs.Now(), fs.owner, inum, off, tot, m);
      SplitOfBlock(inum, fs.sb.ninodes, bn);
      OwnerOf(fs.sb, fs.Now(), fs.owner, DataPos(inum, bn));
    } else {
      OwnersStep(fs.sb, owner, owner1, fs.owner, inum, off, tot, m);
    }
  }

  lemma OwnerOf(sb: Superblock, s: Image, owner: map<nat, Pos>, p: Pos)
    requires Owned(sb, s, owner) && p.Valid(sb.ninodes) && NodeAt(s, p) != 0
    ensures NodeAt(s, p) in owner && owner[NodeAt(s, p)] == p && NodeAt(s, p) < sb.size
  {
  }

  lemma WithinBlock(at: nat, j: nat)
    requires at % BSIZE + j < BSIZE
    ensures (at + j) / BSIZE == at / BSIZE && (at + j) % BSIZE == at % BSIZE + j
  {
  }

  /** One round of writei's loop logs what bmap logs, and the data block a. */
  lemma LoggedStep(sb: Superblock, s: Image, owner0: map<nat, Pos>, s1: Image, owner1: map<nat, Pos>,
                   s2: Image, owner2: map<nat, Pos>, inum: nat, off: nat, n: nat, m: nat, a: nat,
                   l0: set<nat>, l1: set<nat>, l2: set<nat>)
    requires Advanced(sb, s, owner0, s1, owner1, inum, off, n) && Owned(sb, s2, owner2)
    requires 0 < m && off + n + m <= MAXBYTES && (off + n + m - 1) / BSIZE == (off + n) / BSIZE
    requires LoggedWriting(sb, owner0, owner1, inum, off, n, l0, l1) && LoggedAlong(sb, owner1, owner2, l1, l2)
    requires forall b {:trigger b in owner1} :: b in owner1 ==> b in owner2 && owner2[b] == owner1[b]
    requires a in owner2 && owner2[a] == DataPos(inum, (off + n) / BSIZE)
    ensures LoggedWriting(sb, owner0, owner2, inum, off, n + m, l0, l2 + {a})
  {
    hide Owned, LoggedFor, TookLowest, HoldsTouched, MapGrew, RootsGrew, Framed, FlatAt, DataPos;
    LowestCompose(sb, owner0, owner1, owner2);
    forall b ensures b in l2 + {a} <==>
      b in l0 || LoggedFor(sb, owner0, owner2, b) || HoldsTouched(owner2, inum, off, n + m, b)
    {
      LoggedForCompose(sb, owner0, s1, owner1, s2, owner2, b);
      TouchedGrows(sb, s, owner0, s1, owner1, s2, owner2, inum, off, n, m, a, b);
      assert b in l1 <==> b in l0 || LoggedFor(sb, owner0, owner1, b) || HoldsTouched(owner1, inum, off, n, b);
    }
  }

  lemma TouchedGrows(sb: Superblock, s: Image, owner0: map<nat, Pos>, s1: Image, owner1: map<nat, Pos>,
                     s2: Image, owner2: map<nat, Pos>, inum: nat, off: nat, n: nat, m: nat, a: nat, b: nat)
    requires Advanced(sb, s, owner0, s1, owner1, inum, off, n) && Owned(sb, s2, owner2)
    requires 0 < m && off + n + m <= MAXBYTES && (off + n + m - 1) / BSIZE == (off + n) / BSIZE
    requires forall b {:trigger b in owner1} :: b in owner1 ==> b in owner2 && owner2[b] == owner1[b]
    requires a in owner2 && owner2[a] == DataPos(inum, (off + n) / BSIZE)
    ensures HoldsTouched(owner2, inum, off, n + m, b) <==> HoldsTouched(owner1, inum, off, n, b) || b == a
  {
    hide TreesOwned, OwnersPlaced, MapMarks, RootsGrew, Framed, DataPos, FlatAt;
    TouchedStep(off, n, m);
    assert Touched(off, n + m, (off + n) / BSIZE);
    if HoldsTouched(owner1, inum, off, n, b) {
      var bn: nat :| Touched(off, n, bn) && owner1[b] == DataPos(inum, bn);
      assert Touched(off, n + m, bn) && owner2[b] == DataPos(inum, bn);
    }
    if HoldsTouched(owner2, inum, off, n + m, b) {
      var bn: nat :| Touched(off, n + m, bn) && owner2[b] == DataPos(inum, bn);
      if Touched(off, n, bn) {
        assert FlatAt(s1, inum, bn) != 0;
        var x := MappedOwner(sb, s1, owner1, inum, bn);
        OneAtPosition(sb, s2, owner2, b, x);
        assert HoldsTouched(owner1, inum, off, n, b);
      } else {
        OneAtPosition(sb, s2, owner2, a, b);
      }
    }
  }

  lemma MappedOwner(sb: Superblock, s: Image, owner: map<nat, Pos>, inum: nat, bn: nat) returns (x: nat)
    requires Owned(sb, s, owner) && inum < sb.ninodes && bn < MAXFILE && FlatAt(s, inum, bn) != 0
    ensures x == FlatAt(s, inum, bn) && x in owner && owner[x] == DataPos(inum, bn)
  {
    SplitOfBlock(inum, sb.ninodes, bn);
    x := FlatAt(s, inum, bn);
    OwnerOf(sb, s, owner, DataPos(inum, bn));
  }

  /** One round of readi's loop: map the block. */
  method ReadNext(fs: FileSystem, inum: nat, off: nat, tot: nat, at: nat, m: nat,
                  ghost s: Image, ghost owner: map<nat, Pos>, ghost logged: set<nat>) returns (a: Option<nat>)
    requires Advanced(fs.sb, s, owner, fs.Now(), fs.owner, inum, off, tot) && SameContent(fs.sb, s, fs.Now())
    requires LoggedAlong(fs.sb, owner, fs.owner, logged, fs.logged)
    requires at == off + tot && 0 < m && at + m <= MAXBYTES && at % BSIZE + m <= BSIZE
    modifies fs`disk, fs`inodes, fs`owner, fs`logged
    ensures fs.Valid() && SameContent(fs.sb, s, fs.Now()) && (fs.outstanding == 0 ==> fs.owner == old(fs.owner))
    ensures a.None? ==> Stuck(fs.sb, s, owner, fs.Now(), fs.owner, inum, off, tot + m, fs.outstanding > 0)
    ensures a.Some? ==>
      && Advanced(fs.sb, s, owner, fs.Now(), fs.owner, inum, off, tot + m)
      && LoggedAlong(fs.sb, owner, fs.owner, logged, fs.logged)
      && a.value == FlatAt(fs.Now(), inum, at / BSIZE) != 0 && a.value < fs.sb.size
    ensures old(FlatAt(fs.Now(), inum, at / BSIZE)) != 0 ==> unchanged(fs) && a.Some?
  {
    hide TreesOwned, OwnersPlaced, MapMarks, MapGrew, RootsGrew, Stuck, LoggedAlong, SameContent, OnlyLogged, OnPath;
    ghost var s1, owner1, logged1 := fs.Now(), fs.owner, fs.logged;
    a := MapNext(fs, inum, off, tot, at, m, s, owner);
    SameContentTransitive(fs.sb, s, s1, fs.Now());
    if a.Some? {
      LoggedCompose(fs.sb, owner, s1, owner1, fs.Now(), fs.owner, logged, logged1, fs.logged);
    }
  }

  /** Read n bytes at off.  The result is -1 for a range that starts behind the end
      or wraps, else the number of bytes, clipped to the file.  None is a panic, which only
      a hole in the range can cause: "log_write outside of trans" if no operation is under
      way, else "out of blocks" exactly when the range has more empty positions on the way
      to it than blocks are free. */
  method Readi(fs: FileSystem, inum: nat, off: Word, n: Word) returns (r: Option<int>, dst: seq<Byte>)
    requires fs.Valid() && inum < fs.sb.ninodes
    requires fs.inodes[inum].kind % 0x1_0000 != T_DEV
    modifies fs`disk, fs`inodes, fs`owner, fs`logged
    ensures fs.Valid()
    ensures var size := old(fs.inodes[inum].size);
      if off > size || off + n >= 0x1_0000_0000 then r == Some(-1) && dst == [] && unchanged(fs)
      else
        var m := if off + n > size then size - off else n;
        && ReadDone(fs.sb, old(fs.Now()), old(fs.owner), fs.Now(), fs.owner, inum, off, m, r, dst)
        && (r.Some? <==> Answers(fs.sb, old(fs.Now()), inum, off, m, fs.outstanding > 0))
        && (r.None? ==>
              Stuck(fs.sb, old(fs.Now()), old(fs.owner), fs.Now(), fs.owner, inum, off, m, fs.outstanding > 0))
        && (r.Some? ==> LoggedAlong(fs.sb, old(fs.owner), fs.owner, old(fs.logged), fs.logged))
        && (r.Some? ==> (unchanged(fs) <==> Empties(fs.sb, old(fs.Now()), inum, off, m) == {}))
        && (r.Some? ==> (fs.owner == old(fs.owner) <==> Empties(fs.sb, old(fs.Now()), inum, off, m) == {}))
    ensures !Holes(old(fs.Now()), inum) ==> r.Some? && unchanged(fs)
  {
    hide TreesOwned, OwnersPlaced, MapMarks, MapGrew, RootsGrew, Stuck, OwnersOnPath, Holes, Empties, IsSlice,
      SameContent, LoggedAlong;
    var size := fs.inodes[inum].size;
    if off > size || (off + n) % 0x1_0000_0000 < off {
      return Some(-1), [];
    }
    var n' := if off + n > size then size - off else n;
    DenseHasNoEmpty(fs.sb, fs.Now(), inum, off, n');
    var ok;
    ok, dst := ReadBlocks(fs, inum, off, n');
    r := if ok then Some(n') else None;
  }

  /** readi's loop: the n bytes at off, a block at a time. */
  method ReadBlocks(fs: FileSystem, inum: nat, off: nat, n: nat) returns (ok: bool, dst: seq<Byte>)
    requires fs.Valid() && inum < fs.sb.ninodes && off + n <= MAXBYTES
    modifies fs`disk, fs`inodes, fs`owner, fs`logged
    ensures fs.Valid() && SameContent(fs.sb, old(fs.Now()), fs.Now())
    ensures ok <==> Answers(fs.sb, old(fs.Now()), inum, off, n, fs.outstanding > 0)
    ensures ok ==>
      && |dst| == n && IsSlice(old(fs.Now()), inum, off, dst)
      && Advanced(fs.sb, old(fs.Now()), old(fs.owner), fs.Now(), fs.owner, inum, off, n)
      && LoggedAlong(fs.sb, old(fs.owner), fs.owner, old(fs.logged), fs.logged)
      && (unchanged(fs) <==> Empties(fs.sb, old(fs.Now()), inum, off, n) == {})
      && (fs.owner == old(fs.owner) <==> Empties(fs.sb, old(fs.Now()), inum, off, n) == {})
    ensures !ok ==> Stuck(fs.sb, old(fs.Now()), old(fs.owner), fs.Now(), fs.owner, inum, off, n, fs.outstanding > 0)
  {
    hide TreesOwned, OwnersPlaced, MapMarks, MapGrew, RootsGrew, Stuck, OwnersOnPath, Empties, Answers, IsSlice,
      SameContent, LoggedAlong;
    ghost var s, owner, logged := fs.Now(), fs.owner, fs.logged;
    ghost var whole := Empties(fs.sb, s, inum, off, n) == {};
    AdvancedByNothing(fs.sb, s, owner, inum, off);
    NothingRead(fs.sb, s, owner, logged, inum, off);
    dst := [];
    var tot := 0;
    while tot < n
      invariant 0 <= tot <= n
      invariant |dst| == tot && IsSlice(s, inum, off, dst)
      invariant Advanced(fs.sb, s, owner, fs.Now(), fs.owner, inum, off, tot)
      invariant LoggedAlong(fs.sb, owner, fs.owner, logged, fs.logged)
      invariant SameContent(fs.sb, s, fs.Now()) && (fs.outstanding == 0 ==> fs.owner == owner)
      invariant whole ==> unchanged(fs)
    {
      var at := off + tot;
      var m := if n - tot < BSIZE - at % BSIZE then n - tot else BSIZE - at % BSIZE;
      if whole {
        NextIsThere(fs.sb, s, inum, off, n, at);
      }
      var a := ReadNext(fs, inum, off, tot, at, m, s, owner, logged);
      if a.None? {
        ReadStuck(fs.sb, s, owner, fs.Now(), fs.owner, inum, off, tot + m, n, fs.outstanding > 0);
        return false, dst;
      }
      SliceStep(fs.sb, s, fs.Now(), inum, off, dst, at, m, a.value);
      dst := dst + fs.disk[a.value][at % BSIZE..at % BSIZE + m];
      tot := tot + m;
    }
    ReadServed(fs.sb, s, owner, fs.Now(), fs.owner, inum, off, n, fs.outstanding > 0);
    ok := true;
  }

  lemma NothingRead(sb: Superblock, s: Image, owner: map<nat, Pos>, logged: set<nat>, inum: nat, off: nat)
    requires Owned(sb, s, owner) && inum < sb.ninodes && off <= MAXBYTES
    ensures IsSlice(s, inum, off, []) && SameContent(sb, s, s) && LoggedAlong(sb, owner, owner, logged, logged)
  {
    LoggedNothing(sb, owner, logged);
  }

  /** readi can return the n bytes at off: they are all there, or an operation is under way and
      enough blocks are free for those that are not. */
  ghost predicate Answers(sb: Superblock, s: Image, inum: nat, off: nat, n: nat, inOp: bool)
    requires ValidImage(sb, s) && off + n <= MAXBYTES
  {
    || Empties(sb, s, inum, off, n) == {}
    || (inOp && |Empties(sb, s, inum, off, n)| <= |FreeBlocks(sb, s.disk)|)
  }

  lemma NextIsThere(sb: Superblock, s: Image, inum: nat, off: nat, n: nat, at: nat)
    requires ValidImage(sb, s) && inum < sb.ninodes && off <= at < off + n <= MAXBYTES
    requires Empties(sb, s, inum, off, n) == {}
    ensures FlatAt(s, inum, at / BSIZE) != 0
  {
    hide Empties, FlatAt;
    assert Touched(off, n, at / BSIZE);
    NoEmptyNoHole(sb, s, inum, off, n, at / BSIZE);
  }

  lemma ReadStuck(sb: Superblock, s: Image, owner: map<nat, Pos>, s': Image, owner': map<nat, Pos>,
                  inum: nat, off: nat, m: nat, n: nat, inOp: bool)
    requires Stuck(sb, s, owner, s', owner', inum, off, m, inOp) && m <= n && off + n <= MAXBYTES
    ensures Stuck(sb, s, owner, s', owner', inum, off, n, inOp) && ValidImage(sb, s)
    ensures !Answers(sb, s, inum, off, n, inOp) && Empties(sb, s, inum, off, n) != {}
  {
    StuckWithin(sb, s, owner, s', owner', inum, off, m, n, inOp);
    StuckHadEmpty(sb, s, owner, s', owner', inum, off, n, inOp);
    if inOp {
      StuckIsShort(sb, s, owner, s', owner', inum, off, n);
    }
  }

  lemma ReadServed(sb: Superblock, s: Image, owner: map<nat, Pos>, s': Image, owner': map<nat, Pos>,
                   inum: nat, off: nat, n: nat, inOp: bool)
    requires Advanced(sb, s, owner, s', owner', inum, off, n) && (!inOp ==> owner' == owner)
    ensures Answers(sb, s, inum, off, n, inOp)
    ensures owner' == owner <==> Empties(sb, s, inum, off, n) == {}
  {
    hide Owned, Empties, FreeBlocks, OwnersOnPath, MapGrew, RootsGrew, Framed;
    FoundEnough(sb, s, owner, s', owner', inum, off, n);
    NothingTaken(sb, s, owner, s', owner', inum, off, n);
  }

  /** Some block below the end of the file is not mapped. */
  ghost predicate Holes(s: Image, inum: nat)
    requires inum < |s.inodes| && s.inodes[inum].Valid()
  {
    exists bn: nat :: bn < MAXFILE && bn * BSIZE < s.inodes[inum].size && FlatAt(s, inum, bn) == 0
  }

  lemma DenseHasNoEmpty(sb: Superblock, s: Image, inum: nat, off: nat, n: nat)
    requires ValidImage(sb, s) && inum < sb.ninodes && off + n <= s.inodes[inum].size
    ensures off + n <= MAXBYTES && (!Holes(s, inum) ==> Empties(sb, s, inum, off, n) == {})
  {
    hide Empties, FlatAt;
    if !Holes(s, inum) {
      forall bn: nat | bn < MAXFILE && Touched(off, n, bn) ensures FlatAt(s, inum, bn) != 0 {
        assert bn * BSIZE < s.inodes[inum].size;
      }
      AllMappedNoEmpty(sb, s, inum, off, n);
    }
  }

  /** readi moved over the m bytes at off and returned r and dst. */
  ghost predicate ReadDone(sb: Superblock, s: Image, owner: map<nat, Pos>, s': Image, owner': map<nat, Pos>,
                           inum: nat, off: nat, m: nat, r: Option<int>, dst: seq<Byte>)
    requires Owned(sb, s, owner) && Owned(sb, s', owner') && inum < sb.ninodes && off + m <= MAXBYTES
  {
    && SameContent(sb, s, s')
    && (r.Some? ==>
          && r.value == m
          && |dst| == m && IsSlice(s, inum, off, dst)
          && Advanced(sb, s, owner, s', owner', inum, off, m))
  }

  /** When a file is in step with its dinode, readi leaves it in step exactly when it finds
      every addrs[] entry it goes through already set: it never calls iupdate. */
  lemma ReadSyncedExactlyWhen(sb: Superblock, s: Image, owner: map<nat, Pos>, s': Image, owner': map<nat, Pos>,
                              inum: nat, off: nat, n: nat)
    requires Advanced(sb, s, owner, s', owner', inum, off, n) && InSync(sb, s, inum)
    ensures InSync(sb, s', inum) <==>
      forall bn: nat :: bn < MAXFILE && Touched(off, n, bn) ==> s.inodes[inum].addrs[DataPos(inum, bn).slot] != 0
  {
    hide TreesOwned, OwnersPlaced, MapMarks, MapGrew, OwnersOnPath, OnDisk;
    FramedKeepsDinodes(sb, s, s', inum);
    var ip, ip' := s.inodes[inum], s'.inodes[inum];
    if bn: nat :| bn < MAXFILE && Touched(off, n, bn) && ip.addrs[DataPos(inum, bn).slot] == 0 {
      assert ip'.addrs[DataPos(inum, bn).slot] != 0;
      assert ip' != ip;
    } else {
      assert ip'.addrs == ip.addrs;
    }
  }

  lemma SliceStep(sb: Superblock, s: Image, s': Image, inum: nat, off: nat, dst: seq<Byte>, at: nat, m: nat, a: nat)
    requires ValidImage(sb, s) && ValidImage(sb, s') && SameContent(sb, s, s') && inum < sb.ninodes
    requires at == off + |dst| && at + m <= MAXBYTES && at % BSIZE + m <= BSIZE && m > 0
    requires a == FlatAt(s', inum, at / BSIZE) != 0 && a < sb.size && IsSlice(s, inum, off, dst)
    ensures IsSlice(s, inum, off, dst + s'.disk[a][at % BSIZE..at % BSIZE + m])
  {
    var r := dst + s'.disk[a][at % BSIZE..at % BSIZE + m];
    forall k: nat | k < |r| ensures r[k] == ByteAt(s, inum, off + k) {
      if k >= |dst| {
        WithinBlock(at, k - |dst|);
        assert ByteAt(s', inum, off + k) == ByteAt(s, inum, off + k);
      } else {
        assert r[k] == dst[k];
      }
    }
  }

  /** Copy the in-core inode over its dinode and log the block. */
  method Iupdate(fs: FileSystem, inum: nat) returns (ok: bool)
    requires fs.Valid() && inum < fs.sb.ninodes
    modifies fs`disk, fs`logged
    ensures ok <==> fs.outstanding > 0
    ensures !ok ==> unchanged(fs)
    ensures ok ==>
      && (var b := fs.sb.inodestart + inum / 8;
          fs.disk == old(fs.disk)[b := StoreInode(old(fs.disk)[b], inum % 8, fs.inodes[inum])])
      && fs.logged == old(fs.logged) + {fs.sb.inodestart + inum / 8}
      && InodeStored(fs.sb, old(fs.Now()), fs.owner, fs.Now(), inum)
    ensures old(OnlyLogged(fs.base, fs.disk, fs.logged)) ==> OnlyLogged(fs.base, fs.disk, fs.logged)
  {
    ghost var s := fs.Now();
    var b := fs.sb.inodestart + inum / 8;
    ok := fs.LogWrite(b, StoreInode(fs.disk[b], inum % 8, fs.inodes[inum]));
    if ok {
      UpdateKeepsTrees(fs.sb, s, fs.owner, fs.Now(), inum);
    }
  }

  /** After iupdate: the dinode of inum is the in-core inode, every other dinode,
      all trees and all file bytes are as before. */
  ghost predicate InodeStored(sb: Superblock, s: Image, owner: map<nat, Pos>, s': Image, inum: nat)
  {
    && Owned(sb, s, owner) && Owned(sb, s', owner) && inum < sb.ninodes
    && s'.inodes == s.inodes
    && OnDisk(sb, s'.disk, inum) == s.inodes[inum]
    && (forall j: nat {:trigger OnDisk(sb, s'.disk, j)} :: j < sb.ninodes && j != inum ==>
          OnDisk(sb, s'.disk, j) == OnDisk(sb, s.disk, j))
    && TreesSame(sb, s, s')
    && SameContent(sb, s, s')
  }

  lemma UpdateKeepsTrees(sb: Superblock, s: Image, owner: map<nat, Pos>, s': Image, inum: nat)
    requires Owned(sb, s, owner) && inum < sb.ninodes
    requires var b := sb.inodestart + inum / 8;
      s' == s.(disk := s.disk[b := StoreInode(s.disk[b], inum % 8, s.inodes[inum])])
    ensures InodeStored(sb, s, owner, s', inum)
  {
    hide MapMarks, OnDisk, StoreInode;
    MetadataKeepsTrees(sb, s, owner, s');
    StoredOnDisk(sb, s, s', inum);
  }

  /** Changing blocks below the free map moves no tree and no file byte. */
  lemma MetadataKeepsTrees(sb: Superblock, s: Image, owner: map<nat, Pos>, s': Image)
    requires Owned(sb, s, owner) && ValidImage(sb, s') && s'.inodes == s.inodes
    requires forall k :: sb.bmapstart <= k < sb.size ==> s'.disk[k] == s.disk[k]
    ensures Owned(sb, s', owner) && TreesSame(sb, s, s') && SameContent(sb, s, s')
  {
    hide SameContent;
    assert forall b {:trigger b in owner} :: b in owner ==> sb.bmapstart <= b < sb.size;
    forall p: Pos | p.Valid(sb.ninodes) ensures NodeAt(s', p) == NodeAt(s, p) {
      NodeAtDependsOnTables(sb, s, s', owner, p);
    }
    SameMarks(sb, s.disk, s'.disk, owner);
    SameDataSameContent(sb, s, owner, s');
  }

  lemma StoredOnDisk(sb: Superblock, s: Image, s': Image, inum: nat)
    requires ValidImage(sb, s) && inum < sb.ninodes
    requires var b := sb.inodestart + inum / 8;
      s' == s.(disk := s.disk[b := StoreInode(s.disk[b], inum % 8, s.inodes[inum])])
    ensures forall j: nat {:trigger OnDisk(sb, s'.disk, j)} :: j < sb.ninodes ==>
      OnDisk(sb, s'.disk, j) == if j == inum then s.inodes[inum] else OnDisk(sb, s.disk, j)
  {
    hide StoreInode, LoadInode;
    var b := sb.inodestart + inum / 8;
    forall j: nat | j < sb.ninodes
      ensures OnDisk(sb, s'.disk, j) == if j == inum then s.inodes[inum] else OnDisk(sb, s.disk, j)
    {
      if j / 8 == inum / 8 {
        InodeRoundTrip(s.disk[b], inum % 8, s.inodes[inum], j % 8);
      }
    }
  }

  lemma SameDataSameContent(sb: Superblock, s: Image, owner: map<nat, Pos>, s': Image)
    requires Owned(sb, s, owner) && ValidImage(sb, s') && TreesSame(sb, s, s')
    requires forall b {:trigger b in owner} :: b in owner ==> s'.disk[b] == s.disk[b]
    ensures SameContent(sb, s, s')
  {
    forall j: nat, i: nat | j < sb.ninodes && i < MAXBYTES ensures ByteAt(s', j, i) == ByteAt(s, j, i) {
      SplitOfBlock(j, sb.ninodes, i / BSIZE);
      var p := DataPos(j, i / BSIZE);
      assert NodeAt(s', p) == NodeAt(s, p);
      assert NodeAt(s, p) != 0 ==> NodeAt(s, p) in owner;
    }
  }

  /** The in-core inode and its dinode agree. */
  ghost predicate InSync(sb: Superblock, s: Image, inum: nat)
    requires ValidImage(sb, s) && inum < sb.ninodes
  {
    OnDisk(sb, s.disk, inum) == s.inodes[inum]
  }

  /** The size of a file after src was written at off. */
  function NewSize(size: nat, off: nat, src: seq<Byte>): nat
  {
    if |src| > 0 && off + |src| > size then off + |src| else size
  }

  /** writei laid src over file inum at off. */
  ghost predicate WriteDone(sb: Superblock, s: Image, owner: map<nat, Pos>, s': Image, owner': map<nat, Pos>,
                            inum: nat, off: nat, src: seq<Byte>)
  {
    && Owned(sb, s, owner) && Owned(sb, s', owner') && inum < sb.ninodes && off + |src| <= MAXBYTES
    && Overlaid(sb, s, s', inum, off, src)
    && MapGrew(sb, s, s', inum, off, |src|)
    && RootsGrew(sb, s, s', inum, off, |src|)
    && OwnersOnPath(owner, owner', inum, off, |src|)
    && (forall i :: 0 <= i < sb.ninodes && i != inum ==> s'.inodes[i] == s.inodes[i])
    && var ip, ip' := s.inodes[inum], s'.inodes[inum];
    && ip' == ip.(size := NewSize(ip.size, off, src), addrs := ip'.addrs)
    && (forall j: nat {:trigger OnDisk(sb, s'.disk, j)} :: j < sb.ninodes ==>
          OnDisk(sb, s'.disk, j) == if j == inum && ip'.size > ip.size then ip' else OnDisk(sb, s.disk, j))
  }

  /** What one writei hands to log_write: as LoggedWriting, and the inode block exactly when
      the file grows. */
  ghost predicate LoggedByWrite(sb: Superblock, s: Image, owner: map<nat, Pos>, s': Image, owner': map<nat, Pos>,
                                inum: nat, off: nat, n: nat, before: set<nat>, after: set<nat>)
    requires inum < |s.inodes| && inum < |s'.inodes| && off + n <= MAXBYTES
  {
    && TookLowest(sb, owner, owner')
    && forall b {:trigger b in after} :: b in after <==>
         || b in before
         || LoggedFor(sb, owner, owner', b)
         || HoldsTouched(owner', inum, off, n, b)
         || (s'.inodes[inum].size > s.inodes[inum].size && b == sb.inodestart + inum / 8)
  }

  lemma OverlaidThenSame(sb: Superblock, s: Image, s1: Image, s2: Image, inum: nat, off: nat, src: seq<Byte>)
    requires ValidImage(sb, s) && ValidImage(sb, s1) && ValidImage(sb, s2)
    requires Overlaid(sb, s, s1, inum, off, src) && SameContent(sb, s1, s2)
    ensures Overlaid(sb, s, s2, inum, off, src)
  {
    forall j: nat, i: nat | j < sb.ninodes && i < MAXBYTES
      ensures ByteAt(s2, j, i) == if j == inum && off <= i < off + |src| then src[i - off] else ByteAt(s, j, i)
    {
      assert ByteAt(s2, j, i) == ByteAt(s1, j, i);
    }
  }

  /** One round of writei's loop: map the block, patch it, log it. */
  method WriteNext(fs: FileSystem, inum: nat, src: seq<Byte>, off: nat, tot: nat, at: nat, m: nat,
                   ghost s: Image, ghost owner: map<nat, Pos>, ghost logged: set<nat>) returns (ok: bool)
    requires at == off + tot && tot + m <= |src| && 0 < m && at + m <= MAXBYTES && at % BSIZE + m <= BSIZE
    requires Advanced(fs.sb, s, owner, fs.Now(), fs.owner, inum, off, tot)
    requires LoggedWriting(fs.sb, owner, fs.owner, inum, off, tot, logged, fs.logged)
    requires Overlaid(fs.sb, s, fs.Now(), inum, off, src[..tot])
    modifies fs`disk, fs`inodes, fs`owner, fs`logged
    ensures fs.Valid()
    ensures ok ==> fs.outstanding > 0
    ensures !ok && fs.outstanding > 0 ==> Stuck(fs.sb, s, owner, fs.Now(), fs.owner, inum, off, tot + m, true)
    ensures old(OnlyLogged(fs.base, fs.disk, fs.logged)) ==> OnlyLogged(fs.base, fs.disk, fs.logged)
    ensures ok ==>
      && Advanced(fs.sb, s, owner, fs.Now(), fs.owner, inum, off, tot + m)
      && LoggedWriting(fs.sb, owner, fs.owner, inum, off, tot + m, logged, fs.logged)
      && Overlaid(fs.sb, s, fs.Now(), inum, off, src[..tot + m])
  {
    hide TreesOwned, OwnersPlaced, MapMarks, MapGrew, RootsGrew, OwnersOnPath, LoggedAlong, LoggedWriting, Stuck,
      OnlyLogged;
    ghost var s1, owner1, logged1 := fs.Now(), fs.owner, fs.logged;
    WithinBlock(at, m - 1);
    var a := MapNext(fs, inum, off, tot, at, m, s, owner);
    if a.None? {
      return false;
    }
    ghost var s2 := fs.Now();
    OverlaidThenSame(fs.sb, s, s1, s2, inum, off, src[..tot]);
    LoggedStep(fs.sb, s, owner, s1, owner1, s2, fs.owner, inum, off, tot, m, a.value, logged, logged1, fs.logged);
    var data := Patch(fs.disk[a.value], at % BSIZE, src[tot..tot + m]);
    ok := fs.LogWrite(a.value, data);
    if !ok {
      return false;
    }
    assert BlockStored(fs.sb, s2, fs.owner, fs.Now(), inum, at / BSIZE, data);
    AdvanceByStore(fs.sb, s, owner, s2, fs.owner, fs.Now(), inum, off, tot + m, at / BSIZE, data);
    OverlayStep(fs.sb, s, s2, fs.owner, fs.Now(), inum, off, src[..tot], at, src[tot..tot + m]);
    assert src[..tot] + src[tot..tot + m] == src[..tot + m];
    return true;
  }

  lemma ResizeKeepsTrees(sb: Superblock, s: Image, owner: map<nat, Pos>, s': Image, inum: nat)
    requires Owned(sb, s, owner) && inum < sb.ninodes && ValidImage(sb, s')
    requires s'.disk == s.disk && s'.inodes == s.inodes[inum := s'.inodes[inum]]
    requires s'.inodes[inum].addrs == s.inodes[inum].addrs
    ensures Owned(sb, s', owner) && TreesSame(sb, s, s') && SameContent(sb, s, s')
  {
    forall p: Pos | p.Valid(sb.ninodes) ensures NodeAt(s', p) == NodeAt(s, p) {
      NodeAtDependsOnTables(sb, s, s', owner, p);
    }
    SameDataSameContent(sb, s, owner, s');
  }

  lemma SameTreesSameMap(sb: Superblock, s: Image, s1: Image, s2: Image, inum: nat, off: nat, n: nat)
    requires ValidImage(sb, s) && ValidImage(sb, s1) && ValidImage(sb, s2) && inum < sb.ninodes
    requires MapGrew(sb, s, s1, inum, off, n) && TreesSame(sb, s1, s2)
    ensures MapGrew(sb, s, s2, inum, off, n)
  {
    forall j: nat, k: nat | j < sb.ninodes && k < MAXFILE ensures FlatAt(s2, j, k) == FlatAt(s1, j, k) {
      SplitOfBlock(j, sb.ninodes, k);
    }
  }

  lemma WriteUnsized(sb: Superblock, s: Image, owner: map<nat, Pos>, s': Image, owner': map<nat, Pos>,
                     inum: nat, off: nat, src: seq<Byte>)
    requires Advanced(sb, s, owner, s', owner', inum, off, |src|) && Overlaid(sb, s, s', inum, off, src)
    requires NewSize(s.inodes[inum].size, off, src) == s.inodes[inum].size
    ensures WriteDone(sb, s, owner, s', owner', inum, off, src)
  {
    hide TreesOwned, OwnersPlaced, MapMarks, MapGrew, RootsGrew, OwnersOnPath, OnDisk;
    FramedKeepsDinodes(sb, s, s', inum);
  }

  /** bmap and data stores leave every dinode alone. */
  lemma FramedKeepsDinodes(sb: Superblock, s: Image, s': Image, inum: nat)
    requires ValidImage(sb, s) && ValidImage(sb, s') && Framed(sb, s, s', inum)
    ensures forall j: nat {:trigger OnDisk(sb, s'.disk, j)} :: j < sb.ninodes ==>
      OnDisk(sb, s'.disk, j) == OnDisk(sb, s.disk, j)
  {
  }

  lemma WriteFinished(sb: Superblock, s: Image, owner: map<nat, Pos>, mid: Image, owner': map<nat, Pos>,
                      sized: Image, s': Image, inum: nat, off: nat, src: seq<Byte>)
    requires Advanced(sb, s, owner, mid, owner', inum, off, |src|) && Overlaid(sb, s, mid, inum, off, src)
    requires off + |src| > s.inodes[inum].size && |src| > 0
    requires sized == mid.(inodes := mid.inodes[inum := mid.inodes[inum].(size := off + |src|)])
    requires Owned(sb, sized, owner') && TreesSame(sb, mid, sized) && SameContent(sb, mid, sized)
    requires InodeStored(sb, sized, owner', s', inum)
    ensures WriteDone(sb, s, owner, s', owner', inum, off, src)
  {
    hide TreesOwned, OwnersPlaced, MapMarks, OwnersOnPath, OnDisk;
    FramedKeepsDinodes(sb, s, mid, inum);
    SameTreesSameMap(sb, s, mid, sized, inum, off, |src|);
    SameTreesSameMap(sb, s, sized, s', inum, off, |src|);
    OverlaidThenSame(sb, s, mid, sized, inum, off, src);
    OverlaidThenSame(sb, s, sized, s', inum, off, src);
  }

  lemma LoggedNoData(sb: Superblock, owner: map<nat, Pos>, inum: nat, off: nat, logged: set<nat>)
    requires off <= MAXBYTES
    ensures LoggedWriting(sb, owner, owner, inum, off, 0, logged, logged)
  {
    LoggedNothing(sb, owner, logged);
  }

  /** writei's loop. */
  method WriteBlocks(fs: FileSystem, inum: nat, src: seq<Byte>, off: nat) returns (ok: bool)
    requires fs.Valid() && inum < fs.sb.ninodes && off + |src| <= MAXBYTES
    modifies fs`disk, fs`inodes, fs`owner, fs`logged
    ensures fs.Valid() && (old(OnlyLogged(fs.base, fs.disk, fs.logged)) ==> OnlyLogged(fs.base, fs.disk, fs.logged))
    ensures ok ==>
      && (|src| > 0 ==> fs.outstanding > 0)
      && Advanced(fs.sb, old(fs.Now()), old(fs.owner), fs.Now(), fs.owner, inum, off, |src|)
      && LoggedWriting(fs.sb, old(fs.owner), fs.owner, inum, off, |src|, old(fs.logged), fs.logged)
      && Overlaid(fs.sb, old(fs.Now()), fs.Now(), inum, off, src)
    ensures !ok ==> |src| > 0
    ensures !ok && fs.outstanding > 0 ==>
      Stuck(fs.sb, old(fs.Now()), old(fs.owner), fs.Now(), fs.owner, inum, off, |src|, true)
  {
    hide TreesOwned, OwnersPlaced, MapMarks, MapGrew, RootsGrew, OwnersOnPath, Framed, Stuck, OnlyLogged;
    ghost var s, owner, logged := fs.Now(), fs.owner, fs.logged;
    AdvancedByNothing(fs.sb, s, owner, inum, off);
    LoggedNoData(fs.sb, owner, inum, off, logged);
    assert Overlaid(fs.sb, s, s, inum, off, src[..0]);
    hide Advanced, LoggedWriting, Overlaid;
    var tot, n := 0, |src|;
    while tot < n
      invariant 0 <= tot <= n && fs.Valid() && (tot > 0 ==> fs.outstanding > 0)
      invariant Advanced(fs.sb, s, owner, fs.Now(), fs.owner, inum, off, tot)
      invariant LoggedWriting(fs.sb, owner, fs.owner, inum, off, tot, logged, fs.logged)
      invariant (old(OnlyLogged(fs.base, fs.disk, fs.logged)) ==> OnlyLogged(fs.base, fs.disk, fs.logged))
      invariant Overlaid(fs.sb, s, fs.Now(), inum, off, src[..tot])
    {
      var at := off + tot;
      var m := if n - tot < BSIZE - at % BSIZE then n - tot else BSIZE - at % BSIZE;
      ok := WriteNext(fs, inum, src, off, tot, at, m, s, owner, logged);
      if !ok {
        if fs.outstanding > 0 {
          StuckWithin(fs.sb, s, owner, fs.Now(), fs.owner, inum, off, tot + m, n, true);
        }
        return;
      }
      tot := tot + m;
    }
    assert src[..n] == src;
    return true;
  }

  /** Write src at off.  The result is -1 for a range that wraps or passes MAXFILE
      blocks, else the number of bytes.  None is a panic: "log_write outside of trans" if
      there is anything to write and no operation is under way, else "out of blocks", exactly
      when the range needs more blocks than are free. */
  method Writei(fs: FileSystem, inum: nat, src: seq<Byte>, off: Word) returns (r: Option<int>)
    requires fs.Valid() && inum < fs.sb.ninodes && |src| < 0x1_0000_0000
    requires fs.inodes[inum].kind % 0x1_0000 != T_DEV
    modifies fs`disk, fs`inodes, fs`owner, fs`logged
    ensures fs.Valid() && (old(OnlyLogged(fs.base, fs.disk, fs.logged)) ==> OnlyLogged(fs.base, fs.disk, fs.logged))
    ensures off + |src| > MAXBYTES ==> r == Some(-1) && unchanged(fs)
    ensures off + |src| <= MAXBYTES ==>
      && r != Some(-1)
      && (r.Some? <==> Accepts(fs.sb, old(fs.Now()), inum, off, |src|, fs.outstanding > 0))
      && (r.Some? ==>
            && r.value == |src|
            && WriteDone(fs.sb, old(fs.Now()), old(fs.owner), fs.Now(), fs.owner, inum, off, src)
            && LoggedByWrite(fs.sb, old(fs.Now()), old(fs.owner), fs.Now(), fs.owner, inum, off, |src|,
                             old(fs.logged), fs.logged))
      && (r.None? && fs.outstanding > 0 ==>
            Stuck(fs.sb, old(fs.Now()), old(fs.owner), fs.Now(), fs.owner, inum, off, |src|, true))
  {
    hide TreesOwned, OwnersPlaced, MapMarks, MapGrew, RootsGrew, OwnersOnPath, Overlaid, Stuck, TookLowest, LoggedFor,
      Empties, FreeBlocks, OnlyLogged, WriteDone, InodeStored;
    var n := |src|;
    if (off + n) % 0x1_0000_0000 < off {
      return Some(-1);
    }
    if off + n > MAXFILE * BSIZE {
      return Some(-1);
    }
    ghost var s, owner, logged := fs.Now(), fs.owner, fs.logged;
    NothingAsked(fs.sb, s, inum, off);
    var ok := WriteBlocks(fs, inum, src, off);
    if !ok {
      if fs.outstanding > 0 {
        StuckIsShort(fs.sb, s, owner, fs.Now(), fs.owner, inum, off, n);
      }
      return None;
    }
    ghost var mid := fs.Now();
    FoundEnough(fs.sb, s, owner, mid, fs.owner, inum, off, n);
    if n > 0 && off + n > fs.inodes[inum].size {
      fs.inodes := fs.inodes[inum := fs.inodes[inum].(size := off + n)];
      ResizeKeepsTrees(fs.sb, mid, fs.owner, fs.Now(), inum);
      ghost var sized := fs.Now();
      ok := Iupdate(fs, inum);
      WriteFinished(fs.sb, s, owner, mid, fs.owner, sized, fs.Now(), inum, off, src);
      Resized(fs.sb, s, owner, fs.Now(), fs.owner, inum, off, src);
    } else {
      WriteUnsized(fs.sb, s, owner, mid, fs.owner, inum, off, src);
      Resized(fs.sb, s, owner, fs.Now(), fs.owner, inum, off, src);
    }
    return Some(n);
  }

  /** writei can store n bytes at off: there are none, or an operation is under way and enough
      blocks are free. */
  ghost predicate Accepts(sb: Superblock, s: Image, inum: nat, off: nat, n: nat, inOp: bool)
    requires ValidImage(sb, s) && off + n <= MAXBYTES
  {
    n == 0 || (inOp && |Empties(sb, s, inum, off, n)| <= |FreeBlocks(sb, s.disk)|)
  }

  lemma NothingAsked(sb: Superblock, s: Image, inum: nat, off: nat)
    requires ValidImage(sb, s) && inum < sb.ninodes && off <= MAXBYTES
    ensures Empties(sb, s, inum, off, 0) == {}
  {
    AllMappedNoEmpty(sb, s, inum, off, 0);
  }

  lemma Resized(sb: Superblock, s: Image, owner: map<nat, Pos>, s': Image, owner': map<nat, Pos>,
                inum: nat, off: nat, src: seq<Byte>)
    requires WriteDone(sb, s, owner, s', owner', inum, off, src)
    ensures inum < |s.inodes| && inum < |s'.inodes|
    ensures s'.inodes[inum].size > s.inodes[inum].size <==> |src| > 0 && off + |src| > s.inodes[inum].size
  {
  }

  /** A file without holes, in step with its dinode, written at or below its end
      stays without holes and in step, though iupdate runs only when it grows. */
  lemma AppendKeepsFileDense(sb: Superblock, s: Image, owner: map<nat, Pos>, s': Image, owner': map<nat, Pos>,
                             inum: nat, off: nat, src: seq<Byte>)
    requires WriteDone(sb, s, owner, s', owner', inum, off, src)
    requires off <= s.inodes[inum].size && !Holes(s, inum) && InSync(sb, s, inum)
    ensures !Holes(s', inum) && InSync(sb, s', inum)
  {
    hide TreesOwned, OwnersPlaced, MapMarks, Overlaid, OwnersOnPath, OnDisk;
    forall bn: nat | bn < MAXFILE && bn * BSIZE < s'.inodes[inum].size ensures FlatAt(s', inum, bn) != 0 {
      assert FlatAt(s, inum, bn) != 0 || Touched(off, |src|, bn);
    }
    if s'.inodes[inum].size == s.inodes[inum].size {
      forall bn: nat | bn < MAXFILE && Touched(off, |src|, bn)
        ensures s.inodes[inum].addrs[DataPos(inum, bn).slot] != 0
      {
        assert FlatAt(s, inum, bn) != 0;
        MappedHasRoot(sb, s, inum, bn);
      }
      SyncedExactlyWhen(sb, s, owner, s', owner', inum, off, src);
    }
  }

  lemma MappedHasRoot(sb: Superblock, s: Image, inum: nat, bn: nat)
    requires ValidImage(sb, s) && inum < sb.ninodes && bn < MAXFILE && FlatAt(s, inum, bn) != 0
    ensures s.inodes[inum].addrs[DataPos(inum, bn).slot] != 0
  {
    SplitOfBlock(inum, sb.ninodes, bn);
    HungAbove(sb, s, DataPos(inum, bn));
    assert NodeAt(s, DataPos(inum, bn).Prefix(0)) != 0;
  }

  /** When a file is in step with its dinode, writei leaves it in step exactly when
      it grows the file or finds every addrs[] entry it goes through already set. */
  lemma SyncedExactlyWhen(sb: Superblock, s: Image, owner: map<nat, Pos>, s': Image, owner': map<nat, Pos>,
                          inum: nat, off: nat, src: seq<Byte>)
    requires WriteDone(sb, s, owner, s', owner', inum, off, src) && InSync(sb, s, inum)
    ensures InSync(sb, s', inum) <==>
      || NewSize(s.inodes[inum].size, off, src) > s.inodes[inum].size
      || forall bn: nat :: bn < MAXFILE && Touched(off, |src|, bn) ==> s.inodes[inum].addrs[DataPos(inum, bn).slot] != 0
  {
    hide TreesOwned, OwnersPlaced, MapMarks, Overlaid, MapGrew, OwnersOnPath, OnDisk;
    var ip, ip' := s.inodes[inum], s'.inodes[inum];
    if ip'.size == ip.size {
      if bn: nat :| bn < MAXFILE && Touched(off, |src|, bn) && ip.addrs[DataPos(inum, bn).slot] == 0 {
        assert ip'.addrs[DataPos(inum, bn).slot] != 0;
        assert ip' != ip;
      } else {
        assert ip'.addrs == ip.addrs;
      }
    }
  }

  /** What writei stored readi returns, whatever else the file held. */
  lemma ReadBack(sb: Superblock, s: Image, owner: map<nat, Pos>, s': Image, owner': map<nat, Pos>,
                 inum: nat, off: nat, src: seq<Byte>)
    requires WriteDone(sb, s, owner, s', owner', inum, off, src)
    ensures IsSlice(s', inum, off, src)
    ensures |src| > 0 ==> off + |src| <= s'.inodes[inum].size
  {
  }
}
