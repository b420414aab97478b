/** Handing out disk blocks and the growth of index trees. */
module Alloc {
  import opened Blocks
  import opened FileTree

  /** d' is d after balloc handed out block a: its free-map bit is set, the
      block is zeroed, and nothing else changed. */
  ghost predicate Allocated(sb: Superblock, d: seq<Block>, d': seq<Block>, a: nat)
    requires sb.Valid() && |d| == sb.size
  {
    && sb.DataStart() <= a < sb.size
    && |d'| == |d|
    && !InUse(sb, d, a)
    && d'[a] == ZeroBlock()
    && (forall b: nat {:trigger InUse(sb, d', b)} :: b < sb.size ==> (InUse(sb, d', b) <==> b == a || InUse(sb, d, b)))
    && (forall k: nat :: k < sb.size && k != a && k != sb.bmapstart + a / BPB ==> d'[k] == d[k])
  }

  /** balloc cannot hand out a block: none is free, or log_write refuses it, as no operation is
      under way. */
  ghost predicate Exhausted(sb: Superblock, d: seq<Block>, inOp: bool)
    requires sb.Valid() && |d| == sb.size
  {
    inOp ==> forall b: nat :: b < sb.size ==> InUse(sb, d, b)
  }

  /** d is d0 but for logged blocks. */
  ghost predicate OnlyLogged(d0: seq<Block>, d: seq<Block>, logged: set<nat>)
  {
    |d0| == |d| && forall b :: 0 <= b < |d| && b !in logged ==> d[b] == d0[b]
  }

  /** s' is s after `*entry = balloc()` for the empty entry at position p. */
  ghost predicate AllocatedAt(sb: Superblock, s: Image, d1: seq<Block>, s': Image, p: Pos, a: nat)
    requires ValidImage(sb, s)
  {
    && Allocated(sb, s.disk, d1, a)
    && p.Valid(sb.ninodes) && NodeAt(s, p) == 0
    && (if p.path == [] then s' == Image(d1, InodesWith(s.inodes, p, a))
        else
          var x := NodeAt(s, p.Parent());
          && x != 0 && x < |d1| == |s'.disk|
          && s' == Image(d1[x := s'.disk[x]], s.inodes)
          && EntrySet(d1[x], s'.disk[x], p.Last(), a))
  }

  /** The trees of s' grew out of those of s along the path to p0: blocks already
      hung stay, only empty positions on that path were filled, with fresh
      blocks, and file data is untouched (a new data block is zero). */
  ghost predicate Grown(sb: Superblock, s: Image, owner: map<nat, Pos>, s': Image, owner': map<nat, Pos>, p0: Pos)
  {
    && Owned(sb, s, owner) && Owned(sb, s', owner')
    && TreesGrewAlong(sb, s, s', p0)
    && (forall b {:trigger b in owner} :: b in owner ==> b in owner')
    && (forall b {:trigger b in owner} :: b in owner ==> owner'[b] == owner[b])
    && (forall b {:trigger b in owner} :: b in owner && owner[b].IsData() ==> s'.disk[b] == s.disk[b])
    && (forall b {:trigger b in owner'} :: b in owner' && b !in owner ==> owner'[b].Above(p0))
    && (forall b {:trigger b in owner'} :: b in owner' && b !in owner && owner'[b].IsData() ==>
      s'.disk[b] == ZeroBlock())
    && (forall i :: 0 <= i < |s.inodes| ==> s'.inodes[i].(addrs := s.inodes[i].addrs) == s.inodes[i])
    && (forall i :: 0 <= i < |s.inodes| && i != p0.inum ==> s'.inodes[i] == s.inodes[i])
    && (forall k :: 0 <= k < sb.bmapstart ==> s'.disk[k] == s.disk[k])
  }

  ghost predicate TreesGrewAlong(sb: Superblock, s: Image, s': Image, p0: Pos)
    requires ValidImage(sb, s) && ValidImage(sb, s')
  {
    forall p: Pos {:trigger p.Valid(sb.ninodes)} :: p.Valid(sb.ninodes) ==>
      NodeAt(s', p) == NodeAt(s, p) || (NodeAt(s, p) == 0 && p.Above(p0))
  }

  lemma GrownTransitive(sb: Superblock, s: Image, owner: map<nat, Pos>, s1: Image, owner1: map<nat, Pos>,
                        s2: Image, owner2: map<nat, Pos>, p0: Pos)
    requires Grown(sb, s, owner, s1, owner1, p0)
    requires Grown(sb, s1, owner1, s2, owner2, p0)
    ensures Grown(sb, s, owner, s2, owner2, p0)
  {
  }

  lemma AllocatedMarks(sb: Superblock, d: seq<Block>, owner: map<nat, Pos>, d1: seq<Block>, d': seq<Block>, p: Pos,
                       a: nat)
    requires sb.Valid() && |d| == sb.size && MapMarks(sb, d, owner) && Allocated(sb, d, d1, a)
    requires |d'| == |d1| && forall k: nat :: k < sb.DataStart() ==> d'[k] == d1[k]
    ensures MapMarks(sb, d', owner[a := p])
  {
    forall b: nat | b < sb.size ensures InUse(sb, d', b) <==> InUse(sb, d1, b) {
      assert sb.bmapstart + b / BPB < sb.DataStart();
    }
  }

  lemma AllocatedIsHung(sb: Superblock, s: Image, owner: map<nat, Pos>, d1: seq<Block>, s': Image, p: Pos, a: nat)
    requires Owned(sb, s, owner) && AllocatedAt(sb, s, d1, s', p, a)
    ensures Hung(sb, s, owner, s', p, a)
    ensures forall k: nat :: k < sb.DataStart() ==> s'.disk[k] == d1[k]
  {
    if p.path != [] {
      var x := NodeAt(s, p.Parent());
      assert p.Parent().Valid(sb.ninodes);
      assert x in owner && owner[x] == p.Parent();
      forall b | b in owner && owner[b] == p.Parent() ensures b == x {
        assert NodeAt(s, owner[b]) == b;
      }
    }
    assert a !in owner by { assert !InUse(sb, s.disk, a); }
  }

  /** Hanging a block handed out by balloc at an empty position is growth. */
  lemma AllocatingGrows(sb: Superblock, s: Image, owner: map<nat, Pos>, d1: seq<Block>, s': Image,
                        p: Pos, a: nat, p0: Pos)
    requires Owned(sb, s, owner) && AllocatedAt(sb, s, d1, s', p, a) && p.Above(p0)
    requires p0.Valid(sb.ninodes)
    ensures Grown(sb, s, owner, s', owner[a := p], p0)
    ensures NodeAt(s', p) == a && a !in owner
  {
    AllocatedIsHung(sb, s, owner, d1, s', p, a);
    AllocatedMarks(sb, s.disk, owner, d1, s'.disk, p, a);
    HangingKeepsOwned(sb, s, owner, s', p, a);
    HungIsGrowth(sb, s, owner, s', p, a, p0);
  }

  lemma HungIsGrowth(sb: Superblock, s: Image, owner: map<nat, Pos>, s': Image, p: Pos, a: nat, p0: Pos)
    requires Owned(sb, s, owner) && Owned(sb, s', owner[a := p]) && Hung(sb, s, owner, s', p, a)
    requires TreesDifferAt(sb, s, s', p, a)
    requires p.Above(p0) && p0.Valid(sb.ninodes)
    requires forall k :: 0 <= k < sb.bmapstart ==> s'.disk[k] == s.disk[k]
    ensures Grown(sb, s, owner, s', owner[a := p], p0)
  {
    HungKeepsData(sb, s, owner, s', p, a);
    HungKeepsInodes(sb, s, owner, s', p, a);
    DifferenceIsGrowth(sb, s, s', p, a, p0);
  }

  lemma DifferenceIsGrowth(sb: Superblock, s: Image, s': Image, p: Pos, a: nat, p0: Pos)
    requires ValidImage(sb, s) && ValidImage(sb, s') && TreesDifferAt(sb, s, s', p, a)
    requires p.Valid(sb.ninodes) && NodeAt(s, p) == 0 && p.Above(p0)
    ensures TreesGrewAlong(sb, s, s', p0)
  {
  }

  lemma HungKeepsInodes(sb: Superblock, s: Image, owner: map<nat, Pos>, s': Image, p: Pos, a: nat)
    requires ValidImage(sb, s) && Hung(sb, s, owner, s', p, a)
    ensures forall i :: 0 <= i < |s.inodes| ==> s'.inodes[i].(addrs := s.inodes[i].addrs) == s.inodes[i]
    ensures forall i :: 0 <= i < |s.inodes| && i != p.inum ==> s'.inodes[i] == s.inodes[i]
  {
  }

  lemma HungKeepsData(sb: Superblock, s: Image, owner: map<nat, Pos>, s': Image, p: Pos, a: nat)
    requires ValidImage(sb, s) && Hung(sb, s, owner, s', p, a)
    ensures forall b {:trigger b in owner} :: b in owner && owner[b].IsData() ==> s'.disk[b] == s.disk[b]
  {
    assert p.path != [] ==> !p.Parent().IsData();
  }

  /** The free-map block that holds the bit of block a. */
  function MapBlock(sb: Superblock, a: nat): nat { sb.bmapstart + a / BPB }

  ghost function MapBlocksOf(sb: Superblock, a: set<nat>): set<nat> { set x | x in a :: MapBlock(sb, x) }

  /** Block b was handed to log_write for block a, allocated since owner0: it is a itself,
      zeroed, the free-map block of a, or the table that got the entry for a. */
  ghost predicate LoggedWith(sb: Superblock, owner0: map<nat, Pos>, owner: map<nat, Pos>, b: nat, a: nat)
  {
    && a in owner && a !in owner0
    && (b == a || b == MapBlock(sb, a) || (owner[a].path != [] && b in owner && owner[b] == owner[a].Parent()))
  }

  ghost predicate LoggedFor(sb: Superblock, owner0: map<nat, Pos>, owner: map<nat, Pos>, b: nat)
  {
    exists a :: LoggedWith(sb, owner0, owner, b, a)
  }

  /** Every data block below c that was free then is allocated. */
  ghost predicate FilledBelow(sb: Superblock, owner0: map<nat, Pos>, owner: map<nat, Pos>, c: nat)
  {
    forall b: nat {:trigger b in owner} :: sb.DataStart() <= b < c && b !in owner0 ==> b in owner
  }

  /** The blocks allocated since owner0 were the lowest free ones. */
  ghost predicate TookLowest(sb: Superblock, owner0: map<nat, Pos>, owner: map<nat, Pos>)
  {
    forall c: nat {:trigger FilledBelow(sb, owner0, owner, c)} :: c in owner && c !in owner0 ==>
      FilledBelow(sb, owner0, owner, c)
  }

  /** The allocations since owner0 took the lowest free blocks, and log_write got for
      them exactly what it had to. */
  ghost predicate LoggedAlong(sb: Superblock, owner0: map<nat, Pos>, owner: map<nat, Pos>, before: set<nat>,
      after: set<nat>)
  {
    && TookLowest(sb, owner0, owner)
    && forall b {:trigger b in after} :: b in after <==> b in before || LoggedFor(sb, owner0, owner, b)
  }

  lemma LoggedNothing(sb: Superblock, owner: map<nat, Pos>, before: set<nat>)
    ensures LoggedAlong(sb, owner, owner, before, before)
  {
  }

  lemma LowestCompose(sb: Superblock, owner0: map<nat, Pos>, owner1: map<nat, Pos>, owner2: map<nat, Pos>)
    requires TookLowest(sb, owner0, owner1) && TookLowest(sb, owner1, owner2)
    requires forall b {:trigger b in owner0} :: b in owner0 ==> b in owner1 && owner1[b] == owner0[b]
    requires forall b {:trigger b in owner1} :: b in owner1 ==> b in owner2 && owner2[b] == owner1[b]
    ensures TookLowest(sb, owner0, owner2)
  {
    forall c: nat | c in owner2 && c !in owner0 ensures FilledBelow(sb, owner0, owner2, c) {
      assert c in owner1 ==> FilledBelow(sb, owner0, owner1, c);
      assert c !in owner1 ==> FilledBelow(sb, owner1, owner2, c);
      forall b: nat | sb.DataStart() <= b < c && b !in owner0 ensures b in owner2 {
        assert b in owner1 || b !in owner1;
      }
    }
  }

  /** The table with the entry for a block is itself in place. */
  lemma ParentOwned(sb: Superblock, s: Image, owner: map<nat, Pos>, a: nat) returns (x: nat)
    requires Owned(sb, s, owner) && a in owner && owner[a].path != []
    ensures x in owner && owner[x] == owner[a].Parent()
  {
    var p := owner[a];
    assert NodeAt(s, p) == a && p.Valid(sb.ninodes);
    assert p.Parent().Valid(sb.ninodes);
    x := NodeAt(s, p.Parent());
  }

  /** A position has one block. */
  lemma OneAtPosition(sb: Superblock, s: Image, owner: map<nat, Pos>, a: nat, b: nat)
    requires Owned(sb, s, owner) && a in owner && b in owner && owner[a] == owner[b]
    ensures a == b
  {
    assert NodeAt(s, owner[a]) == a && NodeAt(s, owner[b]) == b;
  }

  lemma LoggedForCompose(sb: Superblock, owner0: map<nat, Pos>, s1: Image, owner1: map<nat, Pos>, s2: Image,
      owner2: map<nat, Pos>, b: nat)
    requires Owned(sb, s1, owner1) && Owned(sb, s2, owner2)
    requires forall b {:trigger b in owner0} :: b in owner0 ==> b in owner1 && owner1[b] == owner0[b]
    requires forall b {:trigger b in owner1} :: b in owner1 ==> b in owner2 && owner2[b] == owner1[b]
    ensures LoggedFor(sb, owner0, owner2, b) <==> LoggedFor(sb, owner0, owner1, b) || LoggedFor(sb, owner1, owner2, b)
  {
    hide Owned;
    if a :| LoggedWith(sb, owner0, owner1, b, a) {
      assert LoggedWith(sb, owner0, owner2, b, a);
    }
    if a :| LoggedWith(sb, owner1, owner2, b, a) {
      assert LoggedWith(sb, owner0, owner2, b, a);
    }
    if a :| LoggedWith(sb, owner0, owner2, b, a) {
      if a in owner1 {
        if b in owner2 && owner1[a].path != [] && owner2[b] == owner1[a].Parent() {
          var x := ParentOwned(sb, s1, owner1, a);
          OneAtPosition(sb, s2, owner2, b, x);
        }
        assert LoggedWith(sb, owner0, owner1, b, a);
      } else {
        assert LoggedWith(sb, owner1, owner2, b, a);
      }
    }
  }

  lemma LoggedCompose(sb: Superblock, owner0: map<nat, Pos>, s1: Image, owner1: map<nat, Pos>, s2: Image,
      owner2: map<nat, Pos>, l0: set<nat>, l1: set<nat>, l2: set<nat>)
    requires LoggedAlong(sb, owner0, owner1, l0, l1) && LoggedAlong(sb, owner1, owner2, l1, l2)
    requires Owned(sb, s1, owner1) && Owned(sb, s2, owner2)
    requires forall b {:trigger b in owner0} :: b in owner0 ==> b in owner1 && owner1[b] == owner0[b]
    requires forall b {:trigger b in owner1} :: b in owner1 ==> b in owner2 && owner2[b] == owner1[b]
    ensures LoggedAlong(sb, owner0, owner2, l0, l2)
  {
    hide Owned, LoggedFor, TookLowest;
    LowestCompose(sb, owner0, owner1, owner2);
    forall b ensures b in l2 <==> b in l0 || LoggedFor(sb, owner0, owner2, b) {
      LoggedForCompose(sb, owner0, s1, owner1, s2, owner2, b);
      assert b in l1 <==> b in l0 || LoggedFor(sb, owner0, owner1, b);
    }
  }

  lemma GrownReflexive(sb: Superblock, s: Image, owner: map<nat, Pos>, p0: Pos)
    requires Owned(sb, s, owner)
    ensures Grown(sb, s, owner, s, owner, p0)
  {
  }

  /** What ChildBlock has done once it has allocated the entry at position p. */
  lemma EntryAllocated(sb: Superblock, s: Image, owner: map<nat, Pos>, d1: seq<Block>, addr: nat, a: nat,
                       s': Image, p: Pos, p0: Pos)
    requires Owned(sb, s, owner) && Allocated(sb, s.disk, d1, a)
    requires p0.Valid(sb.ninodes) && p.Valid(sb.ninodes) && p.Above(p0) && p.path != []
    requires NodeAt(s, p.Parent()) == addr && 0 < addr < |d1| && NodeAt(s, p) == 0
    requires s'.inodes == s.inodes && |s'.disk| == |d1| && s'.disk == d1[addr := s'.disk[addr]]
    requires EntrySet(d1[addr], s'.disk[addr], p.Last(), a)
    ensures Grown(sb, s, owner, s', owner[a := p], p0) && NodeAt(s', p) == a
    ensures addr in owner && owner[addr].Above(p0) && a !in owner
  {
    assert p.Parent().Valid(sb.ninodes);
    assert owner[addr] == p.Parent();
    AllocatingGrows(sb, s, owner, d1, s', p, a, p0);
  }

  /** balloc took the lowest free block a, and it, its map block and the table with its
      entry were logged. */
  lemma LoggedThese(sb: Superblock, s: Image, owner: map<nat, Pos>, p: Pos, before: set<nat>, a: nat, table: set<nat>)
    requires Owned(sb, s, owner) && p.Valid(sb.ninodes) && a !in owner && sb.DataStart() <= a < sb.size
    requires forall b: nat :: b < a ==> InUse(sb, s.disk, b)
    requires if p.path == [] then table == {} else table == {NodeAt(s, p.Parent())} && NodeAt(s, p.Parent()) != 0
    ensures LoggedAlong(sb, owner, owner[a := p], before, before + {MapBlock(sb, a), a} + table)
  {
    var owner', after := owner[a := p], before + {MapBlock(sb, a), a} + table;
    forall b: nat | sb.DataStart() <= b < a ensures b in owner {
      assert InUse(sb, s.disk, b);
    }
    assert FilledBelow(sb, owner, owner', a);
    if p.path != [] {
      assert p.Parent().Valid(sb.ninodes);
      assert owner[NodeAt(s, p.Parent())] == p.Parent();
    }
    hide MapMarks, TreesOwned;
    forall b ensures b in after <==> b in before || LoggedFor(sb, owner, owner', b) {
      if b in {MapBlock(sb, a), a} + table {
        assert LoggedWith(sb, owner, owner', b, a);
      }
      if x :| LoggedWith(sb, owner, owner', b, x) {
        assert x == a;
        if p.path != [] && b in owner' && owner'[b] == p.Parent() {
          assert |p.Parent().path| < |p.path|;
          assert NodeAt(s, owner[b]) == b;
        }
      }
    }
  }
}
