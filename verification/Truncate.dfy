/** bfree and itrunc of fs.c: tearing an index tree down. */
module Truncate {
  import opened Blocks
  import opened FileTree
  import opened Alloc
  import opened Content
  import opened Demand
  import opened Dinode
  import opened Fs
  import opened ReadWrite

  /** Clear the free-map bit of block b; false is the panic "freeing free block", or that of
      log_write. */
  method Bfree(fs: FileSystem, b: nat) returns (ok: bool)
    requires fs.sb.Valid() && |fs.disk| == fs.sb.size && b < fs.sb.size
    modifies fs`disk, fs`logged
    ensures ok <==> InUse(fs.sb, old(fs.disk), b) && fs.outstanding > 0
    ensures !ok ==> unchanged(fs)
    ensures ok ==> Freed(fs.sb, old(fs.disk), fs.disk, b) && fs.logged == old(fs.logged) + {MapBlock(fs.sb, b)}
  {
    var bb := fs.sb.bmapstart + b / BPB;
    var data := fs.disk[bb];
    if !BitAt(data, b % BPB) {
      return false;
    }
    ok := fs.LogWrite(bb, ClearBit(data, b % BPB));
    if !ok {
      return false;
    }
    forall c: nat | c < fs.sb.size ensures InUse(fs.sb, fs.disk, c) <==> c != b && InUse(fs.sb, old(fs.disk), c) {
      if c / BPB == b / BPB {
        assert c == b <==> c % BPB == b % BPB;
      }
    }
    return true;
  }

  /** d' is d with the free-map bit of b cleared and nothing else changed. */
  ghost predicate Freed(sb: Superblock, d: seq<Block>, d': seq<Block>, b: nat)
    requires sb.Valid() && |d| == sb.size
  {
    && |d'| == |d|
    && (forall c: nat {:trigger InUse(sb, d', c)} :: c < sb.size ==> (InUse(sb, d', c) <==> c != b && InUse(sb, d, c)))
    && (forall k :: 0 <= k < sb.size && !(sb.bmapstart <= k < sb.DataStart()) ==> d'[k] == d[k])
  }

  /** itrunc began in image s with the blocks of `owner0`; those of `owner` are not
      freed yet, and only the free map has changed on disk. */
  ghost predicate Freeing(sb: Superblock, s: Image, owner0: map<nat, Pos>, d: seq<Block>, owner: map<nat, Pos>)
  {
    && Owned(sb, s, owner0) && |d| == sb.size
    && (forall k :: 0 <= k < sb.size && !(sb.bmapstart <= k < sb.DataStart()) ==> d[k] == s.disk[k])
    && (forall b {:trigger b in owner} :: b in owner ==> b in owner0 && owner[b] == owner0[b])
    && MapMarks(sb, d, owner)
  }

  /** What log_write got for the blocks freed so far: their free-map blocks. */
  ghost predicate FreesLogged(sb: Superblock, owner0: map<nat, Pos>, owner: map<nat, Pos>, before: set<nat>,
                              after: set<nat>)
  {
    after == before + MapBlocksOf(sb, Fresh(owner, owner0))
  }

  lemma FreesOneMore(sb: Superblock, owner0: map<nat, Pos>, owner: map<nat, Pos>, a: nat, before: set<nat>,
                     after: set<nat>)
    requires FreesLogged(sb, owner0, owner, before, after) && a in owner && a in owner0
    ensures FreesLogged(sb, owner0, owner - {a}, before, after + {MapBlock(sb, a)})
  {
    assert Fresh(owner - {a}, owner0) == Fresh(owner, owner0) + {a};
  }

  /** owner' is owner without the blocks at or below p. */
  ghost predicate Pruned(owner0: map<nat, Pos>, owner: map<nat, Pos>, owner': map<nat, Pos>, p: Pos)
    requires forall b {:trigger b in owner} :: b in owner ==> b in owner0
  {
    forall b {:trigger b in owner'} {:trigger b in owner} :: b in owner' <==> b in owner && !p.Above(owner0[b])
  }

  /** q lies below p, through an entry of the table at p before entry i. */
  predicate Before(p: Pos, i: nat, q: Pos) { p.Above(q) && |q.path| > |p.path| && q.path[|p.path|] < i }

  /** Free one block that is still owned. */
  method FreeOne(fs: FileSystem, addr: nat, ghost p: Pos, ghost s: Image,
                 ghost owner0: map<nat, Pos>, ghost logged0: set<nat>) returns (ok: bool)
    requires Freeing(fs.sb, s, owner0, fs.disk, fs.owner)
    requires FreesLogged(fs.sb, owner0, fs.owner, logged0, fs.logged)
    requires addr in fs.owner && owner0[addr] == p
    modifies fs`disk, fs`owner, fs`logged
    ensures ok <==> fs.outstanding > 0
    ensures ok ==> Freeing(fs.sb, s, owner0, fs.disk, fs.owner) && fs.owner == old(fs.owner) - {addr}
    ensures ok ==> FreesLogged(fs.sb, owner0, fs.owner, logged0, fs.logged)
  {
    hide TreesOwned, FreesLogged;
    assert owner0[addr].Valid(fs.sb.ninodes) && InUse(fs.sb, fs.disk, addr);
    FreesOneMore(fs.sb, owner0, fs.owner, addr, logged0, fs.logged);
    ok := Bfree(fs, addr);
    if ok {
      fs.owner := fs.owner - {addr};
    }
  }

  /** The nested loops of itrunc: free every block below table addr, then addr itself.
      fs.c writes the loops out for one, two and three levels. */
  method FreeTree(fs: FileSystem, addr: nat, level: nat, ghost p: Pos, ghost s: Image, ghost owner0: map<nat, Pos>,
                  ghost logged0: set<nat>)
    returns (ok: bool)
    requires Freeing(fs.sb, s, owner0, fs.disk, fs.owner)
    requires FreesLogged(fs.sb, owner0, fs.owner, logged0, fs.logged)
    requires p.Valid(fs.sb.ninodes) && level == Depth(p.slot) - |p.path|
    requires NodeAt(s, p) == addr != 0
    requires forall b {:trigger b in owner0} :: b in owner0 && p.Above(owner0[b]) ==> b in fs.owner
    modifies fs`disk, fs`owner, fs`logged
    ensures ok <==> fs.outstanding > 0
    ensures ok ==> Freeing(fs.sb, s, owner0, fs.disk, fs.owner)
    ensures ok ==> Pruned(owner0, old(fs.owner), fs.owner, p)
    ensures ok ==> FreesLogged(fs.sb, owner0, fs.owner, logged0, fs.logged)
    decreases level
  {
    hide MapMarks, TreesOwned, OwnersPlaced, NodeAt, FreesLogged;
    OwnerOf(fs.sb, s, owner0, p);
    ok := true;
    if level > 0 {
      var i := 0;
      while i < NINDIRECT
        invariant 0 <= i <= NINDIRECT
        invariant Freeing(fs.sb, s, owner0, fs.disk, fs.owner)
        invariant FreesLogged(fs.sb, owner0, fs.owner, logged0, fs.logged)
        invariant forall b {:trigger b in fs.owner} {:trigger b in old(fs.owner)} ::
          b in fs.owner <==> b in old(fs.owner) && !Before(p, i, owner0[b])
      {
        var a := WordAt(fs.disk[addr], i);
        ChildNode(fs.sb, s, owner0, fs.disk, fs.owner, p, addr, i);
        if a != 0 {
          ok := FreeTree(fs, a, level - 1, p.Child(i), s, owner0, logged0);
          if !ok {
            return;
          }
        }
        BeforeNext(fs.sb, s, owner0, p, i);
        i := i + 1;
      }
    }
    ok := FreeOne(fs, addr, p, s, owner0, logged0);
    TableCleared(fs.sb, s, owner0, p, addr, level);
  }

  lemma ChildNode(sb: Superblock, s: Image, owner0: map<nat, Pos>, d: seq<Block>, owner: map<nat, Pos>,
                  p: Pos, addr: nat, i: nat)
    requires Freeing(sb, s, owner0, d, owner) && p.Valid(sb.ninodes) && |p.path| < Depth(p.slot) && i < NINDIRECT
    requires NodeAt(s, p) == addr != 0
    ensures p.Child(i).Valid(sb.ninodes) && addr < |d| && WordAt(d[addr], i) == NodeAt(s, p.Child(i))
  {
    OwnerOf(sb, s, owner0, p);
    assert p.Child(i).Parent() == p;
  }

  /** Entry i adds the blocks at or below child i, none if the entry is empty. */
  lemma BeforeNext(sb: Superblock, s: Image, owner0: map<nat, Pos>, p: Pos, i: nat)
    requires Owned(sb, s, owner0) && p.Valid(sb.ninodes) && |p.path| < Depth(p.slot) && i < NINDIRECT
    ensures forall b {:trigger b in owner0} :: b in owner0 ==>
      (Before(p, i + 1, owner0[b]) <==> Before(p, i, owner0[b]) || p.Child(i).Above(owner0[b]))
    ensures NodeAt(s, p.Child(i)) == 0 ==> forall b {:trigger b in owner0} :: b in owner0 ==>
      !p.Child(i).Above(owner0[b])
  {
    assert p.Child(i).Valid(sb.ninodes);
    forall b | b in owner0
      ensures Before(p, i + 1, owner0[b]) <==> Before(p, i, owner0[b]) || p.Child(i).Above(owner0[b])
      ensures NodeAt(s, p.Child(i)) == 0 ==> !p.Child(i).Above(owner0[b])
    {
      var q := owner0[b];
      assert p.Above(q) && |q.path| > |p.path| && q.path[|p.path|] == i ==> q.path[..|p.path| + 1] == p.path + [i];
      if NodeAt(s, p.Child(i)) == 0 && p.Child(i).Above(q) {
        EmptyBelow(sb, s, p.Child(i), q);
      }
    }
  }

  /** Before the end of the table is everything below p; what remains is the block at p. */
  lemma TableCleared(sb: Superblock, s: Image, owner0: map<nat, Pos>, p: Pos, addr: nat, level: nat)
    requires Owned(sb, s, owner0) && p.Valid(sb.ninodes) && level == Depth(p.slot) - |p.path|
    requires NodeAt(s, p) == addr != 0
    ensures forall b {:trigger b in owner0} :: b in owner0 ==>
      (p.Above(owner0[b]) <==> b == addr || (level > 0 && Before(p, NINDIRECT, owner0[b])))
  {
    forall b | b in owner0
      ensures p.Above(owner0[b]) <==> b == addr || (level > 0 && Before(p, NINDIRECT, owner0[b]))
    {
      var q := owner0[b];
      if p.Above(q) && |q.path| == |p.path| {
        assert q == p;
      }
    }
  }

  /** addrs[] with its first k entries set to 0. */
  function Zeroed(addrs: seq<Word>, k: nat): (r: seq<Word>)
    requires k <= |addrs|
    ensures |r| == |addrs| && forall i :: 0 <= i < |addrs| ==> r[i] == if i < k then 0 else addrs[i]
  {
    if k == 0 then addrs else Zeroed(addrs, k - 1)[k - 1 := 0]
  }

  /** itrunc of inum has dealt with the entries of addrs[] below k. */
  ghost predicate SlotsFreed(sb: Superblock, s: Image, owner0: map<nat, Pos>, d: seq<Block>, inodes: seq<Inode>,
                             owner: map<nat, Pos>, inum: nat, k: nat)
  {
    && Freeing(sb, s, owner0, d, owner) && inum < sb.ninodes && k <= 13
    && (forall b {:trigger b in owner} {:trigger b in owner0} ::
          b in owner <==> b in owner0 && !(owner0[b].inum == inum && owner0[b].slot < k))
    && inodes == s.inodes[inum := s.inodes[inum].(addrs := Zeroed(s.inodes[inum].addrs, k))]
  }

  /** Free what entry k of addrs[] leads to, and clear the entry. */
  method FreeSlot(fs: FileSystem, inum: nat, k: nat, ghost s: Image, ghost owner0: map<nat, Pos>,
                  ghost logged0: set<nat>) returns (ok: bool)
    requires k < 13 && SlotsFreed(fs.sb, s, owner0, fs.disk, fs.inodes, fs.owner, inum, k)
    requires FreesLogged(fs.sb, owner0, fs.owner, logged0, fs.logged)
    modifies fs`disk, fs`inodes, fs`owner, fs`logged
    ensures fs.outstanding > 0 ==> ok
    ensures ok ==> SlotsFreed(fs.sb, s, owner0, fs.disk, fs.inodes, fs.owner, inum, k + 1)
    ensures ok ==> FreesLogged(fs.sb, owner0, fs.owner, logged0, fs.logged)
  {
    hide MapMarks, TreesOwned, OwnersPlaced, FreesLogged;
    ghost var p := Pos(inum, k, []);
    ok := true;
    SlotOwners(fs.sb, s, owner0, p);
    var addr := fs.inodes[inum].addrs[k];
    if addr != 0 {
      ok := FreeTree(fs, addr, Depth(k), p, s, owner0, logged0);
      if !ok {
        return;
      }
      fs.inodes := fs.inodes[inum := fs.inodes[inum].(addrs := fs.inodes[inum].addrs[k := 0])];
    } else {
      assert Zeroed(s.inodes[inum].addrs, k + 1) == Zeroed(s.inodes[inum].addrs, k);
    }
  }

  lemma SlotOwners(sb: Superblock, s: Image, owner0: map<nat, Pos>, p: Pos)
    requires Owned(sb, s, owner0) && p.Valid(sb.ninodes) && p.path == []
    ensures forall b {:trigger b in owner0} :: b in owner0 ==>
      (p.Above(owner0[b]) <==> owner0[b].inum == p.inum && owner0[b].slot == p.slot)
    ensures NodeAt(s, p) == 0 ==> forall b {:trigger b in owner0} :: b in owner0 ==> !p.Above(owner0[b])
  {
    forall b | b in owner0 && NodeAt(s, p) == 0 ensures !p.Above(owner0[b]) {
      if p.Above(owner0[b]) {
        EmptyBelow(sb, s, p, owner0[b]);
      }
    }
  }

  /** Free what the entries of addrs[] lead to, one after the other. */
  method FreeSlots(fs: FileSystem, inum: nat) returns (ok: bool)
    requires fs.Valid() && inum < fs.sb.ninodes
    modifies fs`disk, fs`inodes, fs`owner, fs`logged
    ensures fs.outstanding > 0 ==> ok
    ensures ok ==>
      && SlotsFreed(fs.sb, old(fs.Now()), old(fs.owner), fs.disk, fs.inodes, fs.owner, inum, 13)
      && FreesLogged(fs.sb, old(fs.owner), fs.owner, old(fs.logged), fs.logged)
  {
    hide MapMarks, TreesOwned, OwnersPlaced;
    ghost var s, owner0, logged0 := fs.Now(), fs.owner, fs.logged;
    assert fs.inodes == fs.inodes[inum := fs.inodes[inum].(addrs := Zeroed(fs.inodes[inum].addrs, 0))];
    assert Fresh(owner0, owner0) == {};
    assert SlotsFreed(fs.sb, s, owner0, fs.disk, fs.inodes, fs.owner, inum, 0);
    assert FreesLogged(fs.sb, owner0, fs.owner, logged0, fs.logged);
    hide SlotsFreed, FreesLogged;
    var i := 0;
    while i < NDIRECT
      invariant 0 <= i <= NDIRECT
      invariant SlotsFreed(fs.sb, s, owner0, fs.disk, fs.inodes, fs.owner, inum, i)
      invariant FreesLogged(fs.sb, owner0, fs.owner, logged0, fs.logged)
    {
      ok := FreeSlot(fs, inum, i, s, owner0, logged0);
      if !ok {
        return;
      }
      i := i + 1;
    }
    ok := FreeSlot(fs, inum, NDIRECT, s, owner0, logged0);
    if !ok {
      return;
    }
    ok := FreeSlot(fs, inum, NDIRECT + 1, s, owner0, logged0);
    if !ok {
      return;
    }
    ok := FreeSlot(fs, inum, NDIRECT + 2, s, owner0, logged0);
  }

  /** The blocks of a file, data and tables. */
  ghost function FileBlocks(owner: map<nat, Pos>, inum: nat): set<nat> {
    set b | b in owner && owner[b].inum == inum
  }

  /** Discard the contents of a file.  No block is freed twice, so that false is the panic
      "log_write outside of trans" alone; exactly the data and index blocks of this file become
      free, and exactly their free-map blocks and the inode's block are logged. */
  method Itrunc(fs: FileSystem, inum: nat) returns (ok: bool)
    requires fs.Valid() && inum < fs.sb.ninodes
    modifies fs`disk, fs`inodes, fs`owner, fs`logged
    ensures ok <==> fs.outstanding > 0
    ensures ok ==>
      && fs.Valid()
      && Truncated(fs.sb, old(fs.Now()), old(fs.owner), fs.Now(), fs.owner, inum)
      && fs.logged == old(fs.logged) + MapBlocksOf(fs.sb, FileBlocks(old(fs.owner), inum))
                      + {fs.sb.inodestart + inum / 8}
  {
    hide MapMarks, TreesOwned, OwnersPlaced, OnDisk, MapBlocksOf;
    ghost var s, owner0 := fs.Now(), fs.owner;
    ok := FreeSlots(fs, inum);
    if !ok {
      return;
    }
    ghost var unsized := fs.inodes;
    fs.inodes := fs.inodes[inum := fs.inodes[inum].(size := 0)];
    AllFreed(fs.sb, s, owner0, unsized, fs.Now(), fs.owner, inum);
    assert Fresh(fs.owner, owner0) == FileBlocks(owner0, inum);
    ghost var emptied := fs.Now();
    ok := Iupdate(fs, inum);
    if ok {
      OwnersAreData(fs.sb, fs.Now(), fs.owner);
      UpdateAfterFreeing(fs.sb, s, owner0, emptied, fs.Now(), fs.owner, inum);
    }
  }

  /** File inum is empty, on disk too; its blocks and no others are free; other files and their
      dinodes are untouched. */
  ghost predicate Truncated(sb: Superblock, s: Image, owner0: map<nat, Pos>, s': Image, owner: map<nat, Pos>, inum: nat)
  {
    && Emptied(sb, s, owner0, s', owner, inum)
    && InSync(sb, s', inum)
    && (forall j: nat {:trigger OnDisk(sb, s'.disk, j)} :: j < sb.ninodes && j != inum ==>
          OnDisk(sb, s'.disk, j) == OnDisk(sb, s.disk, j))
    && (forall b: nat {:trigger InUse(sb, s'.disk, b)} :: b < sb.size ==>
          (InUse(sb, s'.disk, b) <==> InUse(sb, s.disk, b) && !(b in owner0 && owner0[b].inum == inum)))
    && (forall j: nat, i: nat {:trigger ByteAt(s', j, i)} :: j < sb.ninodes && i < MAXBYTES ==>
          ByteAt(s', j, i) == if j == inum then 0 else ByteAt(s, j, i))
  }

  ghost predicate Emptied(sb: Superblock, s: Image, owner0: map<nat, Pos>, s': Image, owner: map<nat, Pos>, inum: nat)
  {
    && Owned(sb, s, owner0) && Owned(sb, s', owner) && inum < sb.ninodes
    && owner == (map b | b in owner0 && owner0[b].inum != inum :: owner0[b])
    && s'.inodes == s.inodes[inum := s.inodes[inum].(size := 0, addrs := Zeroed(s.inodes[inum].addrs, 13))]
    && (forall b {:trigger b in owner} :: b in owner ==> s'.disk[b] == s.disk[b])
    && (forall p: Pos {:trigger p.Valid(sb.ninodes)} :: p.Valid(sb.ninodes) ==>
          NodeAt(s', p) == if p.inum == inum then 0 else NodeAt(s, p))
  }

  lemma {:induction false} EmptiedNode(sb: Superblock, s: Image, owner0: map<nat, Pos>, s': Image, inum: nat, p: Pos)
    requires ValidImage(sb, s) && ValidImage(sb, s') && TreesOwned(sb, s, owner0) && inum < sb.ninodes
    requires s'.inodes == s.inodes[inum := s.inodes[inum].(size := 0, addrs := Zeroed(s.inodes[inum].addrs, 13))]
    requires forall b {:trigger b in owner0} :: b in owner0 ==> b < sb.size && s'.disk[b] == s.disk[b]
    requires p.Valid(sb.ninodes)
    ensures NodeAt(s', p) == if p.inum == inum then 0 else NodeAt(s, p)
  {
    if p.inum == inum {
      EmptyBelow(sb, s', Pos(inum, p.slot, []), p);
    } else {
      NodeAtDependsOnTables(sb, s, s', owner0, p);
    }
  }

  lemma EmptiedNodes(sb: Superblock, s: Image, owner0: map<nat, Pos>, s': Image, inum: nat)
    requires ValidImage(sb, s) && ValidImage(sb, s') && TreesOwned(sb, s, owner0) && inum < sb.ninodes
    requires s'.inodes == s.inodes[inum := s.inodes[inum].(size := 0, addrs := Zeroed(s.inodes[inum].addrs, 13))]
    requires forall b {:trigger b in owner0} :: b in owner0 ==> b < sb.size && s'.disk[b] == s.disk[b]
    ensures forall p: Pos {:trigger p.Valid(sb.ninodes)} :: p.Valid(sb.ninodes) ==>
      NodeAt(s', p) == if p.inum == inum then 0 else NodeAt(s, p)
  {
    hide TreesOwned, NodeAt;
    forall p: Pos | p.Valid(sb.ninodes) ensures NodeAt(s', p) == if p.inum == inum then 0 else NodeAt(s, p) {
      EmptiedNode(sb, s, owner0, s', inum, p);
    }
  }

  lemma OwnedEmptied(sb: Superblock, s: Image, owner0: map<nat, Pos>, s': Image, owner: map<nat, Pos>, inum: nat)
    requires Owned(sb, s, owner0) && ValidImage(sb, s') && MapMarks(sb, s'.disk, owner)
    requires forall p: Pos {:trigger p.Valid(sb.ninodes)} :: p.Valid(sb.ninodes) ==>
      NodeAt(s', p) == if p.inum == inum then 0 else NodeAt(s, p)
    requires forall b {:trigger b in owner} :: b in owner <==> b in owner0 && owner0[b].inum != inum
    requires forall b {:trigger owner[b]} :: b in owner ==> owner[b] == owner0[b]
    ensures Owned(sb, s', owner)
  {
    hide MapMarks, NodeAt;
  }

  lemma AllFreed(sb: Superblock, s: Image, owner0: map<nat, Pos>, inodes: seq<Inode>, s': Image, owner: map<nat, Pos>,
                 inum: nat)
    requires SlotsFreed(sb, s, owner0, s'.disk, inodes, owner, inum, 13)
    requires s'.inodes == inodes[inum := inodes[inum].(size := 0)]
    ensures Emptied(sb, s, owner0, s', owner, inum)
  {
    hide MapMarks, TreesOwned, OwnersPlaced, NodeAt;
    assert s'.inodes == s.inodes[inum := s.inodes[inum].(size := 0, addrs := Zeroed(s.inodes[inum].addrs, 13))];
    OwnersAreData(sb, s, owner0);
    forall b | b in owner0 ensures s'.disk[b] == s.disk[b] {
    }
    EmptiedNodes(sb, s, owner0, s', inum);
    OwnedEmptied(sb, s, owner0, s', owner, inum);
    assert owner == map b | b in owner0 && owner0[b].inum != inum :: owner0[b];
  }

  lemma OwnersAreData(sb: Superblock, s: Image, owner: map<nat, Pos>)
    requires Owned(sb, s, owner)
    ensures forall b {:trigger b in owner} :: b in owner ==> sb.DataStart() <= b < sb.size && owner[b].slot < 13
  {
  }

  lemma SameMetadataSameDinodes(sb: Superblock, s: Image, s': Image)
    requires ValidImage(sb, s) && ValidImage(sb, s') && forall k :: 0 <= k < sb.bmapstart ==> s'.disk[k] == s.disk[k]
    ensures forall j: nat {:trigger OnDisk(sb, s'.disk, j)} :: j < sb.ninodes ==>
      OnDisk(sb, s'.disk, j) == OnDisk(sb, s.disk, j)
  {
  }

  lemma UpdateAfterFreeing(sb: Superblock, s: Image, owner0: map<nat, Pos>, s1: Image, s2: Image, owner: map<nat, Pos>,
                           inum: nat)
    requires Emptied(sb, s, owner0, s1, owner, inum) && InodeStored(sb, s1, owner, s2, inum)
    requires forall b {:trigger b in owner} :: b in owner ==> s2.disk[b] == s1.disk[b]
    requires forall k :: 0 <= k < sb.bmapstart ==> s1.disk[k] == s.disk[k]
    ensures Truncated(sb, s, owner0, s2, owner, inum)
  {
    hide OnDisk, MapMarks;
    SameMetadataSameDinodes(sb, s, s1);
    assert Emptied(sb, s, owner0, s2, owner, inum);
    TruncatedMarks(sb, s, owner0, s2, owner, inum);
    forall j: nat, i: nat | j < sb.ninodes && i < MAXBYTES
      ensures ByteAt(s2, j, i) == if j == inum then 0 else ByteAt(s, j, i)
    {
      TruncatedByte(sb, s, owner0, s2, owner, inum, j, i);
    }
  }

  lemma TruncatedMarks(sb: Superblock, s: Image, owner0: map<nat, Pos>, s': Image, owner: map<nat, Pos>, inum: nat)
    requires Emptied(sb, s, owner0, s', owner, inum)
    ensures forall b: nat {:trigger InUse(sb, s'.disk, b)} :: b < sb.size ==>
      (InUse(sb, s'.disk, b) <==> InUse(sb, s.disk, b) && !(b in owner0 && owner0[b].inum == inum))
  {
    hide InUse;
    forall b: nat | b < sb.size
      ensures InUse(sb, s'.disk, b) <==> InUse(sb, s.disk, b) && !(b in owner0 && owner0[b].inum == inum)
    {
      assert b in owner0 ==> sb.DataStart() <= b;
      assert InUse(sb, s.disk, b) <==> b < sb.DataStart() || b in owner0;
    }
  }

  lemma TruncatedByte(sb: Superblock, s: Image, owner0: map<nat, Pos>, s': Image, owner: map<nat, Pos>, inum: nat,
                      j: nat, i: nat)
    requires Emptied(sb, s, owner0, s', owner, inum) && j < sb.ninodes && i < MAXBYTES
    ensures ByteAt(s', j, i) == if j == inum then 0 else ByteAt(s, j, i)
  {
    hide MapMarks;
    var p := DataPos(j, i / BSIZE);
    SplitOfBlock(j, sb.ninodes, i / BSIZE);
    if j != inum && NodeAt(s, p) != 0 {
      assert owner0[NodeAt(s, p)] == p;
      assert NodeAt(s, p) in owner;
    }
  }
}
