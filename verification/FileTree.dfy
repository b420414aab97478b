/** The index tree of fs.c: ten direct blocks, then a single, a double and a
    triple indirect table of 128 entries each.  Every block of the tree sits at
    a position (inode, slot, path of table indices); the flat block number of a
    file is one such position. */
module FileTree {
  import opened Blocks

  const NDIRECT := 10
  const NINDIRECT := 128
  const NDOUBINDIRECT := 16384
  const MAXFILE := 2113674

  datatype Superblock = Superblock(size: nat, ninodes: nat, inodestart: nat, bmapstart: nat)
  {
    /** First block behind the free map: boot, super, log, inode and map blocks are below it. */
    function DataStart(): nat { bmapstart + size / BPB + 1 }

    ghost predicate Valid() {
      && 2 <= inodestart
      && inodestart + ninodes / 8 + 1 <= bmapstart
      && DataStart() <= size < 0x1_0000_0000
    }
  }

  /** The part of `struct inode` that lives on disk, `struct dinode`: `kind` holds
      type and major, `links` holds minor and nlink. */
  datatype Inode = Inode(kind: Word, links: Word, size: Word, addrs: seq<Word>)
  {
    ghost predicate Valid() { |addrs| == 13 && size <= MAXFILE * BSIZE }
  }

  /** What fs.c works on: the disk blocks as bread shows them and the in-core inodes. */
  datatype Image = Image(disk: seq<Block>, inodes: seq<Inode>)

  ghost predicate ValidImage(sb: Superblock, s: Image) {
    && sb.Valid()
    && |s.disk| == sb.size
    && |s.inodes| == sb.ninodes
    && forall i :: 0 <= i < |s.inodes| ==> s.inodes[i].Valid()
  }

  datatype Pos = Pos(inum: nat, slot: nat, path: seq<nat>)
  {
    ghost predicate Valid(ninodes: nat) {
      && inum < ninodes
      && slot < 13
      && |path| <= Depth(slot)
      && forall k :: 0 <= k < |path| ==> path[k] < NINDIRECT
    }

    function Parent(): Pos
      requires path != []
    {
      Pos(inum, slot, path[..|path| - 1])
    }

    function Last(): nat
      requires path != []
    {
      path[|path| - 1]
    }

    function Child(i: nat): Pos { Pos(inum, slot, path + [i]) }

    /** The position k tables down the path to this one. */
    function Prefix(k: nat): Pos
      requires k <= |path|
    {
      Pos(inum, slot, path[..k])
    }

    /** q is this position or lies below it. */
    predicate Above(q: Pos) { q.inum == inum && q.slot == slot && path <= q.path }

    /** This position holds file data, not a table. */
    predicate IsData() { |path| == Depth(slot) }
  }

  /** Number of table levels below entry `slot` of addrs[]. */
  function Depth(slot: nat): nat { if slot < NDIRECT then 0 else slot - 9 }

  /** Where bmap looks for block bn of file inum. */
  function DataPos(inum: nat, bn: nat): (p: Pos)
    requires bn < MAXFILE
  {
    if bn < NDIRECT then Pos(inum, bn, [])
    else var b := bn - NDIRECT;
      if b < NINDIRECT then Pos(inum, 10, [b])
      else var b := b - NINDIRECT;
        if b < NDOUBINDIRECT then Pos(inum, 11, [b / NINDIRECT, b % NINDIRECT])
        else var b := b - NDOUBINDIRECT;
          var t := b % NDOUBINDIRECT;
          Pos(inum, 12, [b / NDOUBINDIRECT, t / NINDIRECT, t % NINDIRECT])
  }

  /** The file block a data position stands for. */
  function BlockNo(p: Pos): (bn: nat)
    requires p.slot < 13 && p.IsData()
  {
    match Depth(p.slot)
    case 0 => p.slot
    case 1 => NDIRECT + p.path[0]
    case 2 => NDIRECT + NINDIRECT + p.path[0] * NINDIRECT + p.path[1]
    case _ => NDIRECT + NINDIRECT + NDOUBINDIRECT
              + p.path[0] * NDOUBINDIRECT + p.path[1] * NINDIRECT + p.path[2]
  }

  /** The index split is a bijection between [0, MAXFILE) and the data positions of a file. */
  lemma IndexSplitIsBijection(inum: nat, ninodes: nat, bn: nat, p: Pos)
    requires inum < ninodes && p.Valid(ninodes) && p.IsData()
    ensures bn < MAXFILE ==> DataPos(inum, bn).Valid(ninodes) && DataPos(inum, bn).IsData()
    ensures bn < MAXFILE ==> BlockNo(DataPos(inum, bn)) == bn
    ensures BlockNo(p) < MAXFILE && DataPos(p.inum, BlockNo(p)) == p
  {
    SplitOfBlock(inum, ninodes, bn);
    BlockOfSplit(p, ninodes);
  }

  lemma SplitOfBlock(inum: nat, ninodes: nat, bn: nat)
    requires inum < ninodes
    ensures bn < MAXFILE ==> DataPos(inum, bn).Valid(ninodes) && DataPos(inum, bn).IsData()
    ensures bn < MAXFILE ==> BlockNo(DataPos(inum, bn)) == bn
  {
  }

  lemma BlockOfSplit(p: Pos, ninodes: nat)
    requires p.Valid(ninodes) && p.IsData()
    ensures BlockNo(p) < MAXFILE && DataPos(p.inum, BlockNo(p)) == p
  {
    if |p.path| == 0 {
      assert p.path == [];
    } else if |p.path| == 1 {
      assert p.path == [p.path[0]];
    } else if |p.path| == 2 {
      assert p.path == [p.path[0], p.path[1]];
    } else {
      SplitTriple(p.path[0], p.path[1], p.path[2]);
      assert p.path == [p.path[0], p.path[1], p.path[2]];
    }
  }

  lemma SplitTriple(i: nat, j: nat, k: nat)
    requires i < NINDIRECT && j < NINDIRECT && k < NINDIRECT
    ensures var b := i * NDOUBINDIRECT + j * NINDIRECT + k;
            var t := b % NDOUBINDIRECT;
            b / NDOUBINDIRECT == i && t / NINDIRECT == j && t % NINDIRECT == k
  {
  }

  /** The disk block at a position of the tree, 0 where there is none. */
  function NodeAt(s: Image, p: Pos): (a: Word)
    requires p.inum < |s.inodes| && p.slot < |s.inodes[p.inum].addrs|
    requires forall k :: 0 <= k < |p.path| ==> p.path[k] < NINDIRECT
    decreases |p.path|
  {
    if p.path == [] then s.inodes[p.inum].addrs[p.slot]
    else Entry(s.disk, NodeAt(s, p.Parent()), p.Last())
  }

  /** Entry i of the table in block u, 0 when there is no table. */
  function Entry(d: seq<Block>, u: Word, i: nat): (a: Word)
    requires i < NINDIRECT
  {
    if u == 0 || u >= |d| then 0 else WordAt(d[u], i)
  }

  lemma PrefixEntry(s: Image, p: Pos, k: nat)
    requires p.inum < |s.inodes| && p.slot < |s.inodes[p.inum].addrs| && k < |p.path|
    requires forall j :: 0 <= j < |p.path| ==> p.path[j] < NINDIRECT
    ensures p.Prefix(k + 1).Parent() == p.Prefix(k) && p.Prefix(k + 1).Last() == p.path[k]
    ensures NodeAt(s, p.Prefix(k + 1)) == Entry(s.disk, NodeAt(s, p.Prefix(k)), p.path[k])
  {
    assert p.Prefix(k + 1).Parent() == p.Prefix(k);
  }

  /** Block bn of a file as one flat map, 0 for a hole. */
  function FlatAt(s: Image, inum: nat, bn: nat): (a: Word)
    requires inum < |s.inodes| && |s.inodes[inum].addrs| == 13 && bn < MAXFILE
  {
    SplitOfBlock(inum, inum + 1, bn);
    NodeAt(s, DataPos(inum, bn))
  }

  /** The free-map bit of block b. */
  predicate InUse(sb: Superblock, d: seq<Block>, b: nat)
    requires sb.bmapstart + b / BPB < |d|
  {
    BitAt(d[sb.bmapstart + b / BPB], b % BPB)
  }

  /** Block ownership.  `owner` names, for every block of every file, the one
      position it sits at; the free map marks the metadata and these blocks. */
  ghost predicate Owned(sb: Superblock, s: Image, owner: map<nat, Pos>)
  {
    && ValidImage(sb, s)
    && TreesOwned(sb, s, owner)
    && OwnersPlaced(sb, s, owner)
    && MapMarks(sb, s.disk, owner)
  }

  ghost predicate TreesOwned(sb: Superblock, s: Image, owner: map<nat, Pos>)
    requires ValidImage(sb, s)
  {
    forall p: Pos {:trigger p.Valid(sb.ninodes)} :: p.Valid(sb.ninodes) && NodeAt(s, p) != 0 ==>
      NodeAt(s, p) in owner && owner[NodeAt(s, p)] == p
  }

  ghost predicate OwnersPlaced(sb: Superblock, s: Image, owner: map<nat, Pos>)
    requires ValidImage(sb, s)
  {
    forall b {:trigger b in owner} :: b in owner ==>
      && sb.DataStart() <= b < sb.size
      && owner[b].Valid(sb.ninodes)
      && NodeAt(s, owner[b]) == b
  }

  ghost predicate MapMarks(sb: Superblock, d: seq<Block>, owner: map<nat, Pos>)
    requires sb.Valid() && |d| == sb.size
  {
    forall b: nat {:trigger InUse(sb, d, b)} :: b < sb.size ==> (InUse(sb, d, b) <==> b < sb.DataStart() || b in owner)
  }

  /** Distinct positions, of one file or of two, never share a block; no file
      block is metadata; and a block is marked in use exactly when it is
      metadata or sits at some position. */
  lemma OwnershipIsDisjointUnion(sb: Superblock, s: Image, owner: map<nat, Pos>)
    requires Owned(sb, s, owner)
    ensures forall p: Pos, q: Pos ::
      p.Valid(sb.ninodes) && q.Valid(sb.ninodes) && NodeAt(s, p) == NodeAt(s, q) != 0 ==> p == q
    ensures forall p: Pos {:trigger p.Valid(sb.ninodes)} :: p.Valid(sb.ninodes) && NodeAt(s, p) != 0 ==>
      sb.DataStart() <= NodeAt(s, p) < sb.size && InUse(sb, s.disk, NodeAt(s, p))
    ensures forall b: nat :: b < sb.size && InUse(sb, s.disk, b) && sb.DataStart() <= b ==>
      exists p: Pos :: p.Valid(sb.ninodes) && NodeAt(s, p) == b
  {
    forall b: nat | b < sb.size && InUse(sb, s.disk, b) && sb.DataStart() <= b
      ensures exists p: Pos :: p.Valid(sb.ninodes) && NodeAt(s, p) == b
    {
      assert owner[b].Valid(sb.ninodes) && NodeAt(s, owner[b]) == b;
    }
  }

  /** Different blocks of a file, and blocks of different files, are on different disk blocks. */
  lemma FlatMapIsInjective(sb: Superblock, s: Image, owner: map<nat, Pos>,
                           i: nat, bn: nat, j: nat, bm: nat)
    requires Owned(sb, s, owner)
    requires i < sb.ninodes && j < sb.ninodes && bn < MAXFILE && bm < MAXFILE
    requires FlatAt(s, i, bn) == FlatAt(s, j, bm) != 0
    ensures i == j && bn == bm
  {
    SplitOfBlock(i, sb.ninodes, bn);
    SplitOfBlock(j, sb.ninodes, bm);
  }

  /** Below an empty position everything is empty. */
  lemma {:induction false} EmptyBelow(sb: Superblock, s: Image, p: Pos, q: Pos)
    requires ValidImage(sb, s) && q.Valid(sb.ninodes) && p.Above(q)
    requires p.Valid(sb.ninodes) && NodeAt(s, p) == 0
    ensures NodeAt(s, q) == 0
    decreases |q.path|
  {
    if |q.path| > |p.path| {
      EmptyBelow(sb, s, p, q.Parent());
    } else {
      assert q.path == p.path;
      assert q == p;
    }
  }

  /** Above a block that is there everything is there. */
  lemma HungAbove(sb: Superblock, s: Image, q: Pos)
    requires ValidImage(sb, s) && q.Valid(sb.ninodes)
    ensures NodeAt(s, q) != 0 ==>
      forall k: nat {:trigger q.Prefix(k)} :: k <= |q.path| ==> NodeAt(s, q.Prefix(k)) != 0
  {
    forall k: nat | k <= |q.path| && NodeAt(s, q) != 0
      ensures NodeAt(s, q.Prefix(k)) != 0
    {
      if NodeAt(s, q.Prefix(k)) == 0 {
        EmptyBelow(sb, s, q.Prefix(k), q);
      }
    }
  }

  /** The trees depend only on the inodes and on the tables the trees own. */
  lemma {:induction false} NodeAtDependsOnTables(sb: Superblock, s: Image, s': Image, owner: map<nat, Pos>, p: Pos)
    requires ValidImage(sb, s) && ValidImage(sb, s') && TreesOwned(sb, s, owner)
    requires p.Valid(sb.ninodes)
    requires s'.inodes[p.inum].addrs == s.inodes[p.inum].addrs
    requires forall b {:trigger b in owner} :: b in owner && b < |s.disk| && !owner[b].IsData() ==>
      s'.disk[b] == s.disk[b]
    ensures NodeAt(s', p) == NodeAt(s, p)
    decreases |p.path|
  {
    if p.path != [] {
      NodeAtDependsOnTables(sb, s, s', owner, p.Parent());
      assert p.Parent().Valid(sb.ninodes);
      assert NodeAt(s, p.Parent()) != 0 ==>
        NodeAt(s, p.Parent()) in owner && owner[NodeAt(s, p.Parent())] == p.Parent();
    }
  }

  /** s' is s with block a hung at position p: an entry of addrs[] or of a table is
      set to a.  The block itself is zero and no other block of a file changes. */
  ghost predicate Hung(sb: Superblock, s: Image, owner: map<nat, Pos>, s': Image, p: Pos, a: nat)
    requires ValidImage(sb, s)
  {
    && ValidImage(sb, s')
    && p.Valid(sb.ninodes) && NodeAt(s, p) == 0
    && sb.DataStart() <= a < sb.size && a !in owner
    && s'.disk[a] == ZeroBlock()
    && s'.inodes == (if p.path == [] then InodesWith(s.inodes, p, a) else s.inodes)
    && (p.path != [] ==> NodeAt(s, p.Parent()) != 0)
    && (forall b {:trigger b in owner} :: b in owner ==>
          && b < sb.size
          && if p.path != [] && owner[b] == p.Parent() then EntrySet(s.disk[b], s'.disk[b], p.Last(), a)
             else s'.disk[b] == s.disk[b])
  }

  /** Table t' is t with entry i set to a. */
  ghost predicate EntrySet(t: Block, t': Block, i: nat, a: nat) {
    forall j: nat {:trigger WordAt(t', j)} :: j < NINDIRECT ==> WordAt(t', j) == if j == i then a else WordAt(t, j)
  }

  function InodesWith(inodes: seq<Inode>, p: Pos, a: Word): seq<Inode>
    requires p.inum < |inodes| && p.slot < |inodes[p.inum].addrs|
  {
    inodes[p.inum := inodes[p.inum].(addrs := inodes[p.inum].addrs[p.slot := a])]
  }

  /** The trees of s' are those of s but for block a at position p0. */
  ghost predicate TreesDifferAt(sb: Superblock, s: Image, s': Image, p0: Pos, a: nat)
    requires ValidImage(sb, s) && ValidImage(sb, s')
  {
    forall p: Pos {:trigger p.Valid(sb.ninodes)} :: p.Valid(sb.ninodes) ==> NodeAt(s', p) == if p == p0 then a
                                                                                             else NodeAt(s, p)
  }

  lemma {:induction false} HangingChangesOne(sb: Superblock, s: Image, owner: map<nat, Pos>, s': Image,
                                             p0: Pos, a: nat, p: Pos)
    requires ValidImage(sb, s) && TreesOwned(sb, s, owner) && Hung(sb, s, owner, s', p0, a)
    requires p.Valid(sb.ninodes)
    ensures NodeAt(s', p) == if p == p0 then a else NodeAt(s, p)
    decreases |p.path|
  {
    if p.path != [] {
      var up := p.Parent();
      HangingChangesOne(sb, s, owner, s', p0, a, up);
      assert p.path == up.path + [p.Last()];
      assert up.Valid(sb.ninodes);
      var u := NodeAt(s, up);
      assert u != 0 ==> u in owner && owner[u] == up;
      HungEntry(s.disk, s'.disk, owner, p0, a, up, u, p.Last());
    }
  }

  lemma HungEntry(d: seq<Block>, d': seq<Block>, owner: map<nat, Pos>, p0: Pos, a: Word, up: Pos, u: Word, i: nat)
    requires |d'| == |d| && 0 < a < |d| && d'[a] == ZeroBlock() && i < NINDIRECT
    requires u != 0 ==> u in owner && owner[u] == up && u < |d|
    requires up == p0 ==> u == 0
    requires p0.path != [] && up == p0.Parent() ==> u != 0
    requires u != 0 ==>
      if p0.path != [] && up == p0.Parent() then EntrySet(d[u], d'[u], p0.Last(), a) else d'[u] == d[u]
    ensures Entry(d', if up == p0 then a else u, i) == if up.Child(i) == p0 then a else Entry(d, u, i)
  {
    assert up.Child(i).Parent() == up;
    if p0.path != [] && up == p0.Parent() {
      assert p0.path == up.path + [p0.Last()];
      assert i == p0.Last() <==> up.Child(i) == p0;
    }
  }

  lemma OwnedFromTrees(sb: Superblock, s: Image, owner: map<nat, Pos>, s': Image, p0: Pos, a: nat)
    requires ValidImage(sb, s) && ValidImage(sb, s')
    requires TreesOwned(sb, s, owner) && OwnersPlaced(sb, s, owner)
    requires TreesDifferAt(sb, s, s', p0, a)
    requires p0.Valid(sb.ninodes) && NodeAt(s, p0) == 0
    requires sb.DataStart() <= a < sb.size && a !in owner
    ensures TreesOwned(sb, s', owner[a := p0]) && OwnersPlaced(sb, s', owner[a := p0])
  {
  }

  /** Hanging a fresh block changes the tree at that one position only, and
      ownership survives with the new block owned by the new position. */
  lemma HangingKeepsOwned(sb: Superblock, s: Image, owner: map<nat, Pos>, s': Image, p0: Pos, a: nat)
    requires Owned(sb, s, owner) && Hung(sb, s, owner, s', p0, a)
    requires MapMarks(sb, s'.disk, owner[a := p0])
    ensures TreesDifferAt(sb, s, s', p0, a)
    ensures Owned(sb, s', owner[a := p0])
  {
    forall p: Pos | p.Valid(sb.ninodes)
      ensures NodeAt(s', p) == if p == p0 then a else NodeAt(s, p)
    {
      HangingChangesOne(sb, s, owner, s', p0, a, p);
    }
    OwnedFromTrees(sb, s, owner, s', p0, a);
  }
}
