/** A file as one zero-extended byte function, and how the index trees carry it. */
module Content {
  import opened Blocks
  import opened FileTree
  import opened Alloc

  const MAXBYTES := 1082201088

  /** Byte i of a file: 0 inside a hole. */
  function ByteAt(s: Image, inum: nat, i: nat): (c: Byte)
    requires inum < |s.inodes| && |s.inodes[inum].addrs| == 13 && i < MAXBYTES
  {
    var a := FlatAt(s, inum, i / BSIZE);
    if a == 0 || a >= |s.disk| then 0 else s.disk[a][i % BSIZE]
  }

  ghost predicate SameContent(sb: Superblock, s: Image, s': Image)
    requires ValidImage(sb, s) && ValidImage(sb, s')
  {
    forall j: nat, i: nat {:trigger ByteAt(s', j, i)} :: j < sb.ninodes && i < MAXBYTES ==>
      ByteAt(s', j, i) == ByteAt(s, j, i)
  }

  lemma SameContentTransitive(sb: Superblock, s: Image, s1: Image, s2: Image)
    requires ValidImage(sb, s) && ValidImage(sb, s1) && ValidImage(sb, s2)
    requires SameContent(sb, s, s1) && SameContent(sb, s1, s2)
    ensures SameContent(sb, s, s2)
  {
    forall j: nat, i: nat | j < sb.ninodes && i < MAXBYTES ensures ByteAt(s2, j, i) == ByteAt(s, j, i) {
      assert ByteAt(s2, j, i) == ByteAt(s1, j, i);
    }
  }

  /** Filling holes with fresh blocks leaves every file's bytes as they were. */
  lemma GrowthKeepsContent(sb: Superblock, s: Image, owner: map<nat, Pos>, s': Image, owner': map<nat, Pos>, p0: Pos)
    requires Grown(sb, s, owner, s', owner', p0)
    ensures SameContent(sb, s, s')
  {
    forall j: nat, i: nat | j < sb.ninodes && i < MAXBYTES
      ensures ByteAt(s', j, i) == ByteAt(s, j, i)
    {
      GrowthKeepsByte(sb, s, owner, s', owner', p0, j, i);
    }
  }

  lemma GrowthKeepsByte(sb: Superblock, s: Image, owner: map<nat, Pos>, s': Image, owner': map<nat, Pos>, p0: Pos,
                        j: nat, i: nat)
    requires Grown(sb, s, owner, s', owner', p0) && j < sb.ninodes && i < MAXBYTES
    ensures ByteAt(s', j, i) == ByteAt(s, j, i)
  {
    hide DataPos, NodeAt, MapMarks;
    var p := DataPos(j, i / BSIZE);
    SplitOfBlock(j, sb.ninodes, i / BSIZE);
    var a, a' := NodeAt(s, p), NodeAt(s', p);
    if a' != 0 {
      assert a' in owner' && owner'[a'] == p;
      if a != 0 {
        assert a in owner && owner[a] == p;
      } else {
        assert a' !in owner;
      }
    }
  }

  /** s' is s with block `data` stored on the disk block of file block (inum, bn). */
  ghost predicate BlockStored(sb: Superblock, s: Image, owner: map<nat, Pos>, s': Image, inum: nat, bn: nat,
                              data: Block)
  {
    && Owned(sb, s, owner) && inum < sb.ninodes && bn < MAXFILE
    && var a := FlatAt(s, inum, bn);
    a != 0 && a < sb.size && s' == s.(disk := s.disk[a := data])
  }

  lemma StoringKeepsTrees(sb: Superblock, s: Image, owner: map<nat, Pos>, s': Image, inum: nat, bn: nat, data: Block)
    requires BlockStored(sb, s, owner, s', inum, bn, data)
    ensures Owned(sb, s', owner)
    ensures TreesSame(sb, s, s')
  {
    var p := DataPos(inum, bn);
    SplitOfBlock(inum, sb.ninodes, bn);
    var a := NodeAt(s, p);
    assert a in owner && owner[a] == p;
    forall q: Pos | q.Valid(sb.ninodes) ensures NodeAt(s', q) == NodeAt(s, q) {
      NodeAtDependsOnTables(sb, s, s', owner, q);
    }
    SameMarks(sb, s.disk, s'.disk, owner);
  }

  ghost predicate TreesSame(sb: Superblock, s: Image, s': Image)
    requires ValidImage(sb, s) && ValidImage(sb, s')
  {
    forall p: Pos {:trigger p.Valid(sb.ninodes)} :: p.Valid(sb.ninodes) ==> NodeAt(s', p) == NodeAt(s, p)
  }

  lemma SameMarks(sb: Superblock, d: seq<Block>, d': seq<Block>, owner: map<nat, Pos>)
    requires sb.Valid() && |d| == sb.size && MapMarks(sb, d, owner) && |d'| == |d|
    requires forall k :: sb.bmapstart <= k < sb.DataStart() ==> d'[k] == d[k]
    ensures MapMarks(sb, d', owner)
  {
    forall b: nat | b < sb.size ensures InUse(sb, d', b) == InUse(sb, d, b) {
      assert sb.bmapstart <= sb.bmapstart + b / BPB < sb.DataStart();
    }
  }

  /** Storing a data block replaces that block of that file and no other byte of any file. */
  lemma StoringReplacesBlock(sb: Superblock, s: Image, owner: map<nat, Pos>, s': Image, inum: nat, bn: nat, data: Block,
                             j: nat, i: nat)
    requires BlockStored(sb, s, owner, s', inum, bn, data) && j < sb.ninodes && i < MAXBYTES
    ensures ByteAt(s', j, i) == if j == inum && i / BSIZE == bn then data[i % BSIZE] else ByteAt(s, j, i)
  {
    StoringKeepsTrees(sb, s, owner, s', inum, bn, data);
    SplitOfBlock(j, sb.ninodes, i / BSIZE);
    SplitOfBlock(inum, sb.ninodes, bn);
    var p, q := DataPos(inum, bn), DataPos(j, i / BSIZE);
    assert NodeAt(s', q) == NodeAt(s, q);
    if NodeAt(s, q) != 0 {
      assert owner[NodeAt(s, q)] == q;
      assert owner[NodeAt(s, p)] == p;
      assert BlockNo(p) == bn && BlockNo(q) == i / BSIZE;
    }
  }
}
