/** fs.c: the block allocator and bmap, working in place on the disk blocks and the
    in-core inodes. */
module Fs {
  import opened Blocks
  import opened FileTree
  import opened Alloc

  class FileSystem {
    const sb: Superblock
    var disk: seq<Block>
    var inodes: seq<Inode>
    /** The log's count of operations under way, of this process or another. */
    var outstanding: nat
    ghost var owner: map<nat, Pos>
    /** Blocks handed to log_write since begin_op, and the disk then. */
    var logged: set<nat>
    ghost var base: seq<Block>

    ghost function Now(): Image reads this { Image(disk, inodes) }

    ghost predicate Valid() reads this { Owned(sb, Now(), owner) }

    /** The file system mkfs starts from: empty inodes, and a free map that marks the
        metadata, which mkfs asserts to fit one map block. */
    constructor Mkfs(s: Superblock)
      requires s.Valid() && s.DataStart() < BPB
      ensures Valid() && sb == s && outstanding == 0 && owner == map[] && logged == {}
      ensures forall i :: 0 <= i < s.ninodes ==> inodes[i] == NoFile()
      ensures forall b :: 0 <= b < s.size && b != s.bmapstart ==> disk[b] == ZeroBlock()
    {
      sb, outstanding, owner, logged, base := s, 0, map[], {}, [];
      disk, inodes := seq(s.size, _ => ZeroBlock()), seq(s.ninodes, _ => NoFile());
      new;
      var data, i := ZeroBlock(), 0;
      ZeroBits();
      while i < sb.DataStart()
        invariant 0 <= i <= sb.DataStart()
        invariant forall k: nat :: k < BPB ==> (BitAt(data, k) <==> k < i)
      {
        data := SetBit(data, i);
        i := i + 1;
      }
      disk := disk[sb.bmapstart := data];
      MkfsOwned(sb, Now(), data);
    }

    /** begin_op, once it lets the operation in. */
    method BeginOp()
      modifies this`outstanding, this`logged, this`base
      ensures outstanding == old(outstanding) + 1 && logged == {} && base == disk
    {
      outstanding := outstanding + 1;
      logged, base := {}, disk;
    }

    /** end_op; what the commit does is the log's affair. */
    method EndOp()
      requires outstanding > 0
      modifies this`outstanding
      ensures outstanding == old(outstanding) - 1
    {
      outstanding := outstanding - 1;
    }

    /** log_write: the block map fs.c sees takes the new contents at once; false is the panic
        "log_write outside of trans". */
    method LogWrite(b: nat, data: Block) returns (ok: bool)
      requires b < |disk|
      modifies this`disk, this`logged
      ensures ok <==> outstanding > 0
      ensures ok ==> disk == old(disk)[b := data] && logged == old(logged) + {b}
      ensures !ok ==> unchanged(this)
      ensures old(OnlyLogged(base, disk, logged)) ==> OnlyLogged(base, disk, logged)
    {
      if outstanding < 1 {
        return false;
      }
      disk := disk[b := data];
      logged := logged + {b};
      return true;
    }

    /** Hand out the lowest free block, zeroed; None is the panic "out of blocks", or that of
        log_write. */
    method Balloc() returns (r: Option<nat>)
      requires sb.Valid() && |disk| == sb.size
      requires forall b: nat :: b < sb.DataStart() ==> InUse(sb, disk, b)
      modifies this`disk, this`logged
      ensures r.None? ==> unchanged(this) && Exhausted(sb, disk, outstanding > 0)
      ensures r.Some? ==>
        && Allocated(sb, old(disk), disk, r.value)
        && (forall b: nat :: b < r.value ==> InUse(sb, old(disk), b))
        && logged == old(logged) + {MapBlock(sb, r.value), r.value} && outstanding > 0
      ensures old(OnlyLogged(base, disk, logged)) ==> OnlyLogged(base, disk, logged)
    {
      hide OnlyLogged;
      var b := 0;
      while b < sb.size
        invariant b % BPB == 0 && disk == old(disk) && logged == old(logged)
        invariant forall k: nat :: k < b && k < sb.size ==> InUse(sb, disk, k)
      {
        var bb := sb.bmapstart + b / BPB;
        var data := disk[bb];
        var bi := 0;
        while bi < BPB && b + bi < sb.size
          invariant 0 <= bi <= BPB && disk == old(disk) && logged == old(logged)
          invariant forall k: nat :: k < b + bi && k < sb.size ==> InUse(sb, disk, k)
        {
          assert (b + bi) / BPB == b / BPB && (b + bi) % BPB == bi;
          if !BitAt(data, bi) {
            assert !InUse(sb, disk, b + bi);
            var ok := LogWrite(bb, SetBit(data, bi));
            if !ok {
              return None;
            }
            ok := Bzero(b + bi);
            AllocatedByMark(sb, old(disk), disk, b + bi);
            return Some(b + bi);
          }
          assert InUse(sb, disk, b + bi);
          bi := bi + 1;
        }
        b := b + BPB;
      }
      return None;
    }

    method Bzero(b: nat) returns (ok: bool)
      requires b < |disk|
      modifies this`disk, this`logged
      ensures ok <==> outstanding > 0
      ensures ok ==> disk == old(disk)[b := ZeroBlock()] && logged == old(logged) + {b}
      ensures old(OnlyLogged(base, disk, logged)) ==> OnlyLogged(base, disk, logged)
    {
      hide OnlyLogged;
      ok := LogWrite(b, ZeroBlock());
    }

    /** Entry `slot` of addrs[], filled by balloc if it is 0. */
    method RootBlock(inum: nat, slot: nat, ghost p0: Pos) returns (r: Option<nat>)
      requires Valid() && p0.Valid(sb.ninodes) && p0.inum == inum && p0.slot == slot
      modifies this`disk, this`inodes, this`owner, this`logged
      ensures Valid() && Grown(sb, old(Now()), old(owner), Now(), owner, p0)
      ensures LoggedAlong(sb, old(owner), owner, old(logged), logged) && (outstanding == 0 ==> owner == old(owner))
      ensures (old(OnlyLogged(base, disk, logged)) ==> OnlyLogged(base, disk, logged))
      ensures r.None? ==> NodeAt(Now(), p0) == 0 && Exhausted(sb, disk, outstanding > 0)
      ensures r.Some? ==> r.value != 0 && NodeAt(Now(), p0.Prefix(0)) == r.value
      ensures old(NodeAt(Now(), p0.Prefix(0))) != 0 ==> unchanged(this) && r.Some?
    {
      hide OnlyLogged, TreesOwned, OwnersPlaced, Exhausted;
      LoggedNothing(sb, owner, logged);
      var addr := inodes[inum].addrs[slot];
      if addr != 0 {
        return Some(addr);
      }
      ghost var s, p := Now(), p0.Prefix(0);
      var b := Balloc();
      if b.None? {
        EmptyBelow(sb, s, p, p0);
        return None;
      }
      inodes := InodesWith(inodes, Pos(inum, slot, []), b.value);
      AllocatingGrows(sb, s, owner, disk, Now(), p, b.value, p0);
      LoggedThese(sb, s, owner, p, old(logged), b.value, {});
      owner := owner[b.value := p];
      return b;
    }

    /** Entry i of the table in block addr, k tables down the path to p0, allocating:
        bread, test, balloc, log_write. */
    method ChildBlock(addr: nat, i: nat, ghost k: nat, ghost p0: Pos) returns (r: Option<nat>)
      requires Valid() && p0.Valid(sb.ninodes) && k < |p0.path| && p0.path[k] == i
      requires NodeAt(Now(), p0.Prefix(k)) == addr != 0
      modifies this`disk, this`owner, this`logged
      ensures Valid() && Grown(sb, old(Now()), old(owner), Now(), owner, p0)
      ensures LoggedAlong(sb, old(owner), owner, old(logged), logged) && (outstanding == 0 ==> owner == old(owner))
      ensures (old(OnlyLogged(base, disk, logged)) ==> OnlyLogged(base, disk, logged))
      ensures r.None? ==> NodeAt(Now(), p0) == 0 && Exhausted(sb, disk, outstanding > 0)
      ensures r.Some? ==> r.value != 0 && NodeAt(Now(), p0.Prefix(k + 1)) == r.value
      ensures old(NodeAt(Now(), p0.Prefix(k + 1))) != 0 ==> unchanged(this) && r.Some?
    {
      hide OnlyLogged;
      PrefixEntry(Now(), p0, k);
      LoggedNothing(sb, owner, logged);
      assert p0.Prefix(k).Valid(sb.ninodes) && p0.Prefix(k + 1).Valid(sb.ninodes);
      var a := WordAt(disk[addr], i);
      if a != 0 {
        GrownReflexive(sb, Now(), owner, p0);
        return Some(a);
      }
      r := FillEntry(addr, i, p0.Prefix(k + 1), p0);
      if r.None? {
        EmptyBelow(sb, Now(), p0.Prefix(k + 1), p0);
      }
    }

    method FillEntry(addr: nat, i: nat, ghost p: Pos, ghost p0: Pos) returns (r: Option<nat>)
      requires Valid() && p0.Valid(sb.ninodes) && p.Valid(sb.ninodes) && p.Above(p0)
      requires p.path != [] && p.Last() == i
      requires NodeAt(Now(), p) == 0 && NodeAt(Now(), p.Parent()) == addr && 0 < addr < sb.size
      modifies this`disk, this`owner, this`logged
      ensures Grown(sb, old(Now()), old(owner), Now(), owner, p0)
      ensures LoggedAlong(sb, old(owner), owner, old(logged), logged) && (outstanding == 0 ==> owner == old(owner))
      ensures (old(OnlyLogged(base, disk, logged)) ==> OnlyLogged(base, disk, logged))
      ensures r.None? ==> NodeAt(Now(), p) == 0 && Exhausted(sb, disk, outstanding > 0)
      ensures r.Some? ==> r.value != 0 && NodeAt(Now(), p) == r.value
    {
      hide TreesOwned, OwnersPlaced, TreesGrewAlong, OnlyLogged;
      ghost var s := Now();
      r := Balloc();
      if r.None? {
        GrownReflexive(sb, s, owner, p0);
        LoggedNothing(sb, owner, logged);
        return;
      }
      ghost var d1 := disk;
      var ok := LogWrite(addr, SetWord(disk[addr], i, r.value));
      EntryAllocated(sb, s, owner, d1, addr, r.value, Now(), p, p0);
      LoggedThese(sb, s, owner, p, old(logged), r.value, {addr});
      owner := owner[r.value := p];
    }

    /** The disk block of block bn of a file, allocating it and the tables on the
        way to it; None is a panic, out of range or out of blocks. */
    method Bmap(inum: nat, bn: nat) returns (r: Option<nat>)
      requires Valid() && inum < sb.ninodes
      modifies this`disk, this`inodes, this`owner, this`logged
      ensures bn >= MAXFILE ==> r.None? && unchanged(this)
      ensures bn < MAXFILE ==> BmapDone(old(Now()), old(owner), old(logged), DataPos(inum, bn), r)
      ensures old(OnlyLogged(base, disk, logged)) ==> OnlyLogged(base, disk, logged)
    {
      hide OnlyLogged;
      if bn >= MAXFILE {
        return None;
      }
      ghost var p0 := DataPos(inum, bn);
      SplitOfBlock(inum, sb.ninodes, bn);
      if bn < NDIRECT {
        r := Walk(inum, bn, [], p0);
        return;
      }
      var b := bn - NDIRECT;
      if b < NINDIRECT {
        r := Walk(inum, NDIRECT, [b], p0);
        return;
      }
      b := b - NINDIRECT;
      if b < NDOUBINDIRECT {
        r := Walk(inum, NDIRECT + 1, [b / NINDIRECT, b % NINDIRECT], p0);
        return;
      }
      b := b - NDOUBINDIRECT;
      var t := b % NDOUBINDIRECT;
      r := Walk(inum, NDIRECT + 2, [b / NDOUBINDIRECT, t / NINDIRECT, t % NINDIRECT], p0);
    }

    /** bmap walked to p0 from state s and returned r: the trees grew along p0, the
        block there is r, and nothing happened if there was a block already. */
    ghost predicate BmapDone(s: Image, owner0: map<nat, Pos>, logged0: set<nat>, p0: Pos, r: Option<nat>)
      reads this
    {
      && p0.Valid(sb.ninodes)
      && Grown(sb, s, owner0, Now(), owner, p0)
      && LoggedAlong(sb, owner0, owner, logged0, logged) && (outstanding == 0 ==> owner == owner0)
      && (r.None? ==> NodeAt(Now(), p0) == 0 && Exhausted(sb, disk, outstanding > 0))
      && (r.Some? ==> r.value != 0 && NodeAt(Now(), p0) == r.value)
      && (NodeAt(s, p0) != 0 ==> Now() == s && owner == owner0 && logged == logged0 && r.Some?)
    }

    /** The walk from addrs[slot] down the tables, one entry of `path` a level; fs.c
        writes this loop out for each of its one, two and three levels. */
    method Walk(inum: nat, slot: nat, path: seq<nat>, ghost p0: Pos) returns (r: Option<nat>)
      requires Valid() && p0.Valid(sb.ninodes) && p0 == Pos(inum, slot, path)
      modifies this`disk, this`inodes, this`owner, this`logged
      ensures BmapDone(old(Now()), old(owner), old(logged), p0, r)
      ensures (old(OnlyLogged(base, disk, logged)) ==> OnlyLogged(base, disk, logged))
    {
      hide TreesOwned, OwnersPlaced, MapMarks, TreesGrewAlong, NodeAt, LoggedAlong, OnlyLogged, Exhausted,
        Grown;
      ghost var s, owner0, logged0 := Now(), owner, logged;
      HungAbove(sb, s, p0);
      assert NodeAt(s, p0) != 0 ==> NodeAt(s, p0.Prefix(0)) != 0;
      r := RootBlock(inum, slot, p0);
      var k := 0;
      while k < |path| && r.Some?
        invariant 0 <= k <= |path|
        invariant Valid() && Grown(sb, s, owner0, Now(), owner, p0)
        invariant LoggedAlong(sb, owner0, owner, logged0, logged) && (outstanding == 0 ==> owner == owner0)
        invariant (old(OnlyLogged(base, disk, logged)) ==> OnlyLogged(base, disk, logged))
        invariant r.None? ==> NodeAt(Now(), p0) == 0 && Exhausted(sb, disk, outstanding > 0)
        invariant r.Some? ==> r.value != 0 && NodeAt(Now(), p0.Prefix(k)) == r.value
        invariant NodeAt(s, p0) != 0 ==> Now() == s && owner == owner0 && logged == logged0 && r.Some?
      {
        ghost var s1, owner1, logged1 := Now(), owner, logged;
        assert NodeAt(s, p0) != 0 ==> NodeAt(s, p0.Prefix(k + 1)) != 0;
        r := ChildBlock(r.value, path[k], k, p0);
        GrownOn(sb, s, owner0, logged0, s1, owner1, logged1, Now(), owner, logged, p0);
        k := k + 1;
      }
      assert p0.Prefix(|path|) == p0;
    }
  }

  lemma GrownOn(sb: Superblock, s: Image, owner: map<nat, Pos>, logged: set<nat>,
                s1: Image, owner1: map<nat, Pos>, logged1: set<nat>,
                s2: Image, owner2: map<nat, Pos>, logged2: set<nat>, p0: Pos)
    requires Grown(sb, s, owner, s1, owner1, p0) && Grown(sb, s1, owner1, s2, owner2, p0)
    requires LoggedAlong(sb, owner, owner1, logged, logged1) && LoggedAlong(sb, owner1, owner2, logged1, logged2)
    ensures Grown(sb, s, owner, s2, owner2, p0) && LoggedAlong(sb, owner, owner2, logged, logged2)
  {
    hide TreesOwned, OwnersPlaced, MapMarks, TreesGrewAlong, LoggedAlong;
    GrownTransitive(sb, s, owner, s1, owner1, s2, owner2, p0);
    LoggedCompose(sb, owner, s1, owner1, s2, owner2, logged, logged1, logged2);
  }

  lemma AllocatedByMark(sb: Superblock, d: seq<Block>, d': seq<Block>, a: nat)
    requires sb.Valid() && |d| == sb.size && sb.DataStart() <= a < sb.size && !InUse(sb, d, a)
    requires var bb := sb.bmapstart + a / BPB;
             d' == d[bb := SetBit(d[bb], a % BPB)][a := ZeroBlock()]
    ensures Allocated(sb, d, d', a)
  {
    var bb := sb.bmapstart + a / BPB;
    forall b: nat | b < sb.size ensures InUse(sb, d', b) <==> b == a || InUse(sb, d, b) {
      if b / BPB == a / BPB {
        assert b == a <==> b % BPB == a % BPB;
      }
    }
  }

  /** An inode without blocks. */
  function NoFile(): (ip: Inode)
    ensures ip.Valid() && ip.kind == 0 && ip.links == 0 && ip.size == 0 && forall k :: 0 <= k < 13 ==> ip.addrs[k] == 0
  {
    Inode(0, 0, 0, seq(13, _ => 0))
  }

  lemma ZeroBits()
    ensures forall k: nat :: k < BPB ==> !BitAt(ZeroBlock(), k)
  {
    forall k: nat | k < BPB ensures !BitAt(ZeroBlock(), k) {
      ZeroByte(k % 8);
    }
  }

  lemma {:induction false} ZeroByte(k: nat)
    ensures !ByteBit(0, k)
  {
    if k > 0 {
      ZeroByte(k - 1);
    }
  }

  lemma {:induction false} NoNode(s: Image, p: Pos)
    requires p.inum < |s.inodes| && s.inodes[p.inum] == NoFile() && p.slot < 13 && forall k :: 0 <= k < |p.path| ==>
      p.path[k] < NINDIRECT
    ensures NodeAt(s, p) == 0
    decreases |p.path|
  {
    if p.path != [] {
      NoNode(s, p.Parent());
    }
  }

  lemma MkfsOwned(sb: Superblock, s: Image, data: Block)
    requires sb.Valid() && sb.DataStart() < BPB && |s.inodes| == sb.ninodes && |s.disk| == sb.size
    requires forall i :: 0 <= i < sb.ninodes ==> s.inodes[i] == NoFile()
    requires forall b :: 0 <= b < sb.size ==> s.disk[b] == if b == sb.bmapstart then data else ZeroBlock()
    requires forall k: nat :: k < BPB ==> (BitAt(data, k) <==> k < sb.DataStart())
    ensures Owned(sb, s, map[])
  {
    forall p: Pos | p.Valid(sb.ninodes) ensures NodeAt(s, p) == 0 {
      NoNode(s, p);
    }
    ZeroBits();
    hide BitAt;
    forall b: nat | b < sb.size ensures InUse(sb, s.disk, b) <==> b < sb.DataStart() {
      assert b < BPB ==> b / BPB == 0 && b % BPB == b;
      assert b >= BPB ==> b / BPB > 0;
    }
  }
}
