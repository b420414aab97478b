/** filewrite of file.c: a write split into transactions of at most three blocks. */
module FileWrite {
  import opened Blocks
  import opened FileTree
  import opened Alloc
  import opened Content
  import opened Advance
  import opened Demand
  import opened Dinode
  import opened Fs
  import opened ReadWrite
  import opened LogBound
  import opened LogMachine

  const CHUNK := (MAXOPBLOCKS - 1 - 1 - 2) / 2 * 512

  /** An open FD_INODE file. */
  class File {
    const inum: nat
    const readable: bool
    const writable: bool
    var off: Word

    constructor (i: nat, r: bool, w: bool)
      ensures inum == i && readable == r && writable == w && off == 0
    {
      inum, readable, writable, off := i, r, w, 0;
    }
  }

  /** Two writes, the second where the first ended, are one write of both. */
  lemma WritesCompose(sb: Superblock, s: Image, owner: map<nat, Pos>, s1: Image, owner1: map<nat, Pos>,
                      s2: Image, owner2: map<nat, Pos>, inum: nat, off: nat, a: seq<Byte>, b: seq<Byte>)
    requires WriteDone(sb, s, owner, s1, owner1, inum, off, a) && |a| > 0
    requires WriteDone(sb, s1, owner1, s2, owner2, inum, off + |a|, b) && |b| > 0
    ensures WriteDone(sb, s, owner, s2, owner2, inum, off, a + b)
  {
    hide TreesOwned, OwnersPlaced, MapMarks, OnDisk;
    TouchedJoin(off, |a|, |b|);
    assert |a + b| == |a| + |b|;
    assert Overlaid(sb, s, s2, inum, off, a + b) by { OverlaysCompose(sb, s, s1, s2, inum, off, a, b); }
    assert MapGrew(sb, s, s2, inum, off, |a + b|) by { MapsCompose(sb, s, s1, s2, inum, off, |a|, |b|); }
    assert RootsGrew(sb, s, s2, inum, off, |a + b|) by { RootsCompose(sb, s, s1, s2, inum, off, |a|, |b|); }
    assert OwnersOnPath(owner, owner2, inum, off, |a + b|) by {
      OwnersCompose(owner, owner1, owner2, inum, off, |a|, |b|);
    }
  }

  lemma TouchedJoin(off: nat, n: nat, m: nat)
    requires n > 0 && m > 0
    ensures forall bn: nat {:trigger Touched(off, n + m, bn)} ::
      Touched(off, n + m, bn) <==> Touched(off, n, bn) || Touched(off + n, m, bn)
  {
  }

  lemma OverlaysCompose(sb: Superblock, s: Image, s1: Image, s2: Image, inum: nat, off: nat, a: seq<Byte>, b: seq<Byte>)
    requires ValidImage(sb, s) && ValidImage(sb, s1) && ValidImage(sb, s2)
    requires Overlaid(sb, s, s1, inum, off, a) && Overlaid(sb, s1, s2, inum, off + |a|, b)
    ensures Overlaid(sb, s, s2, inum, off, a + b)
  {
    hide ByteAt;
    forall j: nat, i: nat | j < sb.ninodes && i < MAXBYTES
      ensures ByteAt(s2, j, i) == if j == inum && off <= i < off + |a + b| then (a + b)[i - off] else ByteAt(s, j, i)
    {
      assert ByteAt(s1, j, i) == if j == inum && off <= i < off + |a| then a[i - off] else ByteAt(s, j, i);
    }
  }

  lemma MapsCompose(sb: Superblock, s: Image, s1: Image, s2: Image, inum: nat, off: nat, n: nat, m: nat)
    requires ValidImage(sb, s) && ValidImage(sb, s1) && ValidImage(sb, s2) && n > 0 && m > 0
    requires MapGrew(sb, s, s1, inum, off, n) && MapGrew(sb, s1, s2, inum, off + n, m)
    ensures MapGrew(sb, s, s2, inum, off, n + m)
  {
    hide FlatAt;
    TouchedJoin(off, n, m);
    forall j: nat, k: nat | j < sb.ninodes && k < MAXFILE
      ensures FlatAt(s, j, k) != 0 ==> FlatAt(s2, j, k) == FlatAt(s, j, k)
      ensures j == inum && Touched(off, n + m, k) ==> FlatAt(s2, j, k) != 0
      ensures FlatAt(s2, j, k) != FlatAt(s, j, k) ==> j == inum && Touched(off, n + m, k)
    {
      assert FlatAt(s1, j, k) != 0 ==> FlatAt(s2, j, k) == FlatAt(s1, j, k);
    }
  }

  lemma RootsCompose(sb: Superblock, s: Image, s1: Image, s2: Image, inum: nat, off: nat, n: nat, m: nat)
    requires ValidImage(sb, s) && ValidImage(sb, s1) && ValidImage(sb, s2) && inum < sb.ninodes && n > 0 && m > 0
    requires RootsGrew(sb, s, s1, inum, off, n) && RootsGrew(sb, s1, s2, inum, off + n, m)
    ensures RootsGrew(sb, s, s2, inum, off, n + m)
  {
    hide DataPos;
    TouchedJoin(off, n, m);
    forall k | 0 <= k < 13
      ensures var a, a' := s.inodes[inum].addrs[k], s2.inodes[inum].addrs[k];
        && (a' != a <==> a == 0 && exists bn: nat ::
          bn < MAXFILE && Touched(off, n + m, bn) && DataPos(inum, bn).slot == k)
        && (a' == 0 ==> a == 0)
    {
      if bn: nat :| bn < MAXFILE && Touched(off, n + m, bn) && DataPos(inum, bn).slot == k {
        assert Touched(off, n, bn) || Touched(off + n, m, bn);
      }
      if bn: nat :| bn < MAXFILE && Touched(off, n, bn) && DataPos(inum, bn).slot == k {
        assert Touched(off, n + m, bn);
      }
      if bn: nat :| bn < MAXFILE && Touched(off + n, m, bn) && DataPos(inum, bn).slot == k {
        assert Touched(off, n + m, bn);
      }
    }
  }

  lemma OwnersCompose(owner: map<nat, Pos>, owner1: map<nat, Pos>, owner2: map<nat, Pos>,
                      inum: nat, off: nat, n: nat, m: nat)
    requires n > 0 && m > 0 && off + n + m <= MAXBYTES
    requires OwnersOnPath(owner, owner1, inum, off, n) && OwnersOnPath(owner1, owner2, inum, off + n, m)
    ensures OwnersOnPath(owner, owner2, inum, off, n + m)
  {
    TouchedJoin(off, n, m);
    forall b | b in owner2 && b !in owner ensures OnPath(inum, off, n + m, owner2[b]) {
      if b in owner1 {
        var bn: nat :| Touched(off, n, bn) && owner1[b].Above(DataPos(inum, bn));
        assert Touched(off, n + m, bn);
      } else {
        var bn: nat :| Touched(off + n, m, bn) && owner2[b].Above(DataPos(inum, bn));
        assert Touched(off, n + m, bn);
      }
    }
  }

  /** Where a write of n bytes at off stops: at its end, or in front of the first
      chunk that would pass the largest file. */
  function Stop(off: nat, n: nat): (k: nat)
    ensures k <= n
    ensures k > 0 ==> off + k <= MAXBYTES
    ensures k < n ==> k % CHUNK == 0 && off + k + (if n - k > CHUNK then CHUNK else n - k) > MAXBYTES
  {
    if off + n <= MAXBYTES then n
    else if off > MAXBYTES then 0
    else WholeChunks(MAXBYTES - off); (MAXBYTES - off) / CHUNK * CHUNK
  }

  lemma WholeChunks(m: nat)
    ensures m / CHUNK * CHUNK <= m < m / CHUNK * CHUNK + CHUNK
    ensures m / CHUNK * CHUNK % CHUNK == 0
  {
    assert CHUNK == 1536;
    var c := m / 1536;
    assert c * 1536 % 1536 == 0;
  }

  /** The bytes of addr before i have been written from state s on, as by one writei. */
  ghost predicate WrittenTo(sb: Superblock, s: Image, owner: map<nat, Pos>, s': Image, owner': map<nat, Pos>,
                            inum: nat, off: nat, addr: seq<Byte>, i: nat)
    requires i <= |addr|
  {
    if i > 0 then WriteDone(sb, s, owner, s', owner', inum, off, addr[..i]) else s' == s && owner' == owner
  }

  /** One writei logs blocks behind the log only: inode blocks, map blocks, file blocks. */
  lemma LogsFileBlocks(sb: Superblock, s: Image, owner: map<nat, Pos>, s': Image, owner': map<nat, Pos>,
                       inum: nat, off: nat, src: seq<Byte>, logged: set<nat>)
    requires WriteDone(sb, s, owner, s', owner', inum, off, src)
    requires LoggedByWrite(sb, s, owner, s', owner', inum, off, |src|, {}, logged)
    ensures forall b :: b in logged ==> sb.inodestart <= b < sb.size
  {
    hide TreesOwned, MapMarks, MapGrew, RootsGrew, OwnersOnPath, OnDisk, Overlaid, TookLowest;
    assert forall b {:trigger b in owner'} :: b in owner' ==> sb.DataStart() <= b < sb.size;
    forall b | b in logged ensures sb.inodestart <= b < sb.size {
      if a :| LoggedWith(sb, owner, owner', b, a) {
        assert sb.bmapstart <= MapBlock(sb, a) < sb.DataStart();
      }
    }
  }

  /** One transaction: begin_op, writei of n1 bytes, end_op. */
  method WriteChunk(fs: FileSystem, inum: nat, at: Word, addr: seq<Byte>, i: nat, n1: nat,
                    ghost s: Image, ghost owner: map<nat, Pos>, ghost off: nat) returns (r: Option<int>)
    requires fs.Valid() && inum < fs.sb.ninodes && at == off + i && 0 < n1 <= CHUNK && i + n1 <= |addr|
    requires fs.inodes[inum].kind % 0x1_0000 != T_DEV
    requires WrittenTo(fs.sb, s, owner, fs.Now(), fs.owner, inum, off, addr, i)
    modifies fs`disk, fs`inodes, fs`owner, fs`logged, fs`base, fs`outstanding
    ensures fs.Valid() && (r.Some? ==> fs.inodes[inum].kind == old(fs.inodes[inum].kind))
    ensures r.Some? ==> fs.outstanding == old(fs.outstanding)
    ensures r.None? ==> Stuck(fs.sb, s, owner, fs.Now(), fs.owner, inum, off, i + n1, true)
    ensures off + i + n1 > MAXBYTES ==> r == Some(-1) && fs.Now() == old(fs.Now()) && fs.owner == old(fs.owner)
    ensures off + i + n1 <= MAXBYTES && r.Some? ==>
      && r.value == n1 && 0 < |fs.logged| == WriteCost(fs.sb, old(fs.Now()), inum, at, n1) <= 19
      && OnlyLogged(old(fs.disk), fs.disk, fs.logged)
      && (forall b :: b in fs.logged ==> fs.sb.inodestart <= b < fs.sb.size)
      && WrittenTo(fs.sb, s, owner, fs.Now(), fs.owner, inum, off, addr, i + n1)
  {
    hide TreesOwned, OwnersPlaced, MapMarks, MapGrew, RootsGrew, OwnersOnPath, OnDisk, Overlaid, LoggedByWrite,
      Exhausted, WriteCost, Empties, FreeBlocks, FlatAt, DataPos;
    ghost var s1, owner1 := fs.Now(), fs.owner;
    fs.BeginOp();
    var src := addr[i..i + n1];
    r := Writei(fs, inum, src, at);
    if r.Some? && r.value >= 0 {
      LogsFileBlocks(fs.sb, s1, owner1, fs.Now(), fs.owner, inum, at, src, fs.logged);
      ReservationHoldsExactlyWhen(fs.sb, s1, owner1, fs.Now(), fs.owner, inum, at, src, fs.logged);
      ChunkLogsFew(fs.sb, s1, inum, at, n1);
      assert addr[..i] + src == addr[..i + n1];
      if i > 0 {
        WritesCompose(fs.sb, s, owner, s1, owner1, fs.Now(), fs.owner, inum, off, addr[..i], src);
      }
    }
    if r.None? {
      StuckOn(fs.sb, s, owner, s1, owner1, fs.Now(), fs.owner, inum, off, addr, i, n1);
      return;
    }
    fs.EndOp();
  }

  /** What stops a later chunk stops the whole write. */
  lemma StuckOn(sb: Superblock, s: Image, owner: map<nat, Pos>, s1: Image, owner1: map<nat, Pos>,
                s2: Image, owner2: map<nat, Pos>, inum: nat, off: nat, addr: seq<Byte>, i: nat, m: nat)
    requires i <= |addr| && m > 0 && WrittenTo(sb, s, owner, s1, owner1, inum, off, addr, i)
    requires Stuck(sb, s1, owner1, s2, owner2, inum, off + i, m, true)
    ensures Stuck(sb, s, owner, s2, owner2, inum, off, i + m, true)
  {
    hide TreesOwned, OwnersPlaced, MapMarks, MapGrew, RootsGrew, OwnersOnPath, OnDisk, Overlaid, FlatAt, Exhausted;
    if i > 0 {
      TouchedJoin(off, i, m);
      OwnersCompose(owner, owner1, owner2, inum, off, i, m);
      var bn: nat :| bn < MAXFILE && Touched(off + i, m, bn) && FlatAt(s2, inum, bn) == 0;
      assert Touched(off, i + m, bn);
    }
  }

  /** Enough blocks are free for the k bytes at off. */
  ghost predicate Fits(sb: Superblock, s: Image, inum: nat, off: nat, k: nat)
    requires ValidImage(sb, s)
  {
    k == 0 || (off + k <= MAXBYTES && |Empties(sb, s, inum, off, k)| <= |FreeBlocks(sb, s.disk)|)
  }

  lemma WrittenFits(sb: Superblock, s: Image, owner: map<nat, Pos>, s': Image, owner': map<nat, Pos>,
                    inum: nat, off: nat, addr: seq<Byte>, k: nat)
    requires k <= |addr| && Owned(sb, s, owner) && WrittenTo(sb, s, owner, s', owner', inum, off, addr, k)
    ensures Fits(sb, s, inum, off, k)
  {
    hide TreesOwned, OwnersPlaced, MapMarks, MapGrew, RootsGrew, OwnersOnPath, OnDisk, Overlaid, Empties, FreeBlocks;
    if k > 0 {
      FoundEnough(sb, s, owner, s', owner', inum, off, k);
    }
  }

  lemma StuckFitsNot(sb: Superblock, s: Image, owner: map<nat, Pos>, s': Image, owner': map<nat, Pos>,
                     inum: nat, off: nat, n: nat, i: nat, c: nat)
    requires i < n && i == c * CHUNK
    requires var n1 := if n - i > CHUNK then CHUNK else n - i;
      off + i + n1 <= MAXBYTES && Stuck(sb, s, owner, s', owner', inum, off, i + n1, true)
    ensures ValidImage(sb, s) && !Fits(sb, s, inum, off, Stop(off, n))
  {
    hide TreesOwned, OwnersPlaced, MapMarks, OwnersOnPath, Exhausted, Empties, FreeBlocks, FlatAt;
    var n1 := if n - i > CHUNK then CHUNK else n - i;
    GoesThrough(off, n, i, c);
    StuckWithin(sb, s, owner, s', owner', inum, off, i + n1, Stop(off, n), true);
    StuckIsShort(sb, s, owner, s', owner', inum, off, Stop(off, n));
  }

  /** A chunk that does not pass the largest file is before the stop. */
  lemma GoesThrough(off: nat, n: nat, i: nat, c: nat)
    requires i < n && i == c * CHUNK && off + i + (if n - i > CHUNK then CHUNK else n - i) <= MAXBYTES
    ensures i + (if n - i > CHUNK then CHUNK else n - i) <= Stop(off, n)
  {
    if off + n > MAXBYTES {
      assert (c + 1) * CHUNK <= MAXBYTES - off;
      assert (MAXBYTES - off) / CHUNK >= c + 1;
    }
  }

  /** Read n bytes at the file's offset, as uint.  fileread calls no begin_op: where a hole lies in the
      range and no other process has an operation under way, readi panics. */
  method Fileread(fs: FileSystem, f: File, n: int) returns (r: Option<int>, dst: seq<Byte>)
    requires fs.Valid() && f.inum < fs.sb.ninodes && -0x8000_0000 <= n < 0x8000_0000
    requires fs.inodes[f.inum].kind % 0x1_0000 != T_DEV
    modifies fs`disk, fs`inodes, fs`owner, fs`logged, f`off
    ensures fs.Valid()
    ensures var off, size, w := old(f.off), old(fs.inodes[f.inum].size), n % 0x1_0000_0000;
      if !f.readable || off > size || off + w >= 0x1_0000_0000 then
        r == Some(-1) && unchanged(fs) && f.off == off
      else
        var m := if off + w > size then size - off else w;
        && (r.Some? <==> Answers(fs.sb, old(fs.Now()), f.inum, off, m, fs.outstanding > 0))
        && (r.Some? ==>
              && r.value == m == |dst| && f.off == off + m
              && IsSlice(old(fs.Now()), f.inum, off, dst)
              && (unchanged(fs) <==> Empties(fs.sb, old(fs.Now()), f.inum, off, m) == {}))
  {
    hide TreesOwned, OwnersPlaced, MapMarks, MapGrew, RootsGrew, OwnersOnPath, SameContent, IsSlice, Stuck, Empties,
      Answers, LoggedAlong;
    if !f.readable {
      return Some(-1), [];
    }
    r, dst := Readi(fs, f.inum, f.off, n % 0x1_0000_0000);
    if r.Some? && r.value > 0 {
      f.off := f.off + r.value;
    }
  }

  /** The file system between two transactions, and the blocks each of them logged. */
  datatype Txns = Txns(images: seq<Image>, owners: seq<map<nat, Pos>>, logged: seq<set<nat>>)

  /** How many bytes the first k chunks of n have. */
  function Upto(k: nat, n: nat): (m: nat)
    ensures m <= n
  {
    if k * CHUNK < n then k * CHUNK else n
  }

  /** Each transaction changed blocks behind the log, those it logged, at most nineteen, and the
      first k of them together wrote the first k chunks of the first n bytes of addr. */
  ghost predicate InChunks(sb: Superblock, t: Txns, inum: nat, off: nat, addr: seq<Byte>, n: nat)
    requires n <= |addr|
  {
    && |t.images| == |t.owners| == |t.logged| + 1
    && (forall k: nat {:trigger t.logged[k]} :: k < |t.logged| ==>
          && |t.logged[k]| <= 19 && (forall b :: b in t.logged[k] ==> sb.inodestart <= b < sb.size)
          && OnlyLogged(t.images[k].disk, t.images[k + 1].disk, t.logged[k]))
    && (forall k: nat {:trigger t.images[k]} :: k < |t.images| ==>
          && Owned(sb, t.images[k], t.owners[k])
          && WrittenTo(sb, t.images[0], t.owners[0], t.images[k], t.owners[k], inum, off, addr, Upto(k, n)))
  }

  lemma OneMoreChunk(sb: Superblock, t: Txns, inum: nat, off: nat, addr: seq<Byte>, n: nat,
                     s': Image, owner': map<nat, Pos>, logged: set<nat>)
    requires n <= |addr| && InChunks(sb, t, inum, off, addr, n) && |logged| <= 19
    requires forall b :: b in logged ==> sb.inodestart <= b < sb.size
    requires OnlyLogged(t.images[|t.logged|].disk, s'.disk, logged) && Owned(sb, s', owner')
    requires WrittenTo(sb, t.images[0], t.owners[0], s', owner', inum, off, addr, Upto(|t.logged| + 1, n))
    ensures InChunks(sb, Txns(t.images + [s'], t.owners + [owner'], t.logged + [logged]), inum, off, addr, n)
  {
    hide Owned, WrittenTo, OnlyLogged, Upto;
    var t' := Txns(t.images + [s'], t.owners + [owner'], t.logged + [logged]);
    forall k: nat | k < |t'.images|
      ensures Owned(sb, t'.images[k], t'.owners[k])
      ensures WrittenTo(sb, t'.images[0], t'.owners[0], t'.images[k], t'.owners[k], inum, off, addr, Upto(k, n))
    {
      assert k < |t.images| ==> t'.images[k] == t.images[k];
    }
    forall k: nat | k < |t'.logged|
      ensures |t'.logged[k]| <= 19 && (forall b :: b in t'.logged[k] ==> sb.inodestart <= b < sb.size)
      ensures OnlyLogged(t'.images[k].disk, t'.images[k + 1].disk, t'.logged[k])
    {
      assert k < |t.logged| ==> t'.logged[k] == t.logged[k] && t'.images[k + 1] == t.images[k + 1];
    }
  }

  /** Write n bytes of addr at the file's offset.  The bytes up to the stop are
      written as by one writei, the offset moves past them, and the result is n
      exactly when that is all of them; None is the panic "out of blocks". */
  method Filewrite(fs: FileSystem, f: File, addr: seq<Byte>, n: int) returns (r: Option<int>, ghost txns: Txns)
    requires fs.Valid() && f.inum < fs.sb.ninodes && n <= |addr| && n < 0x8000_0000
    requires fs.inodes[f.inum].kind % 0x1_0000 != T_DEV
    modifies fs`disk, fs`inodes, fs`owner, fs`logged, fs`base, fs`outstanding, f`off
    ensures fs.Valid() && (r.Some? ==> fs.outstanding == old(fs.outstanding))
    ensures r.Some? <==> !f.writable || n <= 0 || Fits(fs.sb, old(fs.Now()), f.inum, old(f.off), Stop(old(f.off), n))
    ensures !f.writable || n <= 0 ==>
      && r == Some(if f.writable && n == 0 then 0 else -1)
      && fs.Now() == old(fs.Now()) && f.off == old(f.off)
    ensures r.Some? && f.writable && n > 0 ==>
      var k := Stop(old(f.off), n);
      && r.value == (if k == n then n else -1)
      && f.off == old(f.off) + k
      && (k == 0 ==> fs.Now() == old(fs.Now()))
      && (k > 0 ==>
            WriteDone(fs.sb, old(fs.Now()), old(fs.owner), fs.Now(), fs.owner, f.inum, old(f.off), addr[..k]))
    ensures InChunks(fs.sb, txns, f.inum, old(f.off), addr, if n < 0 then 0 else n)
    ensures txns.images[0] == old(fs.Now()) && (r.Some? ==> txns.images[|txns.logged|] == fs.Now())
  {
    hide TreesOwned, OwnersPlaced, MapMarks, MapGrew, RootsGrew, OwnersOnPath, OnDisk, Overlaid, LoggedByWrite,
      WriteDone, Stuck, Fits;
    txns := Txns([fs.Now()], [fs.owner], []);
    if !f.writable {
      return Some(-1), txns;
    }
    ghost var s, owner, off := fs.Now(), fs.owner, f.off;
    ghost var total := if n < 0 then 0 else n;
    assert InChunks(fs.sb, txns, f.inum, off, addr, total);
    hide InChunks, OnlyLogged;
    var i := 0;
    while i < n
      invariant i == Upto(|txns.logged|, total)
      invariant fs.Valid() && f.off == off + i && fs.inodes[f.inum].kind == s.inodes[f.inum].kind
      invariant fs.outstanding == old(fs.outstanding)
      invariant i > 0 ==> off + i <= MAXBYTES
      invariant WrittenTo(fs.sb, s, owner, fs.Now(), fs.owner, f.inum, off, addr, i)
      invariant InChunks(fs.sb, txns, f.inum, off, addr, total)
      invariant |txns.images| == |txns.owners| == |txns.logged| + 1 && txns.images[0] == s && txns.owners[0] == owner
      invariant txns.images[|txns.logged|] == fs.Now()
      decreases n - i
    {
      var n1 := if n - i > CHUNK then CHUNK else n - i;
      var w := WriteChunk(fs, f.inum, f.off, addr, i, n1, s, owner, off);
      if w.None? {
        UptoNext(|txns.logged|, n);
        StuckFitsNot(fs.sb, s, owner, fs.Now(), fs.owner, f.inum, off, n, i, |txns.logged|);
        return None, txns;
      }
      if w.value < 0 {
        StopsHere(off, n, i, |txns.logged|);
        break;
      }
      UptoNext(|txns.logged|, n);
      OneMoreChunk(fs.sb, txns, f.inum, off, addr, total, fs.Now(), fs.owner, fs.logged);
      txns := Txns(txns.images + [fs.Now()], txns.owners + [fs.owner], txns.logged + [fs.logged]);
      f.off := f.off + w.value;
      i := i + w.value;
    }
    WrittenFits(fs.sb, s, owner, fs.Now(), fs.owner, f.inum, off, addr, i);
    return Some(if i == n then n else -1), txns;
  }

  lemma UptoNext(k: nat, n: nat)
    requires Upto(k, n) < n
    ensures Upto(k, n) == k * CHUNK
    ensures Upto(k + 1, n) == Upto(k, n) + if n - Upto(k, n) > CHUNK then CHUNK else n - Upto(k, n)
  {
  }

  /** The chunk at i is the first that does not fit. */
  lemma StopsHere(off: nat, n: nat, i: nat, c: nat)
    requires i < n && i == c * CHUNK && off + i + (if n - i > CHUNK then CHUNK else n - i) > MAXBYTES
    requires i > 0 ==> off + i <= MAXBYTES
    ensures Stop(off, n) == i
  {
    if off <= MAXBYTES {
      ChunksIn(MAXBYTES - off, c);
    }
  }

  lemma ChunksIn(m: nat, c: nat)
    requires c * CHUNK <= m < c * CHUNK + CHUNK
    ensures m / CHUNK * CHUNK == c * CHUNK
  {
    assert CHUNK == 1536;
    assert m / 1536 == c;
  }
}
