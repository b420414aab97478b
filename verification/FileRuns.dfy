/** Runs of readi, writei and itrunc over all files, from mkfs on. */
module FileRuns {
  import opened Blocks
  import opened Counting
  import opened FileTree
  import opened Alloc
  import opened Content
  import opened Advance
  import opened Demand
  import opened Dinode
  import opened Fs
  import opened ReadWrite
  import opened Truncate
  import opened LogBound

  datatype State = State(image: Image, owner: map<nat, Pos>)

  /** A call that came back: readi over the n bytes at off that the file has, writei, itrunc, the
      making of an inode, or a call that was refused. */
  datatype Act =
    | Reading(inum: nat, off: nat, n: nat)
    | Writing(inum: nat, off: nat, src: seq<Byte>)
    | Truncating(inum: nat)
    | Creating(inum: nat)
    | Refusing(inum: nat)

  /** The inode of a new file, with one link. */
  function NewFile(): (ip: Inode)
    ensures ip.Valid() && ip.kind == 2 && ip.size == 0 && ip.addrs == NoFile().addrs
    ensures ip.links / 0x1_0000 == 1 && ip.links % 0x1_0000 == 0
  {
    NoFile().(kind := 2, links := 0x1_0000)
  }

  /** File inum, an unused inode before, is a new file, on disk too; nothing else changed. */
  ghost predicate Created(sb: Superblock, s: State, s': State, inum: nat)
  {
    && Owned(sb, s.image, s.owner) && Owned(sb, s'.image, s'.owner) && s'.owner == s.owner && inum < sb.ninodes
    && s.image.inodes[inum] == NoFile() && s'.image.inodes == s.image.inodes[inum := NewFile()]
    && (forall j: nat {:trigger OnDisk(sb, s'.image.disk, j)} :: j < sb.ninodes ==>
          OnDisk(sb, s'.image.disk, j) == if j == inum then NewFile() else OnDisk(sb, s.image.disk, j))
    && TreesSame(sb, s.image, s'.image) && SameContent(sb, s.image, s'.image)
    && (forall k :: sb.bmapstart <= k < sb.size ==> s'.image.disk[k] == s.image.disk[k])
  }

  ghost predicate Step(sb: Superblock, s: State, a: Act, s': State) {
    match a
    case Reading(j, off, n) =>
      && Advanced(sb, s.image, s.owner, s'.image, s'.owner, j, off, n)
      && SameContent(sb, s.image, s'.image)
      && (s' == s <==> Empties(sb, s.image, j, off, n) == {})
      && off + n <= s.image.inodes[j].size
    case Writing(j, off, src) => WriteDone(sb, s.image, s.owner, s'.image, s'.owner, j, off, src)
    case Truncating(j) => Truncated(sb, s.image, s.owner, s'.image, s'.owner, j)
    case Creating(j) => Created(sb, s, s', j)
    case Refusing(j) => Owned(sb, s.image, s.owner) && s' == s
  }

  ghost predicate IsRun(sb: Superblock, ss: seq<State>, acts: seq<Act>) {
    && |ss| == |acts| + 1
    && Owned(sb, ss[0].image, ss[0].owner)
    && forall k: nat {:trigger acts[k]} :: k < |acts| ==> Step(sb, ss[k], acts[k], ss[k + 1])
  }

  /** File i has no hole, and its dinode agrees with the in-core inode. */
  ghost predicate Dense(sb: Superblock, s: State, i: nat)
    requires ValidImage(sb, s.image) && i < sb.ninodes
  {
    !Holes(s.image, i) && InSync(sb, s.image, i)
  }

  /** The act does not write file i behind its end. */
  predicate Appends(s: State, a: Act, i: nat)
    requires i < |s.image.inodes|
  {
    a.Writing? && a.inum == i ==> a.off <= s.image.inodes[i].size
  }

  /** Other files do not open holes in file i, nor does reading them. */
  lemma OthersKeepDense(sb: Superblock, s: State, a: Act, s': State, i: nat)
    requires Owned(sb, s.image, s.owner) && i < sb.ninodes && Dense(sb, s, i) && Step(sb, s, a, s') && a.inum != i
    ensures Owned(sb, s'.image, s'.owner) && Dense(sb, s', i)
  {
    hide TreesOwned, OwnersPlaced, MapMarks, OnDisk, SameContent, Overlaid, OwnersOnPath, RootsGrew, NodeAt;
    match a
    case Reading(j, off, n) =>
      FramedKeepsDinodes(sb, s.image, s'.image, j);
      forall bn: nat | bn < MAXFILE && FlatAt(s.image, i, bn) != 0 ensures FlatAt(s'.image, i, bn) != 0 {
      }
    case Writing(j, off, src) =>
      forall bn: nat | bn < MAXFILE && FlatAt(s.image, i, bn) != 0 ensures FlatAt(s'.image, i, bn) != 0 {
      }
    case Truncating(j) =>
      forall bn: nat | bn < MAXFILE && FlatAt(s.image, i, bn) != 0 ensures FlatAt(s'.image, i, bn) != 0 {
        SplitOfBlock(i, sb.ninodes, bn);
      }
    case Creating(j) =>
      forall bn: nat | bn < MAXFILE && FlatAt(s.image, i, bn) != 0 ensures FlatAt(s'.image, i, bn) != 0 {
        SplitOfBlock(i, sb.ninodes, bn);
      }
    case Refusing(j) =>
  }

  lemma StepKeepsDense(sb: Superblock, s: State, a: Act, s': State, i: nat)
    requires Owned(sb, s.image, s.owner) && i < sb.ninodes && Dense(sb, s, i) && Step(sb, s, a, s') && Appends(s, a, i)
    ensures Owned(sb, s'.image, s'.owner) && Dense(sb, s', i)
    ensures a.Reading? && a.inum == i ==> s' == s
  {
    hide TreesOwned, OwnersPlaced, MapMarks, OnDisk, SameContent, Overlaid, OwnersOnPath, RootsGrew, MapGrew, NodeAt;
    if a.inum != i {
      OthersKeepDense(sb, s, a, s', i);
    } else if a.Writing? {
      AppendKeepsFileDense(sb, s.image, s.owner, s'.image, s'.owner, i, a.off, a.src);
    } else if a.Reading? {
      DenseHasNoEmpty(sb, s.image, i, a.off, a.n);
    }
  }

  /** Over every run of calls on all the files, a file that starts without holes and in step
      with its dinode, and is written only at or below its end, stays so, and reading it
      changes nothing. */
  lemma {:induction false} DenseForever(sb: Superblock, ss: seq<State>, acts: seq<Act>, i: nat)
    requires IsRun(sb, ss, acts) && i < sb.ninodes && Dense(sb, ss[0], i)
    requires forall k: nat {:trigger acts[k]} :: k < |acts| && i < |ss[k].image.inodes| ==> Appends(ss[k], acts[k], i)
    ensures forall k: nat {:trigger ss[k]} :: k <= |acts| ==> Owned(sb, ss[k].image, ss[k].owner) && Dense(sb, ss[k], i)
    ensures forall k: nat {:trigger acts[k]} :: k < |acts| && acts[k].Reading? && acts[k].inum == i ==>
      ss[k + 1] == ss[k]
  {
    hide Step, Owned, Dense, Appends, Holes;
    OwnedIsValid(sb, ss[0].image, ss[0].owner);
    var k := 0;
    while k < |acts|
      invariant k <= |acts|
      invariant forall j: nat {:trigger ss[j]} :: j <= k ==>
        Owned(sb, ss[j].image, ss[j].owner) && ValidImage(sb, ss[j].image)
      invariant forall j: nat {:trigger ss[j]} :: j <= k ==> Dense(sb, ss[j], i)
      invariant forall j: nat {:trigger acts[j]} :: j < k && acts[j].Reading? && acts[j].inum == i ==>
        ss[j + 1] == ss[j]
    {
      StepKeepsDense(sb, ss[k], acts[k], ss[k + 1], i);
      OwnedIsValid(sb, ss[k + 1].image, ss[k + 1].owner);
      k := k + 1;
    }
  }

  /** mkfs leaves every file without holes and in step. */
  lemma MkfsIsDense(sb: Superblock, s: State, i: nat)
    requires ValidImage(sb, s.image) && i < sb.ninodes && s.image.inodes[i] == NoFile()
    requires s.image.disk[sb.inodestart + i / 8] == ZeroBlock()
    ensures Dense(sb, s, i)
  {
    var b := s.image.disk[sb.inodestart + i / 8];
    assert forall k: nat :: k < WORDS ==> WordAt(b, k) == 0;
    assert LoadInode(b, i % 8).addrs == NoFile().addrs;
  }

  /** Make inode inum a new file, as ialloc and create do; false is log_write's panic. */
  method Create(fs: FileSystem, inum: nat) returns (ok: bool)
    requires fs.Valid() && inum < fs.sb.ninodes && fs.inodes[inum] == NoFile()
    modifies fs`disk, fs`inodes, fs`logged
    ensures ok <==> fs.outstanding > 0
    ensures ok ==> fs.Valid() && Created(fs.sb, State(old(fs.Now()), fs.owner), State(fs.Now(), fs.owner), inum)
  {
    hide TreesOwned, OwnersPlaced, MapMarks, OnDisk, StoreInode, SameContent;
    ghost var s := fs.Now();
    fs.inodes := fs.inodes[inum := NewFile()];
    ghost var named := fs.Now();
    ResizeKeepsTrees(fs.sb, s, fs.owner, named, inum);
    ok := Iupdate(fs, inum);
    if ok {
      SameContentTransitive(fs.sb, s, named, fs.Now());
    }
  }

  /** A system call on a file, before it is made. */
  datatype Call =
    | ReadCall(inum: nat, off: Word, n: Word)
    | WriteCall(inum: nat, off: Word, src: seq<Byte>)
    | TruncCall(inum: nat)
    | CreateCall(inum: nat)

  /** What a call does if it comes back. */
  function ActOf(s: State, c: Call): Act
    requires c.inum < |s.image.inodes|
  {
    var ip := s.image.inodes[c.inum];
    match c
    case ReadCall(j, off, n) =>
      if off > ip.size || off + n >= 0x1_0000_0000 then Refusing(j)
      else Reading(j, off, if off + n > ip.size then ip.size - off else n)
    case WriteCall(j, off, src) => if off + |src| > MAXBYTES then Refusing(j) else Writing(j, off, src)
    case TruncCall(j) => Truncating(j)
    case CreateCall(j) => if ip == NoFile() then Creating(j) else Refusing(j)
  }

  /** Whether it comes back, where inOp says that another operation is under way. */
  ghost predicate Served(sb: Superblock, s: State, c: Call, inOp: bool)
    requires ValidImage(sb, s.image) && c.inum < sb.ninodes
  {
    match ActOf(s, c)
    case Reading(j, off, n) => Answers(sb, s.image, j, off, n, inOp)
    case Writing(j, off, src) => Accepts(sb, s.image, j, off, |src|, true)
    case _ => true
  }

  /** What it returns. */
  ghost predicate Returned(s: State, a: Act, r: int, dst: seq<Byte>)
    requires a.inum < |s.image.inodes| && |s.image.inodes[a.inum].addrs| == 13
  {
    match a
    case Reading(j, off, n) => r == n == |dst| && off + n <= MAXBYTES && IsSlice(s.image, j, off, dst)
    case Writing(_, _, src) => r == |src|
    case Refusing(_) => r == -1
    case _ => r == 0
  }

  /** Make one call: reads as they are, the others between begin_op and end_op.  None is a panic.
      Else the call did what it should, and what it logged is exactly what a writei logs. */
  method Perform(fs: FileSystem, c: Call) returns (r: Option<int>, dst: seq<Byte>)
    requires fs.Valid() && c.inum < fs.sb.ninodes && (c.WriteCall? ==> |c.src| < 0x1_0000_0000)
    requires fs.inodes[c.inum].kind % 0x1_0000 != T_DEV
    modifies fs`disk, fs`inodes, fs`owner, fs`logged, fs`base, fs`outstanding
    ensures var s := State(old(fs.Now()), old(fs.owner));
      && (r.Some? <==> Served(fs.sb, s, c, old(fs.outstanding) > 0))
      && (r.Some? ==>
            && fs.Valid() && fs.outstanding == old(fs.outstanding)
            && Step(fs.sb, s, ActOf(s, c), State(fs.Now(), fs.owner))
            && Returned(s, ActOf(s, c), r.value, dst)
            && (ActOf(s, c).Writing? ==>
                  LoggedByWrite(fs.sb, s.image, s.owner, fs.Now(), fs.owner, c.inum, c.off, |c.src|, {}, fs.logged)))
  {
    hide TreesOwned, OwnersPlaced, MapMarks, OnDisk, SameContent, Overlaid, OwnersOnPath, RootsGrew, MapGrew, NodeAt,
      Stuck, Holes, Framed, WriteDone, Truncated, LoggedByWrite, LoggedAlong, IsSlice, Empties, FreeBlocks, Created;
    dst := [];
    match c {
      case ReadCall(inum, off, n) =>
        r, dst := Readi(fs, inum, off, n);
      case WriteCall(inum, off, src) =>
        fs.BeginOp();
        r := Writei(fs, inum, src, off);
        fs.EndOp();
      case TruncCall(inum) =>
        fs.BeginOp();
        var ok := Itrunc(fs, inum);
        r := Some(0);
        fs.EndOp();
      case CreateCall(inum) =>
        if fs.inodes[inum] != NoFile() {
          return Some(-1), [];
        }
        fs.BeginOp();
        var ok := Create(fs, inum);
        r := Some(0);
        fs.EndOp();
    }
  }

  lemma StepKeepsKinds(sb: Superblock, s: State, a: Act, s': State)
    requires Step(sb, s, a, s')
    ensures |s'.image.inodes| == |s.image.inodes| == sb.ninodes
    ensures forall j :: 0 <= j < sb.ninodes ==>
      s'.image.inodes[j].kind == s.image.inodes[j].kind || s'.image.inodes[j].kind == 2
  {
    hide TreesOwned, OwnersPlaced, MapMarks, OnDisk, SameContent, Overlaid, OwnersOnPath, RootsGrew, MapGrew, NodeAt;
  }

  /** What mkfs leaves. */
  ghost predicate AfterMkfs(sb: Superblock, s: State)
  {
    && Owned(sb, s.image, s.owner) && s.owner == map[]
    && (forall i :: 0 <= i < sb.ninodes ==> s.image.inodes[i] == NoFile())
    && forall b :: 0 <= b < sb.size && b != sb.bmapstart ==> s.image.disk[b] == ZeroBlock()
  }

  lemma RunOn(sb: Superblock, ss: seq<State>, acts: seq<Act>, a: Act, s': State)
    requires IsRun(sb, ss, acts) && Step(sb, ss[|acts|], a, s')
    ensures IsRun(sb, ss + [s'], acts + [a])
  {
    hide Step, Owned;
    forall k: nat | k < |acts + [a]| ensures Step(sb, (ss + [s'])[k], (acts + [a])[k], (ss + [s'])[k + 1]) {
      assert k < |acts| ==> (acts + [a])[k] == acts[k];
    }
  }

  /** The acts are those of the first calls, each in its state. */
  ghost predicate Follows(ss: seq<State>, acts: seq<Act>, calls: seq<Call>)
  {
    && |acts| <= |calls| && |acts| < |ss|
    && forall j: nat {:trigger acts[j]} :: j < |acts| ==>
         calls[j].inum < |ss[j].image.inodes| && acts[j] == ActOf(ss[j], calls[j])
  }

  lemma FollowsOn(ss: seq<State>, acts: seq<Act>, calls: seq<Call>, a: Act, s': State)
    requires Follows(ss, acts, calls) && |ss| == |acts| + 1 && |acts| < |calls|
    requires calls[|acts|].inum < |ss[|acts|].image.inodes| && a == ActOf(ss[|acts|], calls[|acts|])
    ensures Follows(ss + [s'], acts + [a], calls)
  {
    hide ActOf;
    forall j: nat | j < |acts + [a]|
      ensures calls[j].inum < |(ss + [s'])[j].image.inodes| && (acts + [a])[j] == ActOf((ss + [s'])[j], calls[j])
    {
      assert j < |acts| ==> (acts + [a])[j] == acts[j] && (ss + [s'])[j] == ss[j];
    }
  }

  /** Make the calls in turn on the file system mkfs leaves, while no one else has an operation
      under way, up to the first that panics or writes file i behind its end.  Those made are a
      run of these calls from there; without a panic file i has no hole and its dinode is up to
      date, whatever was done to the other files. */
  method ServeFromMkfs(sb: Superblock, calls: seq<Call>, i: nat)
    returns (fs: FileSystem, k: nat, ok: bool, ghost ss: seq<State>, ghost acts: seq<Act>)
    requires sb.Valid() && sb.DataStart() < BPB && i < sb.ninodes
    requires forall c :: c in calls ==> c.inum < sb.ninodes && (c.WriteCall? ==> |c.src| < 0x1_0000_0000)
    ensures fs.sb == sb && k == |acts| <= |calls| && IsRun(sb, ss, acts) && AfterMkfs(sb, ss[0])
    ensures Follows(ss, acts, calls)
    ensures ok ==> fs.Valid() && ss[k] == State(fs.Now(), fs.owner) && Dense(sb, ss[k], i)
    ensures !ok ==> k < |calls| && ValidImage(sb, ss[k].image) && !Served(sb, ss[k], calls[k], false)
    ensures ok && k < |calls| ==> calls[k].WriteCall? && calls[k].inum == i && calls[k].off > fs.inodes[i].size
  {
    hide TreesOwned, OwnersPlaced, MapMarks, Dense, Step, ActOf, Served, Returned, LoggedByWrite;
    fs := new FileSystem.Mkfs(sb);
    ss, acts := [State(fs.Now(), fs.owner)], [];
    MkfsIsDense(sb, ss[0], i);
    assert AfterMkfs(sb, ss[0]) && IsRun(sb, ss, acts);
    hide AfterMkfs, IsRun, Follows;
    k, ok := 0, true;
    while k < |calls|
      invariant k == |acts| <= |calls| && ok && fs.sb == sb && fs.Valid() && fs.outstanding == 0
      invariant IsRun(sb, ss, acts) && AfterMkfs(sb, ss[0]) && |ss| == k + 1 && ss[k] == State(fs.Now(), fs.owner)
      invariant Follows(ss, acts, calls)
      invariant forall j :: 0 <= j < sb.ninodes ==> fs.inodes[j].kind == 0 || fs.inodes[j].kind == 2
      invariant Dense(sb, ss[k], i)
    {
      var c := calls[k];
      if c.WriteCall? && c.inum == i && c.off > fs.inodes[i].size {
        return;
      }
      ghost var a := ActOf(ss[k], c);
      var r, dst := Perform(fs, c);
      if r.None? {
        ok := false;
        return;
      }
      ghost var s' := State(fs.Now(), fs.owner);
      ActAppends(ss[k], c, i);
      StepKeepsDense(sb, ss[k], a, s', i);
      StepKeepsKinds(sb, ss[k], a, s');
      RunOn(sb, ss, acts, a, s');
      FollowsOn(ss, acts, calls, a, s');
      ss, acts, k := ss + [s'], acts + [a], k + 1;
    }
  }

  lemma ActAppends(s: State, c: Call, i: nat)
    requires c.inum < |s.image.inodes| && i < |s.image.inodes|
    requires !(c.WriteCall? && c.inum == i && c.off > s.image.inodes[i].size)
    ensures Appends(s, ActOf(s, c), i)
  {
  }

  /** On a file system fresh from mkfs every data block is free. */
  lemma MkfsFree(sb: Superblock, s: Image)
    requires Owned(sb, s, map[])
    ensures |FreeBlocks(sb, s.disk)| == sb.size - sb.DataStart()
  {
    hide TreesOwned, OwnersPlaced;
    IntervalSize(FreeBlocks(sb, s.disk), sb.DataStart(), sb.size);
  }

  lemma {:induction false} IntervalSize(a: set<nat>, lo: nat, hi: nat)
    requires lo <= hi && forall b: nat {:trigger b in a} :: b in a <==> lo <= b < hi
    ensures |a| == hi - lo
    decreases hi - lo
  {
    if lo < hi {
      IntervalSize(a - {hi - 1}, lo, hi - 1);
    } else {
      assert a == {};
    }
  }

  /** One byte of a direct block asks for one block. */
  lemma DirectByte(sb: Superblock, s: Image, inum: nat, off: nat)
    requires ValidImage(sb, s) && inum < sb.ninodes && off < NDIRECT * BSIZE
    ensures |Empties(sb, s, inum, off, 1)| <= 1
  {
    hide NodeAt;
    var p := Pos(inum, off / BSIZE, []);
    forall q | q in Empties(sb, s, inum, off, 1) ensures q == p {
      PathIsOnPath(inum, off, 1, q);
      var bn: nat :| bn < MAXFILE && Touched(off, 1, bn) && q.Above(DataPos(inum, bn));
      assert bn == off / BSIZE;
    }
    SubsetIsNoLarger(Empties(sb, s, inum, off, 1), {p});
  }

  /** A file of one byte behind a hole of one block. */
  ghost predicate OneHole(sb: Superblock, s: State)
  {
    && Owned(sb, s.image, s.owner) && sb.ninodes > 2
    && s.image.inodes[2].kind == 2 && s.image.inodes[2].size == 513 && s.image.inodes[2].addrs[0] == 0
    && InSync(sb, s.image, 2) && |FreeBlocks(sb, s.image.disk)| >= 1
  }

  /** The calls of all the runs below: make file 2, write one byte at 512. */
  method MakeHole(sb: Superblock) returns (fs: FileSystem, ghost ss: seq<State>, ghost acts: seq<Act>)
    requires sb.Valid() && sb.DataStart() < BPB && sb.DataStart() + 2 <= sb.size && sb.ninodes > 2
    ensures fresh(fs) && fs.sb == sb && fs.Valid() && fs.outstanding == 0
    ensures IsRun(sb, ss, acts) && AfterMkfs(sb, ss[0]) && |ss| == 3 && ss[2] == State(fs.Now(), fs.owner)
    ensures acts == [Creating(2), Writing(2, 512, [7])] && OneHole(sb, ss[2])
  {
    hide TreesOwned, OwnersPlaced, MapMarks, OnDisk, Overlaid, MapGrew, LoggedByWrite, Empties, FreeBlocks, SameContent;
    fs := new FileSystem.Mkfs(sb);
    ghost var s0 := State(fs.Now(), fs.owner);
    MkfsFree(sb, s0.image);
    var r, dst := Perform(fs, CreateCall(2));
    ghost var s1 := State(fs.Now(), fs.owner);
    SameFree(sb, s0, s1);
    DirectByte(sb, s1.image, 2, 512);
    r, dst := Perform(fs, WriteCall(2, 512, [7]));
    ghost var s2 := State(fs.Now(), fs.owner);
    TakesWhatItNeeds(sb, s1.image, s1.owner, s2.image, s2.owner, 2, 512, 1);
    SecondBlockOnly(sb, s1.image, s2.image);
    ss, acts := [s0, s1, s2], [Creating(2), Writing(2, 512, [7])];
    hide Step;
    assert forall k: nat {:trigger acts[k]} :: k < |acts| ==> Step(sb, ss[k], acts[k], ss[k + 1]);
  }

  lemma SameFree(sb: Superblock, s: State, s': State)
    requires Created(sb, s, s', 2)
    ensures FreeBlocks(sb, s'.image.disk) == FreeBlocks(sb, s.image.disk)
  {
    hide TreesOwned, OwnersPlaced, OnDisk, TreesSame, SameContent;
    forall b: nat | b < sb.size ensures InUse(sb, s'.image.disk, b) <==> InUse(sb, s.image.disk, b) {
    }
  }

  lemma HoleNeedsOne(sb: Superblock, s: State)
    requires OneHole(sb, s)
    ensures Empties(sb, s.image, 2, 0, 1) != {} && |Empties(sb, s.image, 2, 0, 1)| <= 1
  {
    DirectByte(sb, s.image, 2, 0);
    var p := DataPos(2, 0);
    assert Touched(0, 1, 0) && p.Above(p);
    PathIsOnPath(2, 0, 1, p);
    assert p in Empties(sb, s.image, 2, 0, 1);
  }

  /** Filling a hole below the end of a file leaves its dinode behind: the block is in the
      in-core inode and not on disk. */
  method StaleDinode(sb: Superblock) returns (fs: FileSystem, ghost ss: seq<State>, ghost acts: seq<Act>)
    requires sb.Valid() && sb.DataStart() < BPB && sb.DataStart() + 2 <= sb.size && sb.ninodes > 2
    ensures fs.sb == sb && fs.Valid() && IsRun(sb, ss, acts) && AfterMkfs(sb, ss[0])
    ensures acts == [Creating(2), Writing(2, 512, [7]), Writing(2, 0, [7])]
    ensures ss[3] == State(fs.Now(), fs.owner) && !InSync(sb, fs.Now(), 2)
  {
    hide TreesOwned, OwnersPlaced, MapMarks, OnDisk, Overlaid, MapGrew, LoggedByWrite, Empties, FreeBlocks, AfterMkfs;
    fs, ss, acts := MakeHole(sb);
    ghost var s := ss[2];
    HoleNeedsOne(sb, s);
    var r, dst := Perform(fs, WriteCall(2, 0, [7]));
    ghost var s' := State(fs.Now(), fs.owner);
    SyncedExactlyWhen(sb, s.image, s.owner, s'.image, s'.owner, 2, 0, [7]);
    assert Touched(0, 1, 0) && DataPos(2, 0).slot == 0;
    RunOn(sb, ss, acts, Writing(2, 0, [7]), s');
    ss, acts := ss + [s'], acts + [Writing(2, 0, [7])];
    hide IsRun, Step;
  }

  /** So does reading it while another process has an operation under way. */
  method StaleByReading(sb: Superblock) returns (fs: FileSystem, ghost ss: seq<State>, ghost acts: seq<Act>)
    requires sb.Valid() && sb.DataStart() < BPB && sb.DataStart() + 2 <= sb.size && sb.ninodes > 2
    ensures fs.sb == sb && fs.Valid() && IsRun(sb, ss, acts) && AfterMkfs(sb, ss[0])
    ensures acts == [Creating(2), Writing(2, 512, [7]), Reading(2, 0, 1)]
    ensures ss[3] == State(fs.Now(), fs.owner) && !InSync(sb, fs.Now(), 2)
  {
    hide TreesOwned, OwnersPlaced, MapMarks, OnDisk, Overlaid, MapGrew, LoggedByWrite, Empties, FreeBlocks, AfterMkfs;
    fs, ss, acts := MakeHole(sb);
    ghost var s := ss[2];
    HoleNeedsOne(sb, s);
    fs.BeginOp();
    var r, dst := Perform(fs, ReadCall(2, 0, 1));
    ghost var s' := State(fs.Now(), fs.owner);
    ReadSyncedExactlyWhen(sb, s.image, s.owner, s'.image, s'.owner, 2, 0, 1);
    assert Touched(0, 1, 0) && DataPos(2, 0).slot == 0;
    RunOn(sb, ss, acts, Reading(2, 0, 1), s');
    ss, acts := ss + [s'], acts + [Reading(2, 0, 1)];
    hide IsRun, Step;
  }

  /** And reading it while no one has: log_write panics, though blocks are free. */
  method HoleReadPanics(sb: Superblock)
    returns (fs: FileSystem, r: Option<int>, ghost ss: seq<State>, ghost acts: seq<Act>)
    requires sb.Valid() && sb.DataStart() < BPB && sb.DataStart() + 2 <= sb.size && sb.ninodes > 2
    ensures IsRun(sb, ss, acts) && AfterMkfs(sb, ss[0]) && acts == [Creating(2), Writing(2, 512, [7])]
    ensures ValidImage(sb, ss[2].image) && sb.ninodes > 2 && |FreeBlocks(sb, ss[2].image.disk)| >= 1
    ensures !Served(sb, ss[2], ReadCall(2, 0, 1), false) && Served(sb, ss[2], ReadCall(2, 0, 1), true) && r.None?
  {
    hide TreesOwned, OwnersPlaced, MapMarks, OnDisk, LoggedByWrite, Empties, FreeBlocks, AfterMkfs, Step, IsRun;
    var dst;
    fs, ss, acts := MakeHole(sb);
    HoleNeedsOne(sb, ss[2]);
    r, dst := Perform(fs, ReadCall(2, 0, 1));
  }

  lemma SecondBlockOnly(sb: Superblock, s: Image, s': Image)
    requires ValidImage(sb, s) && ValidImage(sb, s') && 2 < sb.ninodes && s.inodes[2].addrs[0] == 0
    requires RootsGrew(sb, s, s', 2, 512, 1)
    ensures s'.inodes[2].addrs[0] == 0
  {
    forall bn: nat | bn < MAXFILE && Touched(512, 1, bn) ensures DataPos(2, bn).slot != 0 {
      assert bn == 1;
    }
  }

  /** One chunk written into a new file, as pwrite can at any offset, logs more than begin_op set
      aside. */
  method OverrunFromMkfs(sb: Superblock) returns (fs: FileSystem, ghost ss: seq<State>, ghost acts: seq<Act>)
    requires sb.Valid() && sb.DataStart() < BPB && sb.DataStart() + 9 <= sb.size && sb.ninodes > 2
    ensures fs.sb == sb && fs.Valid() && IsRun(sb, ss, acts) && AfterMkfs(sb, ss[0])
    ensures acts == [Creating(2), Writing(2, EDGE * BSIZE + 1, seq(1536, _ => 0 as Byte))]
    ensures ss[2] == State(fs.Now(), fs.owner) && |fs.logged| >= 11
    ensures 2 < |ss[1].image.inodes| == |ss[2].image.inodes|
    ensures LoggedByWrite(sb, ss[1].image, ss[1].owner, ss[2].image, ss[2].owner, 2, EDGE * BSIZE + 1, 1536, {},
                          fs.logged)
  {
    hide TreesOwned, OwnersPlaced, MapMarks, OnDisk, LoggedByWrite, Empties, FreeBlocks, SameContent, WriteDone,
      WriteCost;
    fs := new FileSystem.Mkfs(sb);
    ghost var s0 := State(fs.Now(), fs.owner);
    MkfsFree(sb, s0.image);
    var r, dst := Perform(fs, CreateCall(2));
    ghost var s1 := State(fs.Now(), fs.owner);
    SameFree(sb, s0, s1);
    ChunkCanOutrunReservation(sb, s1.image, 2);
    var src := seq(1536, _ => 0 as Byte);
    r, dst := Perform(fs, WriteCall(2, EDGE * BSIZE + 1, src));
    ghost var s2 := State(fs.Now(), fs.owner);
    ReservationHoldsExactlyWhen(sb, s1.image, s1.owner, s2.image, s2.owner, 2, EDGE * BSIZE + 1, src, fs.logged);
    ss, acts := [s0, s1, s2], [Creating(2), Writing(2, EDGE * BSIZE + 1, src)];
    hide Step;
    assert forall k: nat {:trigger acts[k]} :: k < |acts| ==> Step(sb, ss[k], acts[k], ss[k + 1]);
  }
}
