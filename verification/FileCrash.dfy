/** A write that a crash cuts short: filewrite's transactions on the log. */
module FileCrash {
  import opened Blocks
  import opened FileTree
  import opened Alloc
  import opened Content
  import opened Dinode
  import opened Fs
  import opened Demand
  import opened LogBound
  import opened ReadWrite
  import opened FileWrite
  import Log
  import LogMachine
  import LogRuns

  /** The log lies in front of the inodes. */
  ghost predicate Layout(sb: Superblock, g: LogMachine.Geometry) {
    sb.Valid() && g.Valid() && g.nblocks == sb.size && g.start + g.size <= sb.inodestart
  }

  /** What the k-th transaction logged, as end_op finds it. */
  ghost function Group(t: Txns, k: nat): map<nat, Block>
    requires k < |t.logged| && k + 1 < |t.images|
    requires forall b :: b in t.logged[k] ==> 0 <= b < |t.images[k + 1].disk|
  {
    map b | b in t.logged[k] :: t.images[k + 1].disk[b]
  }

  /** The first m groups the log committed are the first m transactions. */
  ghost predicate Carries(gs: seq<map<nat, Block>>, t: Txns, m: nat)
  {
    && |gs| == m <= |t.logged| < |t.images|
    && forall k: nat {:trigger gs[k]} :: k < m ==>
         (forall b :: b in t.logged[k] ==> 0 <= b < |t.images[k + 1].disk|) && gs[k] == Group(t, k)
  }

  /** The home blocks of a disk image. */
  ghost predicate Agrees(g: LogMachine.Geometry, c: map<nat, Block>, d: seq<Block>) {
    |d| == g.nblocks && forall b: nat {:trigger b in c} :: g.Home(b) ==> b in c && c[b] == d[b]
  }

  /** The groups of m transactions laid over the first image are the m-th image. */
  lemma {:induction false} OverlayIsImage(sb: Superblock, g: LogMachine.Geometry, t: Txns, inum: nat, off: nat,
      addr: seq<Byte>, n: nat, c: map<nat, Block>, gs: seq<map<nat, Block>>)
    requires Layout(sb, g) && n <= |addr| && InChunks(sb, t, inum, off, addr, n)
    requires Carries(gs, t, |gs|) && Agrees(g, c, t.images[0].disk)
    ensures Agrees(g, LogRuns.Overlay(c, gs), t.images[|gs|].disk)
  {
    hide WrittenTo, Owned;
    if gs != [] {
      var m := |gs| - 1;
      CarriesFewer(gs, gs[..m], t);
      OverlayIsImage(sb, g, t, inum, off, addr, n, c, gs[..m]);
      var before, after := LogRuns.Overlay(c, gs[..m]), LogRuns.Overlay(c, gs);
      assert after == before + gs[m] && gs[m] == Group(t, m);
      assert |t.logged[m]| <= 19;
      forall b: nat | g.Home(b) ensures b in after && after[b] == t.images[m + 1].disk[b] {
        assert b in before;
      }
    }
  }

  /** Wherever a crash strikes a run of the log that carries filewrite's transactions and
      nothing else, a recovery leaves the home blocks as they were between two transactions:
      after as many whole chunks as header writes were done. */
  lemma CrashLeavesWholeChunks(sb: Superblock, g: LogMachine.Geometry, t: Txns, inum: nat, off: nat, addr: seq<Byte>,
      n: nat, ss: seq<LogMachine.State>, ls: seq<LogMachine.Label>, i: nat)
    requires Layout(sb, g) && n <= |addr| && InChunks(sb, t, inum, off, addr, n)
    requires LogRuns.IsRun(g, ss, ls) && LogMachine.Init(g, ss[0]) && i <= |ls| && ss[0].disk == t.images[0].disk
    requires Carries(LogRuns.GroupsOf(ls[..i]), t, |LogRuns.GroupsOf(ls[..i])|)
    ensures var m := |LogRuns.GroupsOf(ls[..i])|;
      && Agrees(g, LogMachine.Committed(g, ss[i].disk), t.images[m].disk)
      && WrittenTo(sb, t.images[0], t.owners[0], t.images[m], t.owners[m], inum, off, addr, Upto(m, n))
  {
    hide WrittenTo, Owned, LogMachine.Next, LogMachine.Committed, LogMachine.Inv, Carries;
    LogRuns.CrashAtomicity(g, ss, ls, i);
    var gs := LogRuns.GroupsOf(ls[..i]);
    StartAgrees(g, ss[0]);
    CarriedAreFew(gs, t);
    OverlayIsImage(sb, g, t, inum, off, addr, n, LogMachine.Committed(g, ss[0].disk), gs);
  }

  lemma CarriedAreFew(gs: seq<map<nat, Block>>, t: Txns)
    requires Carries(gs, t, |gs|)
    ensures |gs| < |t.images|
  {
  }

  lemma StartAgrees(g: LogMachine.Geometry, s: LogMachine.State)
    requires LogMachine.Init(g, s)
    ensures Agrees(g, LogMachine.Committed(g, s.disk), s.disk)
  {
    LogMachine.InitInv(g, s);
    LogRuns.IdleMeansHome(g, s);
  }

  /** The file system after the reboot: the recovered disk, and inodes as the disk has them. */
  ghost predicate Rebooted(sb: Superblock, s: Image, s': Image)
    requires sb.Valid() && |s.disk| == sb.size
  {
    && |s'.disk| == sb.size && |s'.inodes| == sb.ninodes
    && (forall b :: sb.inodestart <= b < sb.size ==> s'.disk[b] == s.disk[b])
    && forall j: nat {:trigger s'.inodes[j]} :: j < sb.ninodes ==> s'.inodes[j] == OnDisk(sb, s'.disk, j)
  }

  /** A file that was in step with its dinode reads after the reboot as it did before. */
  lemma RebootKeepsFile(sb: Superblock, s: Image, owner: map<nat, Pos>, s': Image, j: nat)
    requires Owned(sb, s, owner) && Rebooted(sb, s, s') && j < sb.ninodes && InSync(sb, s, j)
    ensures s'.inodes[j] == s.inodes[j]
    ensures forall x: nat {:trigger ByteAt(s', j, x)} :: x < MAXBYTES ==> ByteAt(s', j, x) == ByteAt(s, j, x)
  {
    hide MapMarks, LoadInode;
    assert s'.disk[sb.inodestart + j / 8] == s.disk[sb.inodestart + j / 8];
    assert s'.inodes[j] == s.inodes[j];
    forall x: nat | x < MAXBYTES ensures ByteAt(s', j, x) == ByteAt(s, j, x) {
      SplitOfBlock(j, sb.ninodes, x / BSIZE);
      SameNode(sb, s, owner, s', DataPos(j, x / BSIZE));
    }
  }

  lemma {:induction false} SameNode(sb: Superblock, s: Image, owner: map<nat, Pos>, s': Image, p: Pos)
    requires Owned(sb, s, owner) && Rebooted(sb, s, s') && p.Valid(sb.ninodes) && s'.inodes[p.inum] == s.inodes[p.inum]
    ensures NodeAt(s', p) == NodeAt(s, p)
    ensures NodeAt(s, p) != 0 ==> s'.disk[NodeAt(s, p)] == s.disk[NodeAt(s, p)]
    decreases |p.path|
  {
    hide MapMarks;
    if p.path != [] {
      SameNode(sb, s, owner, s', p.Parent());
    }
    if NodeAt(s, p) != 0 {
      OwnerOf(sb, s, owner, p);
    }
  }

  /** A crash left disk d, and the machine is up again: the home blocks are the committed ones, and
      the inodes as the disk has them. */
  ghost predicate Recovered(sb: Superblock, g: LogMachine.Geometry, d: seq<Block>, s': Image)
    requires Layout(sb, g) && |d| == g.nblocks
  {
    && Agrees(g, LogMachine.Committed(g, d), s'.disk) && |s'.inodes| == sb.ninodes
    && forall j: nat {:trigger s'.inodes[j]} :: j < sb.ninodes ==> s'.inodes[j] == OnDisk(sb, s'.disk, j)
  }

  /** In s' file inum is that of s with the first k bytes of addr written at off, size included. */
  ghost predicate HasWritten(sb: Superblock, s: Image, s': Image, inum: nat, off: nat, addr: seq<Byte>, k: nat)
    requires ValidImage(sb, s) && inum < sb.ninodes && k <= |addr|
  {
    && inum < |s'.inodes| && |s'.inodes[inum].addrs| == 13
    && s'.inodes[inum].size == NewSize(s.inodes[inum].size, off, addr[..k])
    && forall x: nat {:trigger ByteAt(s', inum, x)} :: x < MAXBYTES ==>
         ByteAt(s', inum, x) == if off <= x < off + k then addr[x - off] else ByteAt(s, inum, x)
  }

  /** So a write at or below the end of a file without holes, cut short by a crash at any step
      and recovered, is the write of a whole number of its chunks: the file has these bytes,
      its other bytes as before, and the size that goes with them. */
  lemma CrashedWriteIsPrefix(sb: Superblock, g: LogMachine.Geometry, t: Txns, inum: nat, off: nat, addr: seq<Byte>,
      n: nat, ss: seq<LogMachine.State>, ls: seq<LogMachine.Label>, i: nat, s': Image)
    requires Layout(sb, g) && n <= |addr| && InChunks(sb, t, inum, off, addr, n) && inum < sb.ninodes
    requires LogRuns.IsRun(g, ss, ls) && LogMachine.Init(g, ss[0]) && i <= |ls| && ss[0].disk == t.images[0].disk
    requires Carries(LogRuns.GroupsOf(ls[..i]), t, |LogRuns.GroupsOf(ls[..i])|)
    requires ValidImage(sb, t.images[0]) && !Holes(t.images[0], inum) && InSync(sb, t.images[0], inum)
    requires off <= t.images[0].inodes[inum].size && Recovered(sb, g, ss[i].disk, s')
    ensures HasWritten(sb, t.images[0], s', inum, off, addr, Upto(|LogRuns.GroupsOf(ls[..i])|, n))
  {
    hide LogMachine.Next, LogMachine.Committed, LogMachine.Inv, Carries, TreesOwned, OwnersPlaced, MapMarks, InChunks,
      Upto, Holes, OnDisk;
    CrashLeavesWholeChunks(sb, g, t, inum, off, addr, n, ss, ls, i);
    var m := |LogRuns.GroupsOf(ls[..i])|;
    CarriedAreFew(LogRuns.GroupsOf(ls[..i]), t);
    ImageIsOwned(sb, t, inum, off, addr, n, m);
    var s, mid, k := t.images[0], t.images[m], Upto(m, n);
    if k > 0 {
      AppendKeepsFileDense(sb, s, t.owners[0], mid, t.owners[m], inum, off, addr[..k]);
    }
    SameFileBlocks(sb, g, LogMachine.Committed(g, ss[i].disk), mid.disk, s'.disk);
    RebootKeepsFile(sb, mid, t.owners[m], s', inum);
  }

  lemma ImageIsOwned(sb: Superblock, t: Txns, inum: nat, off: nat, addr: seq<Byte>, n: nat, m: nat)
    requires n <= |addr| && InChunks(sb, t, inum, off, addr, n) && m < |t.images|
    ensures |t.owners| == |t.images| && Owned(sb, t.images[m], t.owners[m])
  {
    hide Owned, WrittenTo, OnlyLogged;
    assert t.images[m] == t.images[m];
  }

  lemma SameFileBlocks(sb: Superblock, g: LogMachine.Geometry, c: map<nat, Block>, d: seq<Block>, d': seq<Block>)
    requires Layout(sb, g) && Agrees(g, c, d) && Agrees(g, c, d')
    ensures |d| == |d'| == sb.size && forall b :: sb.inodestart <= b < sb.size ==> d'[b] == d[b]
  {
    forall b: nat | sb.inodestart <= b < sb.size ensures d'[b] == d[b] {
      assert g.Home(b) && b in c;
    }
  }

  // ---- the transactions on the log ----

  /** The blocks listed, as disk d has them. */
  ghost function Written(blocks: seq<nat>, d: seq<Block>): map<nat, Block>
    requires forall k :: 0 <= k < |blocks| ==> blocks[k] < |d|
  {
    map b | b in blocks :: d[b]
  }

  lemma WriteAdds(ls: seq<LogMachine.Label>, op: nat, b: nat, data: Block)
    ensures var ls' := ls + [LogMachine.Write(op, b, data)];
      LogRuns.PendingOf(ls') == LogRuns.PendingOf(ls)[b := data] && LogRuns.GroupsOf(ls') == LogRuns.GroupsOf(ls)
  {
    assert (ls + [LogMachine.Write(op, b, data)])[..|ls|] == ls;
  }

  /** The state after the write that a run ends with. */
  lemma LastWrite(g: LogMachine.Geometry, ss: seq<LogMachine.State>, ls: seq<LogMachine.Label>, op: nat, b: nat,
      data: Block)
    requires LogRuns.IsRun(g, ss, ls) && ls != [] && ls[|ls| - 1] == LogMachine.Write(op, b, data)
    ensures var s, s' := ss[|ls| - 1], ss[|ls|];
      s'.lh == LogMachine.Absorb(s.lh, b) && |s'.ops| == |s.ops|
  {
  }

  /** One log_write of the next block. */
  method CarryBlock(lg: Log.RedoLog, b: nat, data: Block) returns (ok: bool)
    requires lg.Valid() && lg.outstanding == 1 && lg.g.Home(b) && b !in lg.lh
    modifies lg
    ensures lg.Valid() && old(lg.ls) <= lg.ls && old(lg.ss) <= lg.ss && (ok <==> |old(lg.lh)| < lg.g.Room())
    ensures ok ==>
      && lg.outstanding == 1 && lg.lh == old(lg.lh) + [b]
      && LogRuns.PendingOf(lg.ls) == old(LogRuns.PendingOf(lg.ls))[b := data]
      && LogRuns.GroupsOf(lg.ls) == old(LogRuns.GroupsOf(lg.ls))
  {
    hide LogRuns.PendingOf, LogRuns.GroupsOf, LogMachine.Next, LogMachine.Inv, LogMachine.Init;
    ghost var ss, ls := lg.ss, lg.ls;
    ok := lg.LogWrite(0, b, data);
    if ok {
      LastWrite(lg.g, lg.ss, lg.ls, 0, b, data);
      WriteAdds(ls, 0, b, data);
      assert lg.ss[|ls|] == ss[|ls|];
    }
  }

  /** begin_op, one log_write for each of the blocks, end_op, on a log at rest.  It panics exactly
      if the blocks are more than the log holds; else the log commits them as one group. */
  method CarryOne(lg: Log.RedoLog, blocks: seq<nat>, d: seq<Block>) returns (ok: bool)
    requires lg.Valid() && AtRest(lg.outstanding, lg.lh, lg.ls)
    requires blocks != [] && |d| == lg.g.nblocks && Listable(lg.g, blocks)
    modifies lg
    ensures lg.Valid() && old(lg.ls) <= lg.ls && old(lg.ss) <= lg.ss && (ok <==> |blocks| <= lg.g.Room())
    ensures ok ==>
      && AtRest(lg.outstanding, lg.lh, lg.ls)
      && LogRuns.GroupsOf(lg.ls) == LogRuns.GroupsOf(old(lg.ls)) + [Written(blocks, d)]
  {
    hide LogRuns.PendingOf, LogRuns.GroupsOf, LogRuns.IsRun, LogMachine.Inv, LogMachine.Init, Log.CommitSteps;
    RestIsQuiet(lg.g, lg.Now());
    ghost var ls0 := lg.ls;
    ok := lg.BeginOp();
    Log.OneStep(ls0, LogMachine.Begin);
    var i := 0;
    assert Written(blocks[..0], d) == map[];
    while i < |blocks|
      invariant 0 <= i <= |blocks| && lg.Valid() && lg.outstanding == 1 && ok && ls0 <= lg.ls && old(lg.ss) <= lg.ss
      invariant lg.lh == blocks[..i] && i <= lg.g.Room()
      invariant LogRuns.PendingOf(lg.ls) == Written(blocks[..i], d)
      invariant LogRuns.GroupsOf(lg.ls) == LogRuns.GroupsOf(ls0)
    {
      NotYet(blocks, i);
      ok := CarryBlock(lg, blocks[i], d[blocks[i]]);
      if !ok {
        return;
      }
      WrittenNext(blocks, d, i);
      i := i + 1;
    }
    assert blocks[..i] == blocks;
    ghost var ls1 := lg.ls;
    lg.EndOp(0);
    Log.OneStep(ls1, LogMachine.End(0));
    Log.GroupsAfterEnd(ls1 + [LogMachine.End(0)], |blocks|);
    assert lg.ls == ls1 + [LogMachine.End(0)] + (Log.CommitSteps(|blocks|) + [LogMachine.Finish]);
  }

  /** No operation is under way, and nothing is logged that is not committed. */
  ghost predicate AtRest(outstanding: nat, lh: seq<nat>, ls: seq<LogMachine.Label>) {
    outstanding == 0 && lh == [] && LogRuns.PendingOf(ls) == map[]
  }

  ghost predicate Listable(g: LogMachine.Geometry, blocks: seq<nat>) {
    && (forall k :: 0 <= k < |blocks| ==> g.Home(blocks[k]))
    && forall j, k :: 0 <= j < k < |blocks| ==> blocks[j] != blocks[k]
  }

  lemma RestIsQuiet(g: LogMachine.Geometry, s: LogMachine.State)
    requires LogMachine.Inv(g, s) && s.pc.Idle?
    ensures !s.committing && g.Room() >= 0
  {
  }

  lemma NotYet(blocks: seq<nat>, i: nat)
    requires i < |blocks| && forall j, k :: 0 <= j < k < |blocks| ==> blocks[j] != blocks[k]
    ensures blocks[i] !in blocks[..i]
  {
  }

  lemma WrittenNext(blocks: seq<nat>, d: seq<Block>, i: nat)
    requires i < |blocks| && forall k :: 0 <= k < |blocks| ==> blocks[k] < |d|
    ensures Written(blocks[..i + 1], d) == Written(blocks[..i], d)[blocks[i] := d[blocks[i]]]
    ensures blocks[..i + 1] == blocks[..i] + [blocks[i]]
  {
  }

  /** The k-th list names the blocks the k-th transaction logged, and disks[k] has them. */
  ghost predicate Lists(g: LogMachine.Geometry, t: Txns, blocks: seq<seq<nat>>, disks: seq<seq<Block>>) {
    && |blocks| == |disks| == |t.logged| && |t.images| == |t.logged| + 1
    && forall k: nat {:trigger blocks[k]} :: k < |blocks| ==>
         && blocks[k] != [] && Listable(g, blocks[k]) && |blocks[k]| <= g.Room()
         && (forall b :: b in t.logged[k] <==> b in blocks[k])
         && disks[k] == t.images[k + 1].disk && |disks[k]| == g.nblocks
  }

  /** The transactions one after the other on a log at rest without groups: whatever they are, the
      log carries them, so that CrashedWriteIsPrefix says what a crash at any step leaves. */
  method CarryAll(lg: Log.RedoLog, blocks: seq<seq<nat>>, disks: seq<seq<Block>>, ghost t: Txns)
    requires lg.Valid() && AtRest(lg.outstanding, lg.lh, lg.ls) && LogRuns.GroupsOf(lg.ls) == []
    requires Lists(lg.g, t, blocks, disks)
    modifies lg
    ensures lg.Valid() && Carries(LogRuns.GroupsOf(lg.ls), t, |t.logged|)
    ensures forall i: nat {:trigger lg.ls[..i]} :: i <= |lg.ls| ==>
      var gs := LogRuns.GroupsOf(lg.ls[..i]); Carries(gs, t, |gs|)
  {
    hide LogRuns.PendingOf, LogRuns.GroupsOf, LogRuns.IsRun, LogMachine.Inv, LogMachine.Init, AtRest;
    var k := 0;
    while k < |blocks|
      invariant 0 <= k <= |blocks| && lg.Valid() && AtRest(lg.outstanding, lg.lh, lg.ls)
      invariant Carries(LogRuns.GroupsOf(lg.ls), t, k)
    {
      ghost var gs := LogRuns.GroupsOf(lg.ls);
      var ok := CarryOne(lg, blocks[k], disks[k]);
      GroupIsWritten(lg.g, t, blocks, disks, k);
      CarriesMore(gs, t, k, Written(blocks[k], disks[k]));
      k := k + 1;
    }
    forall i: nat | i <= |lg.ls| ensures var gs := LogRuns.GroupsOf(lg.ls[..i]); Carries(gs, t, |gs|) {
      GroupsGrow(lg.ls, i);
      CarriesFewer(LogRuns.GroupsOf(lg.ls), LogRuns.GroupsOf(lg.ls[..i]), t);
    }
  }

  lemma CarriesMore(gs: seq<map<nat, Block>>, t: Txns, k: nat, group: map<nat, Block>)
    requires Carries(gs, t, k) && k < |t.logged| && forall b :: b in t.logged[k] ==> 0 <= b < |t.images[k + 1].disk|
    requires group == Group(t, k)
    ensures Carries(gs + [group], t, k + 1)
  {
    var gs' := gs + [group];
    forall j: nat | j < |gs'|
      ensures (forall b :: b in t.logged[j] ==> 0 <= b < |t.images[j + 1].disk|) && gs'[j] == Group(t, j)
    {
      assert j < k ==> gs'[j] == gs[j];
    }
  }

  lemma CarriesFewer(gs: seq<map<nat, Block>>, some: seq<map<nat, Block>>, t: Txns)
    requires Carries(gs, t, |gs|) && some <= gs
    ensures Carries(some, t, |some|)
  {
    forall k: nat | k < |some|
      ensures (forall b :: b in t.logged[k] ==> 0 <= b < |t.images[k + 1].disk|) && some[k] == Group(t, k)
    {
      assert some[k] == gs[k];
    }
  }

  lemma GroupIsWritten(g: LogMachine.Geometry, t: Txns, blocks: seq<seq<nat>>, disks: seq<seq<Block>>, k: nat)
    requires Lists(g, t, blocks, disks) && k < |blocks|
    ensures forall b :: b in t.logged[k] ==> 0 <= b < |t.images[k + 1].disk|
    ensures Group(t, k) == Written(blocks[k], disks[k])
  {
  }

  lemma {:induction false} GroupsGrow(ls: seq<LogMachine.Label>, i: nat)
    requires i <= |ls|
    ensures LogRuns.GroupsOf(ls[..i]) <= LogRuns.GroupsOf(ls)
  {
    if i < |ls| {
      GroupsGrow(ls[..|ls| - 1], i);
      assert ls[..|ls| - 1][..i] == ls[..i];
    } else {
      assert ls[..i] == ls;
    }
  }

  // ---- filewrite on the log ----

  /** The elements of a set, once each. */
  method Listing(a: set<nat>) returns (l: seq<nat>)
    ensures |l| == |a| && (forall x :: x in l <==> x in a)
    ensures forall j, k :: 0 <= j < k < |l| ==> l[j] != l[k]
  {
    var rest := a;
    l := [];
    while rest != {}
      invariant |l| + |rest| == |a| && rest <= a && forall x :: x in l <==> x in a && x !in rest
      invariant forall j, k :: 0 <= j < k < |l| ==> l[j] != l[k]
      decreases |rest|
    {
      var x :| x in rest;
      assert x !in l;
      l, rest := l + [x], rest - {x};
    }
  }

  /** Every crash along the run (ss, ls) leaves the write of a whole number of chunks. */
  ghost predicate CrashSafe(sb: Superblock, g: LogMachine.Geometry, ss: seq<LogMachine.State>, s: Image, inum: nat,
      off: nat, addr: seq<Byte>, n: nat)
    requires Layout(sb, g) && ValidImage(sb, s) && inum < sb.ninodes && n <= |addr|
  {
    forall i: nat, s': Image {:trigger Recovered(sb, g, ss[i].disk, s')} ::
      i < |ss| && |ss[i].disk| == g.nblocks && Recovered(sb, g, ss[i].disk, s') ==>
        exists m: nat {:trigger Upto(m, n)} :: HasWritten(sb, s, s', inum, off, addr, Upto(m, n))
  }

  lemma CarriedIsSafe(sb: Superblock, g: LogMachine.Geometry, t: Txns, inum: nat, off: nat, addr: seq<Byte>, n: nat,
                      ss: seq<LogMachine.State>, ls: seq<LogMachine.Label>)
    requires Layout(sb, g) && n <= |addr| && InChunks(sb, t, inum, off, addr, n) && inum < sb.ninodes
    requires LogRuns.IsRun(g, ss, ls) && LogMachine.Init(g, ss[0]) && ss[0].disk == t.images[0].disk
    requires |t.images| == |t.logged| + 1 && Carries(LogRuns.GroupsOf(ls), t, |t.logged|)
    requires ValidImage(sb, t.images[0]) && !Holes(t.images[0], inum) && InSync(sb, t.images[0], inum)
    requires off <= t.images[0].inodes[inum].size
    ensures CrashSafe(sb, g, ss, t.images[0], inum, off, addr, n)
  {
    hide InChunks, Carries, Recovered, HasWritten, Holes, InSync, LogMachine.Init, LogMachine.Next;
    forall i: nat, s': Image | i < |ss| && |ss[i].disk| == g.nblocks && Recovered(sb, g, ss[i].disk, s')
      ensures exists m: nat {:trigger Upto(m, n)} :: HasWritten(sb, t.images[0], s', inum, off, addr, Upto(m, n))
    {
      GroupsGrow(ls, i);
      AllCarried(LogRuns.GroupsOf(ls), t);
      CarriesFewer(LogRuns.GroupsOf(ls), LogRuns.GroupsOf(ls[..i]), t);
      CrashedWriteIsPrefix(sb, g, t, inum, off, addr, n, ss, ls, i, s');
    }
  }

  lemma AllCarried(gs: seq<map<nat, Block>>, t: Txns)
    requires Carries(gs, t, |t.logged|)
    ensures |gs| == |t.logged|
  {
  }

  /** The home blocks of two disks are the same. */
  ghost predicate SameHome(g: LogMachine.Geometry, d: seq<Block>, d': seq<Block>) {
    |d| == |d'| == g.nblocks && forall b: nat {:trigger d'[b]} :: g.Home(b) ==> d'[b] == d[b]
  }

  /** Once the log is at rest the home blocks are those of the last transaction. */
  lemma AllAtHome(sb: Superblock, g: LogMachine.Geometry, t: Txns, inum: nat, off: nat, addr: seq<Byte>, n: nat,
                  ss: seq<LogMachine.State>, ls: seq<LogMachine.Label>)
    requires Layout(sb, g) && n <= |addr| && InChunks(sb, t, inum, off, addr, n)
    requires LogRuns.IsRun(g, ss, ls) && LogMachine.Init(g, ss[0]) && |t.images| == |t.logged| + 1
    requires ss[0].disk == t.images[0].disk && Carries(LogRuns.GroupsOf(ls), t, |t.logged|)
    requires LogMachine.Inv(g, ss[|ls|]) && ss[|ls|].pc.Idle?
    ensures SameHome(g, t.images[|t.logged|].disk, ss[|ls|].disk)
  {
    hide InChunks, Carries, LogMachine.Init, LogMachine.Next, LogMachine.Inv, LogMachine.Committed, WrittenTo;
    AllCarried(LogRuns.GroupsOf(ls), t);
    assert ls[..|ls|] == ls;
    CrashLeavesWholeChunks(sb, g, t, inum, off, addr, n, ss, ls, |ls|);
    LogRuns.IdleMeansHome(g, ss[|ls|]);
    forall b: nat | g.Home(b) ensures ss[|ls|].disk[b] == t.images[|t.logged|].disk[b] {
      assert b in LogMachine.Committed(g, ss[|ls|].disk);
    }
  }

  /** The transactions t are made on fs and carried by lg, which began with the image t began with. */
  ghost predicate InStep(fs: FileSystem, lg: Log.RedoLog, t: Txns, inum: nat, off: nat, addr: seq<Byte>, n: nat)
    requires n <= |addr|
    reads fs, lg
  {
    && fs.Valid() && lg.Valid() && Layout(fs.sb, lg.g) && lg.g.Room() >= 19 && inum < fs.sb.ninodes
    && InChunks(fs.sb, t, inum, off, addr, n) && Carries(LogRuns.GroupsOf(lg.ls), t, |t.logged|)
    && |t.images| == |t.owners| == |t.logged| + 1
    && t.images[|t.logged|] == fs.Now() && t.owners[|t.logged|] == fs.owner && lg.ss[0].disk == t.images[0].disk
    && AtRest(lg.outstanding, lg.lh, lg.ls)
    && WrittenTo(fs.sb, t.images[0], t.owners[0], fs.Now(), fs.owner, inum, off, addr, Upto(|t.logged|, n))
  }

  /** The next chunk, on the file system and on the log. */
  method ChunkOnLog(fs: FileSystem, lg: Log.RedoLog, inum: nat, at: Word, addr: seq<Byte>, n: nat, i: nat,
                    ghost t: Txns, ghost off: nat) returns (w: Option<int>, ghost t': Txns)
    requires n <= |addr| && InStep(fs, lg, t, inum, off, addr, n)
    requires i == Upto(|t.logged|, n) < n && at == off + i && fs.inodes[inum].kind % 0x1_0000 != T_DEV
    modifies fs`disk, fs`inodes, fs`owner, fs`logged, fs`base, fs`outstanding, lg
    ensures var n1 := if n - i > CHUNK then CHUNK else n - i;
      && fs.Valid() && lg.Valid() && lg.ss[0] == old(lg.ss[0])
      && (off + i + n1 > MAXBYTES ==> w == Some(-1))
      && (w.None? ==>
            && lg.ls == old(lg.ls) && lg.ss == old(lg.ss)
            && Stuck(fs.sb, t.images[0], t.owners[0], fs.Now(), fs.owner, inum, off, i + n1, true))
      && (w.Some? && w.value < 0 ==> off + i + n1 > MAXBYTES && t' == t && InStep(fs, lg, t, inum, off, addr, n))
      && (w.Some? && w.value >= 0 ==>
            && w.value == n1 && off + i + n1 <= MAXBYTES && InStep(fs, lg, t', inum, off, addr, n)
            && |t'.logged| == |t.logged| + 1 && t'.images[0] == t.images[0] && t'.owners[0] == t.owners[0])
      && (w.Some? ==> fs.inodes[inum].kind == old(fs.inodes[inum].kind))
  {
    hide TreesOwned, OwnersPlaced, MapMarks, WriteDone, Stuck, WriteCost, InChunks, OnlyLogged, Carries, AtRest,
      LogRuns.IsRun, LogMachine.Init, LogMachine.Inv;
    t' := t;
    var n1 := if n - i > CHUNK then CHUNK else n - i;
    w := WriteChunk(fs, inum, at, addr, i, n1, t.images[0], t.owners[0], off);
    if w.Some? && w.value >= 0 {
      UptoNext(|t.logged|, n);
      OneMoreChunk(fs.sb, t, inum, off, addr, n, fs.Now(), fs.owner, fs.logged);
      CarryChunk(fs, lg, t);
      t' := Txns(t.images + [fs.Now()], t.owners + [fs.owner], t.logged + [fs.logged]);
    }
  }

  /** filewrite with its transactions carried by the log, from an empty log on: at every step of
      the run, also if it ends in the panic "out of blocks", a crash and a recovery leave the write
      of a whole number of chunks; and once it returns the home blocks are the file system's. */
  method FilewriteOnLog(fs: FileSystem, f: File, addr: seq<Byte>, n: nat, g: LogMachine.Geometry)
    returns (r: Option<int>, lg: Log.RedoLog)
    requires fs.Valid() && f.inum < fs.sb.ninodes && n <= |addr| && n < 0x8000_0000 && f.writable
    requires fs.inodes[f.inum].kind % 0x1_0000 != T_DEV
    requires Layout(fs.sb, g) && g.Room() >= 19 && WordAt(fs.disk[g.start], 0) == 0
    requires !Holes(fs.Now(), f.inum) && InSync(fs.sb, fs.Now(), f.inum) && f.off <= fs.inodes[f.inum].size
    modifies fs`disk, fs`inodes, fs`owner, fs`logged, fs`base, fs`outstanding, f`off
    ensures fs.Valid() && fresh(lg) && lg.Valid() && lg.g == g && lg.ss[0].disk == old(fs.disk)
    ensures CrashSafe(fs.sb, g, lg.ss, old(fs.Now()), f.inum, old(f.off), addr, n)
    ensures r.Some? <==> Fits(fs.sb, old(fs.Now()), f.inum, old(f.off), Stop(old(f.off), n))
    ensures r.Some? ==>
      var k := Stop(old(f.off), n);
      && r.value == (if k == n then n else -1) && f.off == old(f.off) + k
      && WrittenTo(fs.sb, old(fs.Now()), old(fs.owner), fs.Now(), fs.owner, f.inum, old(f.off), addr, k)
      && SameHome(g, fs.disk, lg.disk)
  {
    hide TreesOwned, OwnersPlaced, MapMarks, Holes, OnDisk, WriteDone, InSync, CrashSafe, SameHome, LogMachine.Next,
      Fits, Stop, Upto;
    ghost var s, owner, off := fs.Now(), fs.owner, f.off;
    lg := EmptyLog(g, fs.disk);
    StartsInStep(fs, lg, f.inum, off, addr, n);
    var ok, i;
    ghost var t;
    ok, i, t := ChunksOnLog(fs, f, lg, addr, n, Txns([s], [owner], []));
    CarriedIsSafe(fs.sb, g, t, f.inum, off, addr, n, lg.ss, lg.ls);
    if !ok {
      return None, lg;
    }
    AllAtHome(fs.sb, g, t, f.inum, off, addr, n, lg.ss, lg.ls);
    WrittenFits(fs.sb, s, owner, fs.Now(), fs.owner, f.inum, off, addr, i);
    return Some(if i == n then n else -1), lg;
  }

  lemma StartsInStep(fs: FileSystem, lg: Log.RedoLog, inum: nat, off: nat, addr: seq<Byte>, n: nat)
    requires fs.Valid() && inum < fs.sb.ninodes && n <= |addr| && lg.Valid() && Layout(fs.sb, lg.g) && lg.g.Room() >= 19
    requires lg.ss[0].disk == fs.disk && AtRest(lg.outstanding, lg.lh, lg.ls) && LogRuns.GroupsOf(lg.ls) == []
    ensures InStep(fs, lg, Txns([fs.Now()], [fs.owner], []), inum, off, addr, n)
  {
  }

  /** filewrite's loop on the log: i is how far it got. */
  method ChunksOnLog(fs: FileSystem, f: File, lg: Log.RedoLog, addr: seq<Byte>, n: nat, ghost t0: Txns)
    returns (ok: bool, i: nat, ghost t: Txns)
    requires n <= |addr| && t0.logged == [] && InStep(fs, lg, t0, f.inum, f.off, addr, n)
    requires fs.inodes[f.inum].kind % 0x1_0000 != T_DEV
    modifies fs`disk, fs`inodes, fs`owner, fs`logged, fs`base, fs`outstanding, f`off, lg
    ensures fs.Valid() && lg.Valid() && lg.ss[0] == old(lg.ss[0])
    ensures t.images != [] && t.images[0] == t0.images[0] && |t.images| == |t.logged| + 1
    ensures InChunks(fs.sb, t, f.inum, old(f.off), addr, n) && Carries(LogRuns.GroupsOf(lg.ls), t, |t.logged|)
    ensures !ok ==> !Fits(fs.sb, t.images[0], f.inum, old(f.off), Stop(old(f.off), n))
    ensures ok ==> i == Stop(old(f.off), n) && f.off == old(f.off) + i && t.images[|t.logged|] == fs.Now()
    ensures ok ==> WrittenTo(fs.sb, t0.images[0], t0.owners[0], fs.Now(), fs.owner, f.inum, old(f.off), addr, i)
  {
    hide TreesOwned, OwnersPlaced, MapMarks, WriteDone, Fits, Stuck, InChunks, Carries, AtRest, LogRuns.IsRun,
      LogMachine.Init, LogMachine.Inv, Stop;
    ghost var off := f.off;
    t, i := t0, 0;
    while i < n
      invariant i == Upto(|t.logged|, n) && InStep(fs, lg, t, f.inum, off, addr, n) && lg.ss[0] == old(lg.ss[0])
      invariant f.off == off + i && fs.inodes[f.inum].kind == old(fs.inodes[f.inum].kind)
      invariant i > 0 ==> off + i <= MAXBYTES
      invariant t.images[0] == t0.images[0] && t.owners[0] == t0.owners[0]
      decreases n - i
    {
      ghost var t1 := t;
      var w;
      w, t := ChunkOnLog(fs, lg, f.inum, f.off, addr, n, i, t, off);
      UptoNext(|t1.logged|, n);
      if w.None? {
        StuckFitsNot(fs.sb, t1.images[0], t1.owners[0], fs.Now(), fs.owner, f.inum, off, n, i, |t1.logged|);
        return false, i, t1;
      }
      if w.value < 0 {
        StopsHere(off, n, i, |t1.logged|);
        break;
      }
      f.off := f.off + w.value;
      i := i + w.value;
    }
    ok := true;
  }

  method EmptyLog(g: LogMachine.Geometry, d: seq<Block>) returns (lg: Log.RedoLog)
    requires g.Valid() && |d| == g.nblocks && WordAt(d[g.start], 0) == 0
    ensures fresh(lg) && lg.Valid() && lg.g == g && lg.ss[0].disk == d && AtRest(lg.outstanding, lg.lh, lg.ls)
    ensures LogRuns.GroupsOf(lg.ls) == []
  {
    ghost var s0 := LogMachine.State(d, [], map[], [], false, LogMachine.Idle);
    lg := new Log.RedoLog.Initlog(g, d, [s0], []);
    ghost var m :| lg.ls == [] + Log.RestartSteps(m);
    Log.RestartKeepsGroups([], m);
  }

  /** The transaction that has just been made, on the log. */
  method CarryChunk(fs: FileSystem, lg: Log.RedoLog, ghost t: Txns)
    requires fs.sb.Valid() && Layout(fs.sb, lg.g) && lg.g.Room() >= 19 && |fs.disk| == fs.sb.size
    requires 0 < |fs.logged| <= 19 && forall b :: b in fs.logged ==> fs.sb.inodestart <= b < fs.sb.size
    requires lg.Valid() && AtRest(lg.outstanding, lg.lh, lg.ls)
    requires |t.images| == |t.logged| + 1 && Carries(LogRuns.GroupsOf(lg.ls), t, |t.logged|)
    modifies lg
    ensures lg.Valid() && AtRest(lg.outstanding, lg.lh, lg.ls) && old(lg.ss) <= lg.ss
    ensures var t' := Txns(t.images + [fs.Now()], t.owners + [fs.owner], t.logged + [fs.logged]);
      Carries(LogRuns.GroupsOf(lg.ls), t', |t'.logged|)
  {
    hide AtRest;
    ghost var gs := LogRuns.GroupsOf(lg.ls);
    var blocks := Listing(fs.logged);
    forall k | 0 <= k < |blocks| ensures lg.g.Home(blocks[k]) {
      assert blocks[k] in fs.logged;
    }
    var ok := CarryOne(lg, blocks, fs.disk);
    CarriesOn(gs, t, fs.Now(), fs.owner, fs.logged, blocks);
  }

  lemma CarriesOn(gs: seq<map<nat, Block>>, t: Txns, s': Image, owner': map<nat, Pos>, logged: set<nat>,
                  blocks: seq<nat>)
    requires |t.images| == |t.logged| + 1 && Carries(gs, t, |t.logged|)
    requires (forall x :: x in blocks <==> x in logged) && forall k :: 0 <= k < |blocks| ==> blocks[k] < |s'.disk|
    ensures var t' := Txns(t.images + [s'], t.owners + [owner'], t.logged + [logged]);
      Carries(gs + [Written(blocks, s'.disk)], t', |t'.logged|)
  {
    var t' := Txns(t.images + [s'], t.owners + [owner'], t.logged + [logged]);
    var gs' := gs + [Written(blocks, s'.disk)];
    forall k: nat | k < |gs'|
      ensures (forall b :: b in t'.logged[k] ==> 0 <= b < |t'.images[k + 1].disk|) && gs'[k] == Group(t', k)
    {
      if k < |gs| {
        assert gs'[k] == gs[k] && t'.logged[k] == t.logged[k] && t'.images[k + 1] == t.images[k + 1];
        assert gs[k] == Group(t, k);
      }
    }
  }
}
