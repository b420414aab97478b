/** log.c itself.  Each method records the machine steps it takes, so that what is
    proved of every run of the machine holds of every sequence of calls. */
module Log {
  import opened Blocks
  import opened Dinode
  import opened LogMachine
  import opened LogRuns

  function Repeat(l: Label, n: nat): (r: seq<Label>)
    ensures |r| == n && forall k :: 0 <= k < n ==> r[k] == l
  {
    if n == 0 then [] else Repeat(l, n - 1) + [l]
  }

  /** The steps of a commit of n blocks. */
  function CommitSteps(n: nat): seq<Label>
  {
    if n == 0 then [] else Repeat(Copy, n) + [Head] + Repeat(Install, n) + [Clear]
  }

  /** The steps of a restart that finds n blocks committed. */
  function RestartSteps(n: nat): seq<Label>
  {
    [Crash, ReadHead] + Repeat(Reinstall, n) + [Reclear]
  }

  /** The home blocks of disk d are those of c. */
  ghost predicate AtHome(g: Geometry, d: seq<Block>, c: map<nat, Block>)
  {
    forall b :: g.Home(b) ==> b in c && 0 <= b < |d| && d[b] == c[b]
  }

  lemma StepsOf(ls: seq<Label>, n: nat, op: nat)
    ensures ls + [Crash] + [ReadHead] + Repeat(Reinstall, n) + [Reclear] == ls + RestartSteps(n)
    ensures ls + [End(op)] + CommitSteps(n) + [Finish] == ls + [End(op)] + (CommitSteps(n) + [Finish])
  {
  }

  /** The home blocks of disk d are what bread showed in state s. */
  ghost predicate ViewAtHome(g: Geometry, d: seq<Block>, s: State)
  {
    forall b :: g.Home(b) ==> 0 <= b < |d| && b < |s.disk| && d[b] == View(s, b)
  }

  /** Steps that write no block and no header leave the groups as they are. */
  lemma {:induction false} QuietSteps(ls: seq<Label>, l: Label, n: nat)
    requires !l.Write? && !l.Head? && !l.Crash?
    ensures GroupsOf(ls + Repeat(l, n)) == GroupsOf(ls) && PendingOf(ls + Repeat(l, n)) == PendingOf(ls)
  {
    if n == 0 {
      assert ls + Repeat(l, 0) == ls;
    } else {
      QuietSteps(ls, l, n - 1);
      OneStep(ls + Repeat(l, n - 1), l);
      assert ls + Repeat(l, n) == ls + Repeat(l, n - 1) + [l];
    }
  }

  lemma OneStep(ls: seq<Label>, l: Label)
    ensures !l.Write? && !l.Head? && !l.Crash? ==>
      GroupsOf(ls + [l]) == GroupsOf(ls) && PendingOf(ls + [l]) == PendingOf(ls)
    ensures l.Head? ==> GroupsOf(ls + [l]) == GroupsOf(ls) + [PendingOf(ls)] && PendingOf(ls + [l]) == map[]
    ensures l.Crash? ==> GroupsOf(ls + [l]) == GroupsOf(ls) && PendingOf(ls + [l]) == map[]
  {
    assert (ls + [l])[..|ls|] == ls;
  }

  /** A commit makes one group of everything written since the last. */
  lemma CommitMakesGroup(ls: seq<Label>, n: nat)
    requires n > 0
    ensures GroupsOf(ls + CommitSteps(n)) == GroupsOf(ls) + [PendingOf(ls)] && PendingOf(ls + CommitSteps(n)) == map[]
  {
    hide GroupsOf, PendingOf;
    var a := ls + Repeat(Copy, n);
    QuietSteps(ls, Copy, n);
    OneStep(a, Head);
    QuietSteps(a + [Head], Install, n);
    OneStep(a + [Head] + Repeat(Install, n), Clear);
    assert ls + CommitSteps(n) == a + [Head] + Repeat(Install, n) + [Clear];
  }

  lemma RestartKeepsGroups(ls: seq<Label>, n: nat)
    ensures GroupsOf(ls + RestartSteps(n)) == GroupsOf(ls) && PendingOf(ls + RestartSteps(n)) == map[]
  {
    hide GroupsOf, PendingOf;
    var a := ls + [Crash] + [ReadHead];
    OneStep(ls, Crash);
    OneStep(ls + [Crash], ReadHead);
    QuietSteps(a, Reinstall, n);
    OneStep(a + Repeat(Reinstall, n), Reclear);
    assert ls + RestartSteps(n) == a + Repeat(Reinstall, n) + [Reclear];
  }

  lemma RunGrows(g: Geometry, ss: seq<State>, ls: seq<Label>, l: Label, s: State)
    requires IsRun(g, ss, ls) && Inv(g, ss[|ls|]) && Next(g, ss[|ls|], l, s)
    ensures IsRun(g, ss + [s], ls + [l]) && Inv(g, s)
  {
    hide Next, Inv;
    StepRefines(g, ss[|ls|], l, s);
    SameDisk(g, s);
    var ss', ls' := ss + [s], ls + [l];
    forall i | 0 <= i < |ls'| ensures Next(g, ss'[i], ls'[i], ss'[i + 1]) {
      assert i < |ls| ==> ss'[i] == ss[i] && ls'[i] == ls[i] && ss'[i + 1] == ss[i + 1];
    }
  }

  lemma SameDisk(g: Geometry, s: State)
    requires Inv(g, s)
    ensures |s.disk| == g.nblocks
  {
  }

  lemma RestingState(g: Geometry, s: State)
    requires Inv(g, s)
    ensures s.pc.Idle? ==> !s.committing && (s.lh == [] ==> s.cache == map[])
    ensures s.pc.Cleared? ==> s.lh == [] && s.cache == map[]
  {
  }

  /** The end of the last operation, from step i on: the group it commits is every
      write that bread showed before, and it is home. */
  lemma GroupComesHome(g: Geometry, ss: seq<State>, ls: seq<Label>, i: nat, op: nat, n: nat)
    requires IsRun(g, ss, ls) && Init(g, ss[0]) && i <= |ls|
    requires ls == ls[..i] + [End(op)] + (CommitSteps(n) + [Finish])
    requires n == |ss[i].lh| && ss[i].pc.Idle? && ss[|ls|].pc.Idle?
    ensures ViewAtHome(g, ss[|ls|].disk, ss[i])
  {
    hide GroupsOf, PendingOf, Next, Init, CommitSteps, Committed, Inv, Effects, Overlay;
    var was, a := ls[..i], ls[..i] + [End(op)];
    OneStep(was, End(op));
    GroupsAfterEnd(a, n);
    assert a + (CommitSteps(n) + [Finish]) == ls;
    CrashAtomicity(g, ss, ls, i);
    CrashAtomicity(g, ss, ls, |ls|);
    assert ls[..|ls|] == ls;
    RunRefines(g, ss, ls, i);
    RunRefines(g, ss, ls, |ls|);
    HomeIsView(g, ss[i], ss[|ls|], Committed(g, ss[0].disk), GroupsOf(was), n);
  }

  lemma GroupsAfterEnd(a: seq<Label>, n: nat)
    ensures GroupsOf(a + (CommitSteps(n) + [Finish])) == if n == 0 then GroupsOf(a) else GroupsOf(a) + [PendingOf(a)]
    ensures n > 0 ==> PendingOf(a + (CommitSteps(n) + [Finish])) == map[]
  {
    hide GroupsOf, PendingOf;
    if n == 0 {
      assert a + (CommitSteps(0) + [Finish]) == a + [Finish];
      OneStep(a, Finish);
    } else {
      CommitMakesGroup(a, n);
      OneStep(a + CommitSteps(n), Finish);
      assert a + (CommitSteps(n) + [Finish]) == a + CommitSteps(n) + [Finish];
    }
  }

  lemma HomeIsView(g: Geometry, s: State, s': State, c: map<nat, Block>, gs: seq<map<nat, Block>>, n: nat)
    requires Inv(g, s) && Inv(g, s') && s.pc.Idle? && s'.pc.Idle? && n == |s.lh|
    requires Committed(g, s.disk) == Overlay(c, gs)
    requires Committed(g, s'.disk) == Overlay(c, if n == 0 then gs else gs + [s.cache])
    ensures ViewAtHome(g, s'.disk, s)
  {
    hide HeaderOf, Committed;
    IdleMeansHome(g, s);
    IdleMeansHome(g, s');
    assert (gs + [s.cache])[..|gs|] == gs;
    assert n == 0 ==> s.cache == map[];
  }

  lemma RestartComesHome(g: Geometry, ss: seq<State>, ls: seq<Label>, i: nat, n: nat)
    requires IsRun(g, ss, ls) && Init(g, ss[0]) && i <= |ls| && ls == ls[..i] + RestartSteps(n) && ss[|ls|].pc.Idle?
    ensures AtHome(g, ss[|ls|].disk, Overlay(Committed(g, ss[0].disk), GroupsOf(ls[..i])))
  {
    hide GroupsOf, PendingOf, Next, Init, RestartSteps, Committed;
    RestartKeepsGroups(ls[..i], n);
    CrashAtomicity(g, ss, ls, |ls|);
    assert ls[..|ls|] == ls;
    RunRefines(g, ss, ls, |ls|);
    IdleMeansHome(g, ss[|ls|]);
  }

  class RedoLog {
    const g: Geometry
    var disk: seq<Block>
    var lh: seq<nat>
    /** The dirty buffers. */
    var cache: map<nat, Block>
    var outstanding: nat
    var committing: bool
    ghost var ops: seq<Op>
    ghost var pc: Pc
    ghost var ss: seq<State>
    ghost var ls: seq<Label>

    ghost function Now(): State
      reads this
    {
      State(disk, lh, cache, ops, committing, pc)
    }

    /** The steps so far are a run of the machine that has led here. */
    ghost predicate Recorded()
      reads this
    {
      && IsRun(g, ss, ls) && |ss| == |ls| + 1 && Init(g, ss[0]) && ss[|ls|] == Now()
      && Inv(g, Now()) && |ops| == outstanding
    }

    /** Between calls, no commit is under way. */
    ghost predicate Valid()
      reads this
    {
      Recorded() && pc.Idle?
    }

    /** initlog after a power failure at the end of the run (ss0, ls0), in which only the
        disk survived: the home blocks are what its committed groups made them. */
    constructor Initlog(geometry: Geometry, image: seq<Block>, ghost ss0: seq<State>, ghost ls0: seq<Label>)
      requires IsRun(geometry, ss0, ls0) && Init(geometry, ss0[0]) && image == ss0[|ls0|].disk
      ensures Valid() && g == geometry && outstanding == 0 && lh == [] && cache == map[]
      ensures ss0 <= ss && exists n :: ls == ls0 + RestartSteps(n)
      ensures AtHome(g, disk, Overlay(Committed(g, ss0[0].disk), GroupsOf(ls0)))
    {
      g, disk, lh, cache, outstanding, committing := geometry, image, [], map[], 0, false;
      ops, pc, ss, ls := [], Booting, ss0, ls0;
      new;
      RunRefines(g, ss0, ls0, |ls0|);
      Restart();
    }

    method Restart()
      requires IsRun(g, ss, ls) && |ss| == |ls| + 1 && Init(g, ss[0]) && Inv(g, ss[|ls|])
      requires Now() == State(ss[|ls|].disk, [], map[], [], false, Booting) && outstanding == 0
      modifies this
      ensures Valid() && outstanding == 0 && lh == [] && cache == map[]
      ensures old(ss) <= ss && exists n :: ls == old(ls) + RestartSteps(n)
      ensures AtHome(g, disk, Overlay(Committed(g, old(ss)[0].disk), GroupsOf(old(ls))))
    {
      hide HeaderOf, IsRun, Init, Inv, Committed, GroupsOf, PendingOf, Overlay, Repeat, AtHome, RestartSteps;
      SameDisk(g, ss[|ls|]);
      Record(Crash);
      ghost var n := RecoverFromLog();
      RestingState(g, Now());
      StepsOf(old(ls), n, 0);
      assert ls[..|old(ls)|] == old(ls);
      RestartComesHome(g, ss, ls, |old(ls)|, n);
    }

    /** The new state is one step l on. */
    ghost method Record(l: Label)
      requires IsRun(g, ss, ls) && Init(g, ss[0]) && Inv(g, ss[|ls|]) && |ops| == outstanding
      requires Next(g, ss[|ls|], l, Now())
      modifies `ss, `ls
      ensures Recorded() && ls == old(ls) + [l] && ss == old(ss) + [Now()]
    {
      hide Next, Inv, Init;
      RunGrows(g, ss, ls, l, Now());
      ss, ls := ss + [Now()], ls + [l];
    }

    /** What bread returns for block b. */
    function Bread(b: nat): (data: Block)
      reads this
      requires b < |disk|
      ensures data == View(Now(), b)
    {
      if b in cache then cache[b] else disk[b]
    }

    method Bwrite(b: nat, data: Block)
      requires b < |disk|
      modifies `disk, `cache
      ensures disk == old(disk)[b := data] && cache == old(cache) - {b}
    {
      disk, cache := disk[b := data], cache - {b};
    }

    /** begin_op: false where the code sleeps. */
    method BeginOp() returns (ok: bool)
      requires Valid()
      modifies this
      ensures Valid()
      ensures ok == old(Admits(Now()))
      ensures old(ss) <= ss
      ensures if ok then ls == old(ls) + [Begin] && Now() == old(Now()).(ops := old(ops) + [Op(0, 0)])
              else ls == old(ls) && Now() == old(Now())
    {
      if committing || |lh| + (outstanding + 1) * MAXOPBLOCKS > LOGSIZE {
        return false;
      }
      outstanding := outstanding + 1;
      ops := ops + [Op(0, 0)];
      Record(Begin);
      return true;
    }

    /** A caller's change to a block's buffer, then log_write; false is its panic. */
    method LogWrite(ghost op: nat, b: nat, data: Block) returns (ok: bool)
      requires Valid() && g.Home(b) && (outstanding > 0 ==> op < outstanding)
      modifies this
      ensures Valid()
      ensures ok == (old(outstanding) > 0 && !old(TooBig(g, Now())))
      ensures ok ==> ls == old(ls) + [Write(op, b, data)] && ss == old(ss) + [Now()] && Bread(b) == data
      ensures !ok ==> ls == old(ls) && ss == old(ss) && Now() == old(Now())
    {
      if |lh| >= LOGSIZE || |lh| >= g.size - 1 {
        return false;
      }
      if outstanding < 1 {
        return false;
      }
      var i := 0;
      while i < |lh| && lh[i] != b
        invariant 0 <= i <= |lh| && forall k :: 0 <= k < i ==> lh[k] != b
      {
        i := i + 1;
      }
      ops := ops[op := Op(ops[op].calls + 1, if b in lh then ops[op].added else ops[op].added + 1)];
      if i == |lh| {
        lh := lh + [b];
      } else {
        lh := lh[i := b];
      }
      cache := cache[b := data];
      assert lh == Absorb(old(lh), b);
      Record(Write(op, b, data));
      return true;
    }

    /** write_log: the logged blocks go from the cache to the log. */
    method WriteLog()
      requires Recorded() && pc == Copying(0)
      modifies this
      ensures old(ss) <= ss && Recorded() && pc == Copying(|lh|) && lh == old(lh) && ls == old(ls) + Repeat(Copy, |lh|)
      ensures outstanding == old(outstanding)
    {
      hide Inv, IsRun, Init;
      var tail := 0;
      while tail < |lh|
        invariant 0 <= tail <= |lh| && lh == old(lh) && outstanding == old(outstanding)
        invariant old(ss) <= ss && Recorded() && pc == Copying(tail) && ls == old(ls) + Repeat(Copy, tail)
      {
        WriteLogBlock(tail);
        tail := tail + 1;
      }
    }

    method WriteLogBlock(tail: nat)
      requires Recorded() && pc == Copying(tail) && tail < |lh|
      modifies this
      ensures old(ss) <= ss && Recorded() && pc == Copying(tail + 1) && lh == old(lh) && ls == old(ls) + [Copy]
      ensures outstanding == old(outstanding)
    {
      hide HeaderOf, IsRun;
      var from := Bread(lh[tail]);
      Bwrite(g.start + tail + 1, from);
      assert cache == old(cache);
      pc := Copying(tail + 1);
      Record(Copy);
    }

    /** install_trans, of a commit or of a recovery. */
    method InstallTrans()
      requires Recorded() && (pc == Installing(0) || pc == Recovering(0))
      modifies this
      ensures old(ss) <= ss && Recorded() && lh == old(lh) && outstanding == old(outstanding)
      ensures pc == if old(pc).Installing? then Installing(|lh|) else Recovering(|lh|)
      ensures ls == old(ls) + Repeat(if old(pc).Installing? then Install else Reinstall, |lh|)
    {
      hide Inv, IsRun, Init;
      var tail := 0;
      while tail < |lh|
        invariant 0 <= tail <= |lh| && lh == old(lh) && outstanding == old(outstanding)
        invariant old(ss) <= ss && Recorded()
        invariant pc == if old(pc).Installing? then Installing(tail) else Recovering(tail)
        invariant ls == old(ls) + Repeat(if old(pc).Installing? then Install else Reinstall, tail)
      {
        InstallBlock(tail);
        tail := tail + 1;
      }
    }

    method InstallBlock(tail: nat)
      requires Recorded() && (pc == Installing(tail) || pc == Recovering(tail)) && tail < |lh|
      modifies this
      ensures old(ss) <= ss && Recorded() && lh == old(lh) && outstanding == old(outstanding)
      ensures if old(pc).Installing? then pc == Installing(tail + 1) && ls == old(ls) + [Install]
              else pc == Recovering(tail + 1) && ls == old(ls) + [Reinstall]
    {
      hide HeaderOf, IsRun;
      var data := Bread(g.start + tail + 1);
      assert g.Slot(tail) !in cache;
      Bwrite(lh[tail], data);
      if pc.Installing? {
        pc := Installing(tail + 1);
        Record(Install);
      } else {
        assert cache == map[];
        pc := Recovering(tail + 1);
        Record(Reinstall);
      }
    }

    /** write_head. */
    method WriteHead()
      requires g.start < |disk| && g.start !in cache
      requires |lh| <= LOGSIZE && forall k :: 0 <= k < |lh| ==> lh[k] < 0x1_0000_0000
      modifies `disk, `cache
      ensures disk == old(disk)[g.start := WithHeader(old(disk)[g.start], lh)] && cache == old(cache)
    {
      var h := FormHeader(Bread(g.start), lh);
      Bwrite(g.start, h);
      assert cache == old(cache);
    }

    /** The two header writes of a commit; `lh` is emptied before the second. */
    method CommitHead()
      requires Recorded() && pc == Copying(|lh|)
      modifies this
      ensures old(ss) <= ss && Recorded() && pc == Installing(0) && lh == old(lh) && ls == old(ls) + [Head]
      ensures outstanding == old(outstanding)
    {
      hide HeaderOf, IsRun, WithHeader;
      WriteHead();
      pc := Installing(0);
      Record(Head);
    }

    method ClearHead()
      requires Recorded() && (pc == Installing(|lh|) || pc == Recovering(|lh|))
      modifies this
      ensures old(ss) <= ss && Recorded() && lh == [] && outstanding == old(outstanding)
      ensures if old(pc).Installing? then pc == Cleared && ls == old(ls) + [Clear]
              else pc == Idle && ls == old(ls) + [Reclear]
    {
      hide HeaderOf, IsRun, WithHeader;
      lh := [];
      WriteHead();
      if pc.Installing? {
        pc := Cleared;
        Record(Clear);
      } else {
        pc := Idle;
        Record(Reclear);
      }
    }

    /** read_head. */
    method ReadHead()
      requires Recorded() && pc == Booting
      modifies this
      ensures old(ss) <= ss && Recorded() && pc == Recovering(0) && ls == old(ls) + [Label.ReadHead]
      ensures outstanding == old(outstanding)
    {
      hide HeaderOf, IsRun, Init;
      lh := ReadHeader(Bread(g.start));
      pc := Recovering(0);
      Record(Label.ReadHead);
    }

    /** recover_from_log. */
    method RecoverFromLog() returns (ghost n: nat)
      requires Recorded() && pc == Booting
      modifies this
      ensures old(ss) <= ss && Recorded() && pc == Idle && lh == [] && outstanding == old(outstanding)
      ensures ls == old(ls) + [Label.ReadHead] + Repeat(Reinstall, n) + [Reclear]
    {
      hide Inv, IsRun, Init;
      ReadHead();
      n := |lh|;
      InstallTrans();
      ClearHead();
    }

    /** commit. */
    method Commit()
      requires Recorded() && pc == if lh == [] then Cleared else Copying(0)
      modifies this
      ensures old(ss) <= ss && Recorded() && pc == Cleared && outstanding == old(outstanding)
      ensures ls == old(ls) + CommitSteps(|old(lh)|)
    {
      hide Inv, IsRun, Init;
      if |lh| > 0 {
        WriteLog();
        CommitHead();
        InstallTrans();
        ClearHead();
      }
    }

    /** end_op from the commit on. */
    method CommitAndFinish()
      requires Recorded() && pc == (if lh == [] then Cleared else Copying(0)) && outstanding == 0
      modifies this
      ensures old(ss) <= ss && Recorded() && pc == Idle && outstanding == 0 && lh == [] && cache == map[]
      ensures ls == old(ls) + CommitSteps(|old(lh)|) + [Finish]
    {
      hide HeaderOf, WithHeader, IsRun, Init, Inv, CommitSteps;
      Commit();
      RestingState(g, Now());
      committing, pc := false, Idle;
      Record(Finish);
    }

    /** end_op: the last one out commits. */
    method EndOp(ghost op: nat)
      requires Valid() && op < outstanding
      modifies this
      ensures Valid() && outstanding == old(outstanding) - 1 && old(ss) <= ss
      ensures ls == old(ls) + [End(op)] + (if outstanding == 0 then CommitSteps(|old(lh)|) + [Finish] else [])
      ensures outstanding == 0 ==> lh == [] && cache == map[]
      ensures outstanding == 0 ==> ViewAtHome(g, disk, old(Now()))
      ensures outstanding > 0 ==> disk == old(disk) && cache == old(cache)
    {
      hide HeaderOf, WithHeader, IsRun, Init, Inv, CommitSteps, ViewAtHome;
      RestingState(g, Now());
      ghost var rest := ops[..op] + ops[op + 1..];
      outstanding := outstanding - 1;
      assert !committing;
      if outstanding == 0 {
        committing := true;
        assert rest == [];
        ops, pc := rest, if lh == [] then Cleared else Copying(0);
        Record(End(op));
        CommitAndFinish();
        StepsOf(old(ls), |old(lh)|, op);
        GroupComesHome(g, ss, ls, |old(ls)|, op, |old(lh)|);
      } else {
        ops := rest;
        Record(End(op));
      }
    }
  }

  /** write_head's copy of the list into the header block. */
  method FormHeader(h: Block, lh: seq<nat>) returns (r: Block)
    requires |lh| <= LOGSIZE && forall k :: 0 <= k < |lh| ==> lh[k] < 0x1_0000_0000
    ensures r == WithHeader(h, lh)
  {
    hide SetWord, WordAt;
    ghost var ws := [|lh|] + AsWords(lh);
    r := SetWord(h, 0, |lh|);
    assert ws[0] == |lh|;
    var i := 0;
    while i < |lh|
      invariant 0 <= i <= |lh| && StoreWords(r, i + 1, ws[i + 1..]) == StoreWords(h, 0, ws)
    {
      assert ws[i + 1..][0] == lh[i] && ws[i + 1..][1..] == ws[i + 2..];
      r := SetWord(r, i + 1, lh[i]);
      i := i + 1;
    }
    assert ws[i + 1..] == [];
  }

  /** read_head's copy of the list out of the header block. */
  method ReadHeader(h: Block) returns (lh: seq<nat>)
    requires WordAt(h, 0) <= LOGSIZE
    ensures lh == HeaderOf(h)
  {
    lh := [];
    var i, n := 0, WordAt(h, 0);
    while i < n
      invariant 0 <= i <= n && lh == LoadWords(h, 1, i)
    {
      lh := lh + [WordAt(h, 1 + i)];
      i := i + 1;
    }
  }
}
