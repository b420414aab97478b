/** A run in which write_log finds no buffer although the group fits the log. */
module Famine {
  import opened Blocks
  import opened BufSpec
  import opened LogMachine
  import opened LogCache
  import BufRuns
  import LogRuns

  /** Three operations after k log_write calls, each within MAXOPBLOCKS. */
  function Shares(k: nat): (ops: seq<Op>)
    ensures |ops| == 3 && forall i :: 0 <= i < 3 ==> ops[i].calls == ops[i].added <= MAXOPBLOCKS
  {
    [Op(LogRuns.Share(k, 0), LogRuns.Share(k, 0)), Op(LogRuns.Share(k, 10), LogRuns.Share(k, 10)),
     Op(LogRuns.Share(k, 20), LogRuns.Share(k, 20))]
  }

  /** No operation of the run logs more than begin_op set aside for it. */
  ghost predicate Frugal(ys: seq<System>)
  {
    forall i: nat {:trigger ys[i]} :: i < |ys| ==> LogRuns.FewCalls(ys[i].Log()) && LogRuns.WithinBudget(ys[i].Log())
  }

  /** The operations have logged k blocks behind the log, and no one uses a buffer. */
  ghost predicate Calm(g: Geometry, n: nat, k: nat, y: System)
  {
    && Whole(g, y) && y.stage.Ready? && y.pc.Idle? && !y.committing && y.ops == Shares(k) && y.c.touched == {}
    && |y.c.bufs| == n && |y.lh| == |y.logged| == k
    && (forall x :: x in y.lh ==> x < g.start + g.size + k)
    && forall i: nat {:trigger y.c.bufs[i]} :: i < n ==> Resting(g, k, y.c.bufs[i])
  }

  /** An unused buffer, for no block or one of those logged. */
  predicate Resting(g: Geometry, k: nat, u: Buf) {
    u.refcnt == 0 && !u.locked && (u.dev == ROOTDEV ==> g.start + g.size <= u.blockno < g.start + g.size + k)
  }

  lemma CalmUses(g: Geometry, n: nat, k: nat, y: System)
    requires Calm(g, n, k, y)
    ensures Using(y.c) == {}
  {
    assert forall i: nat :: i < n ==> Resting(g, k, y.c.bufs[i]);
  }

  /** bget for the next block takes a free buffer. */
  lemma NextGets(g: Geometry, n: nat, k: nat, y: System) returns (i: nat)
    requires Calm(g, n, k, y) && k < n
    ensures var (c', r) := Get(y.c, ROOTDEV, g.start + g.size + k);
      && r == Some(i) && i < n && |c'.bufs| == n && y.c.bufs[i].Free()
      && c' == y.c.(bufs := y.c.bufs[i := c'.bufs[i]])
      && c'.bufs[i].Is(ROOTDEV, g.start + g.size + k) && c'.bufs[i].refcnt == 1 && !c'.bufs[i].dirty
      && !c'.bufs[i].locked
  {
    hide Whole, Get;
    var b := g.start + g.size + k;
    CalmUses(g, n, k, y);
    forall j | 0 <= j < n ensures !y.c.bufs[j].Is(ROOTDEV, b) {
      assert Resting(g, k, y.c.bufs[j]);
    }
    NoBufferExactlyWhen(g, y, b);
    WholeIsShape(g, y);
    GetsOne(y.c, b);
    i := Get(y.c, ROOTDEV, b).1.value;
    assert Resting(g, k, y.c.bufs[i]);
  }

  lemma WholeIsShape(g: Geometry, y: System)
    requires Whole(g, y)
    ensures Shape(y.c) && g.Valid() && |y.c.disk| == g.nblocks
  {
    hide Get;
  }

  /** bread, log_write and brelse of the next block. */
  function LogOne(op: nat, i: nat, b: nat): seq<Act> {
    [Getting(b), Filling(i), Logging(op, i), Unlocking(i), Dropping(i)]
  }

  lemma NextBlock(g: Geometry, n: nat, k: nat, y: System) returns (i: nat, ys: seq<System>)
    requires Calm(g, n, k, y) && k < n && k < g.Room() && g.start + g.size + k < g.nblocks
    ensures |ys| == 6 && ys[0] == y && IsRun(g, ys, LogOne(k / 10, i, g.start + g.size + k)) && Calm(g, n, k + 1, ys[5])
    ensures Frugal(ys)
  {
    hide Calm, Whole, Get, Step, IsRun, Taken;
    var y1;
    i, y1 := TakeNext(g, n, k, y);
    var y2 := FillTaken(g, n, k, y, y1, i);
    var y3 := LogTaken(g, n, k, y, y2, i);
    var y4, y5 := GiveBack(g, n, k, y, y3, i);
    ys := [y, y1, y2, y3, y4, y5];
    FiveSteps(g, ys, LogOne(k / 10, i, g.start + g.size + k));
    assert forall j :: 0 <= j < 6 ==> ys[j].ops == Shares(k) || ys[j].ops == Shares(k + 1);
  }

  lemma FiveSteps(g: Geometry, ys: seq<System>, acts: seq<Act>)
    requires |acts| == 5 && |ys| == 6 && g.Valid()
    requires forall j :: 0 <= j < 6 ==> Shape(ys[j].c) && |ys[j].c.disk| == g.nblocks
    requires Step(g, ys[0], acts[0], ys[1]) && Step(g, ys[1], acts[1], ys[2]) && Step(g, ys[2], acts[2], ys[3])
    requires Step(g, ys[3], acts[3], ys[4]) && Step(g, ys[4], acts[4], ys[5])
    ensures IsRun(g, ys, acts)
  {
    hide Step, Shape;
  }

  ghost predicate Fits(g: Geometry, y: System) { Shape(y.c) && g.Valid() && |y.c.disk| == g.nblocks }

  /** y' is y but for buffer i, now of the k-th block, in use by one. */
  ghost predicate Taken(g: Geometry, n: nat, k: nat, y: System, y': System, i: nat)
  {
    && Whole(g, y') && i < n && |y.c.bufs| == |y'.c.bufs| == n && y'.stage == y.stage && y'.pc == y.pc
    && y'.committing == y.committing
    && (forall j: nat {:trigger y'.c.bufs[j]} :: j < n && j != i ==> y'.c.bufs[j] == y.c.bufs[j])
    && y'.c.touched == {} && y'.c.bufs[i].Is(ROOTDEV, g.start + g.size + k) && y'.c.bufs[i].refcnt == 1
  }

  lemma TakeNext(g: Geometry, n: nat, k: nat, y: System) returns (i: nat, y1: System)
    requires Calm(g, n, k, y) && k < n && g.start + g.size + k < g.nblocks
    ensures Fits(g, y) && Step(g, y, Getting(g.start + g.size + k), y1) && Fits(g, y1)
    ensures Taken(g, n, k, y, y1, i) && !y1.c.bufs[i].dirty && !y1.c.bufs[i].locked
    ensures y1.lh == y.lh && y1.logged == y.logged && y1.ops == y.ops == Shares(k)
  {
    hide Whole, Get;
    WholeIsShape(g, y);
    i := NextGets(g, n, k, y);
    y1 := y.(c := Get(y.c, ROOTDEV, g.start + g.size + k).0);
    StepKeepsShape(g, y, Getting(g.start + g.size + k), y1);
  }

  lemma FillTaken(g: Geometry, n: nat, k: nat, y: System, y1: System, i: nat) returns (y2: System)
    requires Calm(g, n, k, y) && g.start + g.size + k < g.nblocks && Fits(g, y1)
    requires Taken(g, n, k, y, y1, i) && !y1.c.bufs[i].dirty && !y1.c.bufs[i].locked
    ensures Step(g, y1, Filling(i), y2) && Fits(g, y2) && y2 == y1.(c := y2.c)
    ensures Taken(g, n, k, y, y2, i) && y2.c.bufs[i].valid && y2.c.bufs[i].locked
  {
    hide Whole, Get;
    y2 := y1.(c := Fill(y1.c, i));
    StepKeepsShape(g, y1, Filling(i), y2);
  }

  lemma LogTaken(g: Geometry, n: nat, k: nat, y: System, y2: System, i: nat) returns (y3: System)
    requires Calm(g, n, k, y) && k < g.Room() && g.start + g.size + k < g.nblocks && Fits(g, y2)
    requires Taken(g, n, k, y, y2, i) && y2.c.bufs[i].valid && y2.c.bufs[i].locked
    requires y2.lh == y.lh && y2.logged == y.logged && y2.ops == y.ops
    ensures Step(g, y2, Logging(k / 10, i), y3) && Fits(g, y3) && y3.ops == Shares(k + 1)
    ensures Taken(g, n, k, y, y3, i) && y3.c.bufs[i].valid && y3.c.bufs[i].locked
    ensures |y3.lh| == |y3.logged| == k + 1 && forall x :: x in y3.lh ==> x < g.start + g.size + k + 1
  {
    hide Whole, Get, Shares;
    var b, op := g.start + g.size + k, k / 10;
    SharesNext(k);
    y3 := y2.(c := Pin(y2.c, i), lh := Absorb(y2.lh, b), logged := y2.logged[b := y2.c.bufs[i].data],
              ops := Shares(k + 1));
    assert b !in y2.lh;
    LoggedAreListed(g, y);
    StepKeepsShape(g, y2, Logging(op, i), y3);
  }

  lemma SharesNext(k: nat)
    requires k < LOGSIZE
    ensures var op := k / 10;
      op < 3 && Shares(k + 1) == Shares(k)[op := Op(Shares(k)[op].calls + 1, Shares(k)[op].added + 1)]
  {
  }

  lemma GiveBack(g: Geometry, n: nat, k: nat, y: System, y3: System, i: nat) returns (y4: System, y5: System)
    requires Calm(g, n, k, y) && Taken(g, n, k, y, y3, i) && Fits(g, y3) && g.start + g.size + k < g.nblocks
    requires y3.c.bufs[i].valid && y3.c.bufs[i].locked
    requires |y3.lh| == |y3.logged| == k + 1 && y3.ops == Shares(k + 1)
    requires forall x :: x in y3.lh ==> x < g.start + g.size + k + 1
    ensures Step(g, y3, Unlocking(i), y4) && Fits(g, y4) && Step(g, y4, Dropping(i), y5) && Fits(g, y5)
    ensures Calm(g, n, k + 1, y5) && y4.ops == y5.ops == Shares(k + 1)
  {
    hide Whole, Get, ToFront;
    y4 := y3.(c := Unlock(y3.c, i));
    StepKeepsShape(g, y3, Unlocking(i), y4);
    y5 := y4.(c := Drop(y4.c, i));
    StepKeepsShape(g, y4, Dropping(i), y5);
    forall j: nat | j < n ensures Resting(g, k + 1, y5.c.bufs[j]) {
      assert Resting(g, k, y.c.bufs[j]);
      assert j != i ==> y3.c.bufs[j] == y.c.bufs[j];
    }
  }

  lemma StepKeepsShape(g: Geometry, y: System, a: Act, y': System)
    requires Whole(g, y) && Shape(y.c) && g.Valid() && |y.c.disk| == g.nblocks && Step(g, y, a, y')
    ensures Whole(g, y') && Shape(y'.c) && |y'.c.disk| == g.nblocks
  {
    hide Whole, Step;
    StepKeeps(g, y, a, y');
    WholeIsShape(g, y');
  }

  lemma LoggedAreListed(g: Geometry, y: System)
    requires Whole(g, y) && y.pc.Idle?
    ensures forall b :: b in y.logged <==> b in y.lh
  {
    hide Get;
  }

  lemma RunsJoin(g: Geometry, xs: seq<System>, as1: seq<Act>, ys: seq<System>, bs: seq<Act>)
    requires IsRun(g, xs, as1) && IsRun(g, ys, bs) && xs[|as1|] == ys[0]
    ensures IsRun(g, xs + ys[1..], as1 + bs)
  {
    hide Step, Shape;
    var zs, cs := xs + ys[1..], as1 + bs;
    forall k: nat | k < |zs| ensures Shape(zs[k].c) && |zs[k].c.disk| == g.nblocks {
      assert k >= |xs| ==> zs[k] == ys[k - |as1|];
    }
    forall k: nat | k < |cs| ensures Step(g, zs[k], cs[k], zs[k + 1]) {
      if k < |as1| {
        assert cs[k] == as1[k] && zs[k + 1] == xs[k + 1];
      } else {
        assert cs[k] == bs[k - |as1|];
        assert zs[k] == ys[k - |as1|] && zs[k + 1] == ys[k - |as1| + 1];
      }
    }
  }

  /** With n buffers, a group of n - 1 blocks, which the log has room for, and one reader that
      holds one more block, write_log's first bread finds every buffer taken, though no operation
      logged more than MAXOPBLOCKS blocks.  The kernel's numbers are such: 30 buffers, a log of 30
      blocks with the header. */
  lemma NoBufferForTheLog(g: Geometry, c: Cache) returns (ys: seq<System>, acts: seq<Act>)
    requires g.Valid() && BufRuns.Booted(c) && |c.disk| == g.nblocks && WordAt(c.disk[g.start], 0) == 0
    requires 2 <= |c.bufs| <= g.Room() + 1 && g.start + g.size + |c.bufs| <= g.nblocks
    ensures IsRun(g, ys, acts) && Start(g, ys[0]) && ys[0].c == c && Frugal(ys)
    ensures var y := ys[|acts|];
      && y.pc == Copying(0) && y.stage.Ready? && |y.lh| == |y.c.bufs| - 1 && |Using(y.c)| == 1
      && Get(y.c, ROOTDEV, FirstBlock(g, y.Log())).1.None?
  {
    hide Whole, Step, Calm, Get, Start, Frugal;
    var n := |c.bufs|;
    ys, acts := ThreeOperations(g, c);
    var y0 := ys[0];
    var k := 0;
    while k < n - 1
      invariant 0 <= k <= n - 1 && |ys| == |acts| + 1 && ys[0] == y0
      invariant IsRun(g, ys, acts) && Calm(g, n, k, ys[|acts|]) && Frugal(ys)
    {
      var i, zs := NextBlock(g, n, k, ys[|acts|]);
      var bs := LogOne(k / 10, i, g.start + g.size + k);
      RunsJoin(g, ys, acts, zs, bs);
      FrugalJoin(ys, zs);
      assert (ys + zs[1..])[|acts + bs|] == zs[5];
      ys, acts := ys + zs[1..], acts + bs;
      k := k + 1;
    }
    var zs, bs := LastSteps(g, n, ys[|acts|]);
    RunsJoin(g, ys, acts, zs, bs);
    FrugalJoin(ys, zs);
    assert (ys + zs[1..])[|acts + bs|] == zs[4];
    ys, acts := ys + zs[1..], acts + bs;
  }

  lemma FrugalJoin(xs: seq<System>, ys: seq<System>)
    requires Frugal(xs) && Frugal(ys) && ys != []
    ensures Frugal(xs + ys[1..])
  {
    var zs := xs + ys[1..];
    forall i: nat | i < |zs| ensures LogRuns.FewCalls(zs[i].Log()) && LogRuns.WithinBudget(zs[i].Log()) {
      assert zs[i] == if i < |xs| then xs[i] else ys[i - |xs| + 1];
    }
  }

  /** One more operation begins on the booted cache. */
  lemma OneMoreBegins(g: Geometry, y: System, y': System)
    requires Fits(g, y) && Whole(g, y) && y.pc.Idle? && y.stage.Ready? && !y.committing && y.lh == []
    requires |y.ops| < 3 && (forall j :: 0 <= j < |y.ops| ==> y.ops[j] == Op(0, 0))
    requires y' == y.(ops := y.ops + [Op(0, 0)])
    ensures Fits(g, y') && Whole(g, y') && Step(g, y, Beginning, y')
    ensures Frugal([y]) && Frugal([y'])
  {
    StepKeepsShape(g, y, Beginning, y');
  }

  lemma AfterBoot(g: Geometry, y: System)
    requires Whole(g, y) && BufRuns.Booted(y.c) && y == System(y.c, [], map[], Shares(0), false, Idle, Ready)
    ensures Calm(g, |y.c.bufs|, 0, y)
  {
    hide Whole;
  }

  lemma FourFrugal(a: System, b: System, c: System, d: System)
    requires Frugal([a]) && Frugal([b]) && Frugal([c]) && Frugal([d])
    ensures Frugal([a, b, c, d])
  {
    assert [a][0] == a && [b][0] == b && [c][0] == c && [d][0] == d;
  }

  lemma ThreeOperations(g: Geometry, c: Cache) returns (ys: seq<System>, acts: seq<Act>)
    requires g.Valid() && BufRuns.Booted(c) && |c.disk| == g.nblocks && WordAt(c.disk[g.start], 0) == 0
    ensures |ys| == |acts| + 1 && IsRun(g, ys, acts) && Start(g, ys[0]) && ys[0].c == c && Frugal(ys)
    ensures Calm(g, |c.bufs|, 0, ys[|acts|])
  {
    hide Whole, Get, Step, Frugal, Calm;
    var y0 := System(c, [], map[], [], false, Idle, Ready);
    var y1, y2, y3 := y0.(ops := [Op(0, 0)]), y0.(ops := [Op(0, 0), Op(0, 0)]), y0.(ops := Shares(0));
    StartIsWhole(g, y0);
    OneMoreBegins(g, y0, y1);
    OneMoreBegins(g, y1, y2);
    assert y3.ops == y2.ops + [Op(0, 0)];
    OneMoreBegins(g, y2, y3);
    AfterBoot(g, y3);
    FourFrugal(y0, y1, y2, y3);
    ys, acts := [y0, y1, y2, y3], [Beginning, Beginning, Beginning];
    forall j: nat | j < |acts| ensures Step(g, ys[j], acts[j], ys[j + 1]) {
      assert j == 0 || j == 1 || j == 2;
    }
  }

  /** The operations end, and a reader breads one more block. */
  lemma LastSteps(g: Geometry, n: nat, y: System) returns (ys: seq<System>, acts: seq<Act>)
    requires n >= 2 && Calm(g, n, n - 1, y) && g.start + g.size + n <= g.nblocks
    ensures |ys| == 5 && |acts| == 4 && ys[0] == y && IsRun(g, ys, acts) && Frugal(ys)
    ensures ys[4].pc == Copying(0) && ys[4].stage.Ready? && |ys[4].lh| == |ys[4].c.bufs| - 1 == n - 1
    ensures |Using(ys[4].c)| == 1 && Get(ys[4].c, ROOTDEV, FirstBlock(g, ys[4].Log())).1.None?
  {
    hide Whole, Get;
    var a, b, z := EndAll(g, n, y);
    var i, y4 := OneReader(g, n, y, z);
    ys, acts := [y, a, b, z, y4], [Ending(2), Ending(1), Ending(0), Getting(g.start + g.size + n - 1)];
    hide Step, Calm;
    forall j: nat | j < |acts| ensures Step(g, ys[j], acts[j], ys[j + 1]) {
      assert j == 0 || j == 1 || j == 2 || j == 3;
    }
    assert forall j :: 0 <= j < 5 ==> ys[j].ops <= Shares(n - 1);
  }

  lemma EndAll(g: Geometry, n: nat, y: System) returns (a: System, b: System, z: System)
    requires n >= 2 && Calm(g, n, n - 1, y)
    ensures Fits(g, y) && Fits(g, a) && Fits(g, b) && Fits(g, z) && Whole(g, z)
    ensures Step(g, y, Ending(2), a) && Step(g, a, Ending(1), b) && Step(g, b, Ending(0), z)
    ensures z == y.(ops := [], committing := true, pc := Copying(0))
    ensures y.ops == Shares(n - 1) && a.ops <= y.ops && b.ops <= y.ops
  {
    hide Whole, Get;
    WholeIsShape(g, y);
    a, b := y.(ops := y.ops[..2]), y.(ops := y.ops[..1]);
    z := y.(ops := [], committing := true, pc := Copying(0));
    assert y.ops[..2] + y.ops[3..] == a.ops && a.ops[..1] + a.ops[2..] == b.ops && b.ops[..0] + b.ops[1..] == [];
    StepKeepsShape(g, y, Ending(2), a);
    StepKeepsShape(g, a, Ending(1), b);
    StepKeepsShape(g, b, Ending(0), z);
  }

  lemma OneReader(g: Geometry, n: nat, y: System, z: System) returns (i: nat, y4: System)
    requires n >= 2 && Calm(g, n, n - 1, y) && g.start + g.size + n <= g.nblocks
    requires Fits(g, z) && Whole(g, z) && z == y.(ops := [], committing := true, pc := Copying(0))
    ensures Step(g, z, Getting(g.start + g.size + n - 1), y4) && Fits(g, y4)
    ensures y4 == z.(c := y4.c) && |y4.c.bufs| == n && |y4.lh| == n - 1
    ensures |Using(y4.c)| == 1 && Get(y4.c, ROOTDEV, FirstBlock(g, y4.Log())).1.None?
  {
    hide Whole, Get;
    var b := g.start + g.size + n - 1;
    i := NextGets(g, n, n - 1, y);
    y4 := z.(c := Get(y.c, ROOTDEV, b).0);
    StepKeepsShape(g, z, Getting(b), y4);
    assert forall j: nat :: j < n ==> Resting(g, n - 1, y.c.bufs[j]);
    assert Using(y4.c) == {i};
    var slot := FirstBlock(g, y4.Log());
    forall j | 0 <= j < n ensures !y4.c.bufs[j].Is(ROOTDEV, slot) {
      assert Resting(g, n - 1, y.c.bufs[j]);
    }
    NoBufferExactlyWhen(g, y4, slot);
  }
}
