/** The log's own process gets done: it can always go on but while it waits for a buffer, and a
    commit or a recovery takes only so many of its acts. */
module LogProgress {
  import opened Blocks
  import opened BufSpec
  import opened LogMachine
  import opened LogCache
  import BufRuns

  predicate Own(a: Act) {
    a.LogGet? || a.LogFill? || a.LogMove? || a.LogOut? || a.LogRead? || a.LogUnlock? || a.LogDrop? || a.Finishing?
  }

  /** Blocks and headers the commit or the recovery has yet to write, and its last words. */
  function Items(pc: Pc, n: nat): nat
  {
    match pc
    case Idle => 0
    case Copying(t) => n + 3 + if t < n then n - t else 0
    case Installing(t) => 2 + if t < n then n - t else 0
    case Cleared => 1
    case Booting => LOGSIZE + 2
    case Recovering(t) => 1 + if t < n then n - t else 0
  }

  function StageRank(st: Stage): nat
  {
    match st
    case Ready => 6
    case Got1(_) => 5
    case Held1(_) => 4
    case Got2(_, _) => 3
    case Held2(_, _) => 2
    case Moved(_, _) => 1
    case Leaving(list, unlocked) => 6 + 2 * |list| - if unlocked && list != [] then 1 else 0
  }

  function Rank(y: System): nat { 12 * Items(y.pc, |y.lh|) + StageRank(y.stage) }

  lemma OutRanks(g: Geometry, y: System, y': System)
    requires Whole(g, y) && Step(g, y, LogOut, y')
    ensures Rank(y') < Rank(y)
  {
    hide Good, BufOk, HasDirty, WithHeader, HeaderOf, Wanted;
  }

  lemma ReadRanks(g: Geometry, y: System, y': System)
    requires Whole(g, y) && Step(g, y, LogRead, y')
    ensures Rank(y') < Rank(y)
  {
    hide Good, BufOk, HasDirty, WithHeader, Inv;
  }

  lemma OtherOwnRanks(g: Geometry, y: System, a: Act, y': System)
    requires Whole(g, y) && Step(g, y, a, y') && Own(a) && !a.LogOut? && !a.LogRead?
    ensures Rank(y') < Rank(y)
  {
    hide Good, BufOk, HasDirty, WithHeader, HeaderOf, Inv, Get;
  }

  /** Every act of the log's process brings it nearer to its end. */
  lemma OwnActRanks(g: Geometry, y: System, a: Act, y': System)
    requires Whole(g, y) && Step(g, y, a, y') && Own(a)
    ensures Rank(y') < Rank(y)
  {
    hide Whole, Step, Rank;
    if a.LogOut? {
      OutRanks(g, y, y');
    } else if a.LogRead? {
      ReadRanks(g, y, y');
    } else {
      OtherOwnRanks(g, y, a, y');
    }
  }

  /** No act of another process throws it back, but for a crash and the end_op that starts it. */
  lemma OthersKeepRank(g: Geometry, y: System, a: Act, y': System)
    requires Whole(g, y) && Step(g, y, a, y') && !Own(a) && !a.Crashing? && !a.Ending?
    ensures Rank(y') == Rank(y)
  {
    hide Good, BufOk, HasDirty, WithHeader, HeaderOf, StageOk;
  }

  /** It wants a buffer that another process holds. */
  ghost predicate Waits(y: System)
  {
    match y.stage
    case Got1(i) => i < |y.c.bufs| && y.Theirs(i)
    case Got2(_, j) => j < |y.c.bufs| && y.Theirs(j)
    case _ => false
  }

  /** bget has no buffer for it. */
  ghost predicate NoBuffer(g: Geometry, y: System)
    requires Shape(y.c)
  {
    || (y.stage.Ready? && Get(y.c, ROOTDEV, FirstBlock(g, y.Log())).1.None?)
    || (y.stage.Held1? && Moves(y.Log()) && Get(y.c, ROOTDEV, SecondBlock(y.Log())).1.None?)
  }

  /** Otherwise one of its acts can be done. */
  ghost predicate GoesOn(g: Geometry, y: System)
    requires g.Valid() && Shape(y.c) && |y.c.disk| == g.nblocks
  {
    exists a, y' :: Own(a) && Step(g, y, a, y')
  }

  lemma ReadyGoesOn(g: Geometry, y: System)
    requires Whole(g, y) && y.stage.Ready? && !y.pc.Idle?
    ensures Shape(y.c) && g.Valid() && |y.c.disk| == g.nblocks && (GoesOn(g, y) || NoBuffer(g, y))
  {
    hide Good, BufOk, HasDirty, WithHeader, HeaderOf, Get;
    GoodIsShape(y.c);
    if y.pc.Cleared? {
      assert Step(g, y, Finishing, y.(committing := false, pc := Idle));
    } else {
      var (c', r) := Get(y.c, ROOTDEV, FirstBlock(g, y.Log()));
      if r.Some? {
        assert Step(g, y, LogGet, y.(c := c', stage := Got1(r.value)));
      }
    }
  }

  lemma GotGoesOn(g: Geometry, y: System)
    requires Whole(g, y) && (y.stage.Got1? || y.stage.Got2?)
    ensures Shape(y.c) && g.Valid() && |y.c.disk| == g.nblocks && (GoesOn(g, y) || Waits(y))
  {
    hide HasDirty, WithHeader, HeaderOf, Get, Good, BufOk;
    GoodIsShape(y.c);
    var i := if y.stage.Got1? then y.stage.i else y.stage.j;
    OfBuffer(g, y, i);
    if !y.c.bufs[i].locked {
      var c' := Fill(y.c, i);
      assert Step(g, y, LogFill, y.(c := c', stage := if y.stage.Got1? then Held1(i) else Held2(y.stage.i, i)));
    }
  }

  lemma Held1GoesOn(g: Geometry, y: System)
    requires Whole(g, y) && y.stage.Held1?
    ensures Shape(y.c) && g.Valid() && |y.c.disk| == g.nblocks && (GoesOn(g, y) || NoBuffer(g, y))
  {
    hide Good, BufOk, HasDirty, WithHeader, HeaderOf, Get;
    GoodIsShape(y.c);
    var i := y.stage.i;
    if Moves(y.Log()) {
      var (c', r) := Get(y.c, ROOTDEV, SecondBlock(y.Log()));
      if r.Some? {
        assert Step(g, y, LogGet, y.(c := c', stage := Got2(i, r.value)));
      }
    } else if y.pc.Booting? {
      assert Step(g, y, LogRead,
                  y.(lh := HeaderOf(y.c.bufs[i].data), pc := Recovering(0), stage := Leaving([i], false)));
    } else {
      var data := WithHeader(y.c.bufs[i].data, Listed(y.Log()));
      assert Step(g, y, LogMove, y.(c := Modify(y.c, i, data), stage := Moved([], i)));
    }
  }

  lemma MoveGoesOn(g: Geometry, y: System)
    requires Whole(g, y) && (y.stage.Held2? || y.stage.Moved?)
    ensures Shape(y.c) && g.Valid() && |y.c.disk| == g.nblocks && GoesOn(g, y)
  {
    hide HasDirty, WithHeader, HeaderOf, Get, Good, BufOk;
    GoodIsShape(y.c);
    if y.stage.Held2? {
      var (from, to) := if y.pc.Copying? then (y.stage.j, y.stage.i) else (y.stage.i, y.stage.j);
      assert Step(g, y, LogMove, y.(c := Modify(y.c, to, y.c.bufs[from].data), stage := Moved([from], to)));
    } else {
      var to := y.stage.to;
      OfBuffer(g, y, to);
      assert Step(g, y, LogOut,
                  y.(c := WriteOut(y.c, to), logged := y.logged - {y.c.bufs[to].blockno},
                     lh := if Heads(y.Log()) then Listed(y.Log()) else y.lh, pc := AfterOut(y.Log()),
                     stage := Leaving(y.stage.from + [to], false)));
    }
  }

  lemma LeavingGoesOn(g: Geometry, y: System)
    requires Whole(g, y) && y.stage.Leaving?
    ensures Shape(y.c) && g.Valid() && |y.c.disk| == g.nblocks && GoesOn(g, y)
  {
    hide Good, HasDirty, WithHeader, HeaderOf, Inv;
    GoodIsShape(y.c);
    InvIsValid(g, y.Log());
    var list := y.stage.list;
    OfBuffer(g, y, list[0]);
    if y.stage.unlocked {
      assert Step(g, y, LogDrop,
                  y.(c := Drop(y.c, list[0]), stage := if |list| == 1 then Ready else Leaving(list[1..], false)));
    } else {
      assert Step(g, y, LogUnlock, y.(c := Unlock(y.c, list[0]), stage := y.stage.(unlocked := true)));
    }
  }

  lemma InvIsValid(g: Geometry, s: State)
    requires Inv(g, s)
    ensures g.Valid() && |s.disk| == g.nblocks
  {
  }

  /** At every point of every run, while a commit or a recovery is under way its process can go
      on, or waits for a buffer that another process holds, or bget panics for want of one. */
  lemma NeverStuck(g: Geometry, y: System)
    requires Whole(g, y) && !(y.pc.Idle? && y.stage.Ready?)
    ensures Shape(y.c) && g.Valid() && |y.c.disk| == g.nblocks && (GoesOn(g, y) || Waits(y) || NoBuffer(g, y))
  {
    hide Whole, GoesOn, NoBuffer, Waits;
    match y.stage
    case Ready => ReadyGoesOn(g, y);
    case Got1(_) => GotGoesOn(g, y);
    case Held1(_) => Held1GoesOn(g, y);
    case Got2(_, _) => GotGoesOn(g, y);
    case Held2(_, _) => MoveGoesOn(g, y);
    case Moved(_, _) => MoveGoesOn(g, y);
    case Leaving(_, _) => LeavingGoesOn(g, y);
  }

  /** An operation that holds the buffer of a home block can store in it and hand it to log_write,
      unless the log is full; then the block is listed with these contents, and bread shows them. */
  lemma OperationWrites(g: Geometry, y: System, op: nat, i: nat, data: Block) returns (y1: System, y2: System)
    requires Whole(g, y) && op < |y.ops| && Has(y.c, i) && y.Theirs(i) && y.c.bufs[i].valid
    requires g.Home(y.c.bufs[i].blockno) && !TooBig(g, y.Log())
    ensures g.Valid() && Shape(y.c) && |y.c.disk| == g.nblocks && Step(g, y, Storing(i, data), y1)
    ensures Shape(y1.c) && |y1.c.disk| == g.nblocks && Step(g, y1, Logging(op, i), y2) && Whole(g, y2)
    ensures var b := y.c.bufs[i].blockno;
      b in y2.lh && b in y2.logged && y2.logged[b] == data && b < |y2.c.disk| && Shape(y2.c) && View(y2.c, b) == data
  {
    hide Good, Inv, BufOk, HasDirty, StageOk, View, TooBig;
    GoodIsShape(y.c);
    InvIsValid(g, y.Log());
    y1 := y.(c := Modify(y.c, i, data));
    StoringKeeps(g, y, Storing(i, data), y1);
    GoodIsShape(y1.c);
    var b, o := y.c.bufs[i].blockno, y.ops[op];
    y2 := y1.(c := Pin(y1.c, i), lh := Absorb(y.lh, b), logged := y.logged[b := data],
              ops := y.ops[op := Op(o.calls + 1, if b in y.lh then o.added else o.added + 1)]);
    LoggingKeeps(g, y1, op, i, y2);
    GoodIsShape(y2.c);
    ModifyChangesView(y.c, i, data);
    PinKeepsView(y1.c, i);
  }

  /** A cache as binit leaves it. */
  lemma Fresh(n: nat, disk: seq<Block>) returns (c: Cache)
    ensures BufRuns.Booted(c) && |c.bufs| == n && c.disk == disk
  {
    var ring: seq<nat> := seq(n, i requires 0 <= i < n => i);
    c := Cache(seq(n, _ => Buf(0, 0, false, false, 0, false, ZeroBlock())), ring, disk, {});
    forall i | 0 <= i < n ensures i in ring {
      assert ring[i] == i;
    }
  }

  /** A crash can strike anywhere; what comes up is booting, with the disk as it was. */
  lemma CrashCanStrike(g: Geometry, y: System) returns (y': System)
    requires Whole(g, y)
    ensures g.Valid() && Shape(y.c) && |y.c.disk| == g.nblocks && Step(g, y, Crashing, y') && Whole(g, y')
    ensures y'.pc.Booting? && y'.stage.Ready? && y'.c.disk == y.c.disk && |y'.c.bufs| == |y.c.bufs|
  {
    hide Good, Inv, BufOk, HasDirty, StageOk;
    GoodIsShape(y.c);
    InvIsValid(g, y.Log());
    var c := Fresh(|y.c.bufs|, y.c.disk);
    y' := System(c, [], map[], [], false, Booting, Ready);
    CrashKeeps(g, y, y');
  }

  /** How many of the first k acts are those of the log's process. */
  function OwnActs(acts: seq<Act>, k: nat): nat
    requires k <= |acts|
  {
    if k == 0 then 0 else OwnActs(acts, k - 1) + if Own(acts[k - 1]) then 1 else 0
  }

  /** So between the end_op that starts it, or a boot, and its end, a commit or a recovery takes
      no more acts than its rank, whatever the others do meanwhile. */
  lemma {:induction false} CommitIsBounded(g: Geometry, ys: seq<System>, acts: seq<Act>, k: nat)
    requires IsRun(g, ys, acts) && Whole(g, ys[0]) && k <= |acts|
    requires forall j :: 0 <= j < k ==> !acts[j].Crashing? && !acts[j].Ending?
    ensures Whole(g, ys[k]) && OwnActs(acts, k) + Rank(ys[k]) <= Rank(ys[0])
  {
    hide Whole, Step, Rank, Own;
    if k > 0 {
      CommitIsBounded(g, ys, acts, k - 1);
      StepKeeps(g, ys[k - 1], acts[k - 1], ys[k]);
      if Own(acts[k - 1]) {
        OwnActRanks(g, ys[k - 1], acts[k - 1], ys[k]);
      } else {
        OthersKeepRank(g, ys[k - 1], acts[k - 1], ys[k]);
      }
    }
  }
}
