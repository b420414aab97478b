/** The log over whole runs: crash atomicity, durability and log space. */
module LogRuns {
  import opened Blocks
  import opened LogMachine

  /** ss are the states of a run and ls its steps, crashes and recoveries included. */
  ghost predicate IsRun(g: Geometry, ss: seq<State>, ls: seq<Label>)
  {
    && g.Valid()
    && |ss| == |ls| + 1
    && (forall i :: 0 <= i < |ss| ==> |ss[i].disk| == g.nblocks)
    && forall i :: 0 <= i < |ls| ==> Next(g, ss[i], ls[i], ss[i + 1])
  }

  /** The writes of the group under way after the steps ls. */
  function PendingOf(ls: seq<Label>): map<nat, Block>
  {
    if ls == [] then map[]
    else match ls[|ls| - 1]
      case Write(_, b, data) => PendingOf(ls[..|ls| - 1])[b := data]
      case Head => map[]
      case Crash => map[]
      case _ => PendingOf(ls[..|ls| - 1])
  }

  /** The groups whose header write is among the steps ls, oldest first. */
  function GroupsOf(ls: seq<Label>): (gs: seq<map<nat, Block>>)
  {
    if ls == [] then []
    else
      var prev := ls[..|ls| - 1];
      if ls[|ls| - 1].Head? then GroupsOf(prev) + [PendingOf(prev)] else GroupsOf(prev)
  }

  /** c with the groups laid over it in order. */
  function Overlay(c: map<nat, Block>, gs: seq<map<nat, Block>>): map<nat, Block>
  {
    if gs == [] then c else Overlay(c, gs[..|gs| - 1]) + gs[|gs| - 1]
  }

  lemma {:induction false} EffectsAreGroups(c: map<nat, Block>, ls: seq<Label>)
    ensures Effects(Store(c, map[]), ls) == Store(Overlay(c, GroupsOf(ls)), PendingOf(ls))
  {
    if ls != [] {
      var prev := ls[..|ls| - 1];
      EffectsAreGroups(c, prev);
      if ls[|ls| - 1].Head? {
        var gs := GroupsOf(ls);
        assert gs[..|gs| - 1] == GroupsOf(prev);
      }
    }
  }

  lemma {:induction false} RunRefines(g: Geometry, ss: seq<State>, ls: seq<Label>, i: nat)
    requires IsRun(g, ss, ls) && Init(g, ss[0]) && i <= |ls|
    ensures Inv(g, ss[i]) && Abs(g, ss[i]) == Effects(Abs(g, ss[0]), ls[..i])
  {
    hide Inv, Abs, Next, Effect;
    if i == 0 {
      InitInv(g, ss[0]);
    } else {
      RunRefines(g, ss, ls, i - 1);
      StepRefines(g, ss[i - 1], ls[i - 1], ss[i]);
      assert ls[..i][..i - 1] == ls[..i - 1];
    }
  }

  /** Crash atomicity and durability.  At every point of every run, with crashes after
      any block write, also inside a commit or a recovery, what a recovery would
      leave is the initial contents overlaid by whole groups: exactly those whose
      header write completed.  The uncommitted writes are those made since. */
  lemma CrashAtomicity(g: Geometry, ss: seq<State>, ls: seq<Label>, i: nat)
    requires IsRun(g, ss, ls) && Init(g, ss[0]) && i <= |ls|
    ensures Committed(g, ss[i].disk) == Overlay(Committed(g, ss[0].disk), GroupsOf(ls[..i]))
    ensures Abs(g, ss[i]).pending == PendingOf(ls[..i])
  {
    hide Inv, Next, Committed, Effects;
    RunRefines(g, ss, ls, i);
    EffectsAreGroups(Committed(g, ss[0].disk), ls[..i]);
  }

  /** Once a recovery has run to its end, or no commit has started since, the home
      blocks themselves are the committed contents. */
  lemma IdleMeansHome(g: Geometry, s: State)
    requires Inv(g, s) && (s.pc.Idle? || s.pc.Copying? || s.pc.Cleared?)
    ensures forall b :: g.Home(b) ==> b in Committed(g, s.disk) && Committed(g, s.disk)[b] == s.disk[b]
  {
  }

  /** bread's view of a block: the dirty buffer, else the disk. */
  function View(s: State, b: nat): Block
    requires b < |s.disk|
  {
    if b in s.cache then s.cache[b] else s.disk[b]
  }

  /** Outside a recovery, bread always sees the latest logged data: the committed
      contents with the group's writes on top. */
  lemma ViewIsLatest(g: Geometry, s: State, b: nat)
    requires Inv(g, s) && g.Home(b) && !s.pc.Booting? && !s.pc.Recovering?
    ensures var a := Abs(g, s);
      b in a.committed && View(s, b) == (a.committed + a.pending)[b]
  {
    hide HeaderOf;
    if s.pc.Installing? && b in s.lh {
      var k := IndexOf(s.lh, b);
      assert s.lh[k] == b;
      assert g.Slot(k) < |s.disk|;
    }
  }

  /** A commit covers exactly the distinct blocks written by its group, and runs only
      while no operation is outstanding. */
  lemma CommitCoversGroup(g: Geometry, ss: seq<State>, ls: seq<Label>, i: nat)
    requires IsRun(g, ss, ls) && Init(g, ss[0]) && i < |ls| && ls[i] == Head
    ensures ss[i].ops == [] && ss[i].committing
    ensures HeaderOf(ss[i + 1].disk[g.start]) == ss[i].lh
    ensures forall b :: b in PendingOf(ls[..i]) <==> b in ss[i].lh
    ensures forall j, k :: 0 <= j < k < |ss[i].lh| ==> ss[i].lh[j] != ss[i].lh[k]
  {
    hide HeaderOf, Committed;
    RunRefines(g, ss, ls, i);
    CrashAtomicity(g, ss, ls, i);
    assert Next(g, ss[i], ls[i], ss[i + 1]);
  }

  /** The place in `ops`, before step k, of the operation that began with step i; None once
      it has ended or a crash has cut it off. */
  function Place(ss: seq<State>, ls: seq<Label>, i: nat, k: nat): Option<nat>
    requires i < k <= |ls| < |ss|
  {
    if k == i + 1 then Some(|ss[i].ops|)
    else match Place(ss, ls, i, k - 1)
      case None => None
      case Some(p) =>
        match ls[k - 1]
        case End(m) => if m == p then None else if m < p then Some(p - 1) else Some(p)
        case Crash => None
        case _ => Some(p)
  }

  lemma OpsAfter(g: Geometry, s: State, l: Label, s': State)
    requires g.Valid() && |s.disk| == g.nblocks && Next(g, s, l, s')
    ensures match l
      case Begin => |s'.ops| == |s.ops| + 1
      case End(m) => m < |s.ops| && |s'.ops| == |s.ops| - 1
      case Crash => true
      case _ => |s'.ops| == |s.ops|
  {
  }

  lemma {:induction false} PlaceIsTaken(g: Geometry, ss: seq<State>, ls: seq<Label>, i: nat, k: nat)
    requires IsRun(g, ss, ls) && i < k <= |ls| && ls[i] == Begin
    ensures Place(ss, ls, i, k).Some? ==> Place(ss, ls, i, k).value < |ss[k].ops|
  {
    hide Next;
    OpsAfter(g, ss[k - 1], ls[k - 1], ss[k]);
    if k > i + 1 {
      PlaceIsTaken(g, ss, ls, i, k - 1);
    }
  }

  lemma HeadMeansNoOps(g: Geometry, s: State, s': State)
    requires Inv(g, s) && Next(g, s, Head, s')
    ensures s.ops == []
  {
  }

  /** No commit falls between begin_op and end_op of an operation: all it logs belongs to
      one group. */
  lemma {:induction false} OperationIsInOneGroup(g: Geometry, ss: seq<State>, ls: seq<Label>, i: nat, k: nat)
    requires IsRun(g, ss, ls) && Init(g, ss[0]) && i < k <= |ls| && ls[i] == Begin && Place(ss, ls, i, k).Some?
    ensures k < |ls| ==> ls[k] != Head
    ensures GroupsOf(ls[..k]) == GroupsOf(ls[..i])
  {
    hide Next, Inv, Abs, Init, Effects;
    PlaceIsTaken(g, ss, ls, i, k);
    RunRefines(g, ss, ls, k);
    if k < |ls| && ls[k] == Head {
      HeadMeansNoOps(g, ss[k], ss[k + 1]);
    }
    assert ls[..k][..k - 1] == ls[..k - 1];
    if k > i + 1 {
      OperationIsInOneGroup(g, ss, ls, i, k - 1);
    }
  }

  // ---- log space ----

  /** Blocks reserved for the outstanding operations and not used yet. */
  function Unspent(ops: seq<Op>): int
  {
    if ops == [] then 0 else Unspent(ops[..|ops| - 1]) + MAXOPBLOCKS - ops[|ops| - 1].added
  }

  function UncalledOf(ops: seq<Op>): int
  {
    if ops == [] then 0 else UncalledOf(ops[..|ops| - 1]) + MAXOPBLOCKS - ops[|ops| - 1].calls
  }

  lemma {:induction false} UnspentAt(ops: seq<Op>, i: nat, op: Op)
    requires i < |ops|
    ensures Unspent(ops[i := op]) == Unspent(ops) + ops[i].added - op.added
    ensures UncalledOf(ops[i := op]) == UncalledOf(ops) + ops[i].calls - op.calls
    ensures Unspent(ops[..i] + ops[i + 1..]) == Unspent(ops) - MAXOPBLOCKS + ops[i].added
    ensures UncalledOf(ops[..i] + ops[i + 1..]) == UncalledOf(ops) - MAXOPBLOCKS + ops[i].calls
  {
    var n := |ops| - 1;
    if i == n {
      assert ops[i := op][..n] == ops[..n] == ops[..i] + ops[i + 1..];
    } else {
      UnspentAt(ops[..n], i, op);
      assert ops[i := op][..n] == ops[..n][i := op];
      assert (ops[..i] + ops[i + 1..])[..n - 1] == ops[..n][..i] + ops[..n][i + 1..];
    }
  }

  lemma {:induction false} UnspentBound(ops: seq<Op>)
    ensures Unspent(ops) <= MAXOPBLOCKS * |ops| && UncalledOf(ops) <= MAXOPBLOCKS * |ops|
  {
    if ops != [] {
      UnspentBound(ops[..|ops| - 1]);
    }
  }

  /** No operation has logged more than MAXOPBLOCKS new blocks. */
  ghost predicate WithinBudget(s: State) { forall i :: 0 <= i < |s.ops| ==> s.ops[i].added <= MAXOPBLOCKS }

  /** No operation has called log_write more than MAXOPBLOCKS times. */
  ghost predicate FewCalls(s: State) { forall i :: 0 <= i < |s.ops| ==> s.ops[i].calls <= MAXOPBLOCKS }

  lemma SpaceStep(g: Geometry, s: State, l: Label, s': State)
    requires Inv(g, s) && Next(g, s, l, s')
    ensures Inv(g, s')
    ensures |s.lh| + Unspent(s.ops) <= LOGSIZE && WithinBudget(s) ==> |s'.lh| + Unspent(s'.ops) <= LOGSIZE
    ensures |s.lh| + UncalledOf(s.ops) <= LOGSIZE && FewCalls(s) ==> |s'.lh| + UncalledOf(s'.ops) <= LOGSIZE
  {
    hide HeaderOf, Committed;
    StepRefines(g, s, l, s');
    match l
    case Begin =>
      UnspentBound(s.ops);
      assert s'.ops[..|s.ops|] == s.ops;
    case Write(i, b, data) =>
      UnspentAt(s.ops, i, s'.ops[i]);
    case End(i) =>
      UnspentAt(s.ops, i, s.ops[i]);
    case _ =>
  }

  /** Over every interleaving of begin_op, log_write and end_op, the logged blocks and
      the unspent reservations together fit the log, as long as no operation logs
      more than MAXOPBLOCKS new blocks. */
  lemma {:induction false} ReservationHolds(g: Geometry, ss: seq<State>, ls: seq<Label>, i: nat)
    requires IsRun(g, ss, ls) && Init(g, ss[0]) && i <= |ls|
    requires forall j :: 0 <= j < i ==> WithinBudget(ss[j])
    ensures |ss[i].lh| + Unspent(ss[i].ops) <= LOGSIZE
  {
    hide Inv, Next;
    if i > 0 {
      ReservationHolds(g, ss, ls, i - 1);
      RunRefines(g, ss, ls, i - 1);
      SpaceStep(g, ss[i - 1], ls[i - 1], ss[i]);
    }
  }

  /** "too big a transaction" cannot strike a call of log_write if the log has more
      than LOGSIZE blocks and no operation calls log_write more than MAXOPBLOCKS times. */
  lemma {:induction false} FewCallsNeverPanic(g: Geometry, ss: seq<State>, ls: seq<Label>, i: nat, op: nat)
    requires IsRun(g, ss, ls) && Init(g, ss[0]) && i <= |ls| && g.size > LOGSIZE
    requires forall j :: 0 <= j <= i ==> FewCalls(ss[j])
    requires op < |ss[i].ops| && ss[i].ops[op].calls < MAXOPBLOCKS
    ensures !TooBig(g, ss[i])
  {
    hide Inv, Next;
    CallsFit(g, ss, ls, i);
    var o := ss[i].ops;
    CallsLeft(o, op);
  }

  lemma {:induction false} CallsFit(g: Geometry, ss: seq<State>, ls: seq<Label>, i: nat)
    requires IsRun(g, ss, ls) && Init(g, ss[0]) && i <= |ls|
    requires forall j :: 0 <= j < i ==> FewCalls(ss[j])
    ensures |ss[i].lh| + UncalledOf(ss[i].ops) <= LOGSIZE
  {
    hide Inv, Next;
    if i > 0 {
      CallsFit(g, ss, ls, i - 1);
      RunRefines(g, ss, ls, i - 1);
      SpaceStep(g, ss[i - 1], ls[i - 1], ss[i]);
    }
  }

  lemma {:induction false} CallsLeft(ops: seq<Op>, i: nat)
    requires i < |ops| && forall j :: 0 <= j < |ops| ==> ops[j].calls <= MAXOPBLOCKS
    ensures UncalledOf(ops) >= MAXOPBLOCKS - ops[i].calls
  {
    var n := |ops| - 1;
    AllLeft(ops[..n]);
    if i < n {
      CallsLeft(ops[..n], i);
    }
  }

  lemma {:induction false} AllLeft(ops: seq<Op>)
    requires forall j :: 0 <= j < |ops| ==> ops[j].calls <= MAXOPBLOCKS
    ensures UncalledOf(ops) >= 0
  {
    if ops != [] {
      AllLeft(ops[..|ops| - 1]);
    }
  }

  // ---- whom begin_op refuses ----

  function Sum(xs: seq<nat>): nat { if xs == [] then 0 else Sum(xs[..|xs| - 1]) + xs[|xs| - 1] }

  /** The operations under way and one more can log this many new blocks each, by these limits. */
  ghost predicate Within(adds: seq<nat>, limits: seq<nat>) {
    |adds| == |limits| && forall i :: 0 <= i < |limits| ==> adds[i] <= limits[i]
  }

  lemma {:induction false} LimitsAreMost(adds: seq<nat>, limits: seq<nat>)
    requires Within(adds, limits)
    ensures Sum(adds) <= Sum(limits)
  {
    if adds != [] {
      LimitsAreMost(adds[..|adds| - 1], limits[..|limits| - 1]);
    }
  }

  /** A full reservation for each of n operations. */
  function Full(n: nat): (limits: seq<nat>)
    ensures |limits| == n && forall i :: 0 <= i < n ==> limits[i] == MAXOPBLOCKS
  {
    seq(n, _ => MAXOPBLOCKS)
  }

  lemma {:induction false} FullSum(n: nat)
    ensures Sum(Full(n)) == n * MAXOPBLOCKS
  {
    if n > 0 {
      FullSum(n - 1);
      assert Full(n)[..n - 1] == Full(n - 1);
    }
  }

  /** What the operations have left of their reservations, and a full one. */
  function Unused(ops: seq<Op>): (limits: seq<nat>)
    requires forall i :: 0 <= i < |ops| ==> ops[i].added <= MAXOPBLOCKS
    ensures |limits| == |ops| + 1 && limits[|ops|] == MAXOPBLOCKS
    ensures forall i :: 0 <= i < |ops| ==> limits[i] == MAXOPBLOCKS - ops[i].added
  {
    seq(|ops|, i requires 0 <= i < |ops| => MAXOPBLOCKS - ops[i].added) + [MAXOPBLOCKS]
  }

  lemma {:induction false} UnusedSum(ops: seq<Op>)
    requires forall i :: 0 <= i < |ops| ==> ops[i].added <= MAXOPBLOCKS
    ensures Sum(Unused(ops)) == Unspent(ops) + MAXOPBLOCKS
  {
    var n := |ops|;
    assert Unused(ops)[..n] + [MAXOPBLOCKS] == Unused(ops);
    if n > 0 {
      UnusedSum(ops[..n - 1]);
      assert Unused(ops)[..n][..n - 1] == Unused(ops[..n - 1])[..n - 1];
    }
  }

  /** Outside of a commit begin_op refuses exactly if the operations under way and the new one
      could outrun LOGSIZE with MAXOPBLOCKS new blocks each from here on. */
  lemma RefusedExactlyWhen(s: State)
    requires !s.committing
    ensures !Admits(s) <==> exists adds :: Within(adds, Full(|s.ops| + 1)) && |s.lh| + Sum(adds) > LOGSIZE
  {
    FullSum(|s.ops| + 1);
    if !Admits(s) {
      assert Within(Full(|s.ops| + 1), Full(|s.ops| + 1));
    }
    forall adds | Within(adds, Full(|s.ops| + 1)) ensures Sum(adds) <= Sum(Full(|s.ops| + 1)) {
      LimitsAreMost(adds, Full(|s.ops| + 1));
    }
  }

  /** They could outrun it within what is left of their reservations exactly if the logged blocks,
      these and one more reservation are more than LOGSIZE; then begin_op does refuse.  It counts
      what an operation has logged twice, so the converse fails. */
  lemma RefusalNeededExactlyWhen(s: State)
    requires !s.committing && WithinBudget(s)
    ensures (exists adds :: Within(adds, Unused(s.ops)) && |s.lh| + Sum(adds) > LOGSIZE) <==>
      |s.lh| + Unspent(s.ops) + MAXOPBLOCKS > LOGSIZE
    ensures |s.lh| + Unspent(s.ops) + MAXOPBLOCKS > LOGSIZE ==> !Admits(s)
  {
    UnusedSum(s.ops);
    UnspentBound(s.ops);
    if |s.lh| + Unspent(s.ops) + MAXOPBLOCKS > LOGSIZE {
      assert Within(Unused(s.ops), Unused(s.ops));
    }
    forall adds | Within(adds, Unused(s.ops)) ensures Sum(adds) <= Sum(Unused(s.ops)) {
      LimitsAreMost(adds, Unused(s.ops));
    }
  }

  /** Two operations, one of which has logged one block: a third is refused, though all three
      could use up their reservations within LOGSIZE. */
  lemma RefusedWithoutNeed(g: Geometry, d: seq<Block>) returns (ss: seq<State>, ls: seq<Label>)
    requires g.Valid() && |d| == g.nblocks && WordAt(d[g.start], 0) == 0 && g.start + g.size < g.nblocks
    ensures IsRun(g, ss, ls) && Init(g, ss[0]) && ls == [Begin, Begin, Write(0, g.start + g.size, ZeroBlock())]
    ensures var s := ss[3];
      && !s.committing && WithinBudget(s) && !Admits(s) && |s.lh| + Unspent(s.ops) + MAXOPBLOCKS <= LOGSIZE
  {
    var b := g.start + g.size;
    var s0 := State(d, [], map[], [], false, Idle);
    var s1, s2 := s0.(ops := [Op(0, 0)]), s0.(ops := [Op(0, 0), Op(0, 0)]);
    var s3 := s0.(lh := [b], cache := map[b := ZeroBlock()], ops := [Op(1, 1), Op(0, 0)]);
    assert s2 == s1.(ops := s1.ops + [Op(0, 0)]) && s3.ops == s2.ops[0 := Op(1, 1)];
    ss, ls := [s0, s1, s2, s3], [Begin, Begin, Write(0, b, ZeroBlock())];
    assert s3.ops[..1] == [Op(1, 1)] && s3.ops[..1][..0] == [];
  }

  /** Three operations after k log_write calls on distinct blocks, ten by the first,
      ten by the second, the rest by the third. */
  ghost function Filled(g: Geometry, d: seq<Block>, k: nat): State
  {
    State(d, FilledList(g, k), FilledCache(g, k),
          [Op(Share(k, 0), Share(k, 0)), Op(Share(k, 10), Share(k, 10)), Op(Share(k, 20), Share(k, 20))], false, Idle)
  }

  function FilledList(g: Geometry, k: nat): (r: seq<nat>)
    ensures |r| == k && forall i :: 0 <= i < k ==> r[i] == g.start + g.size + i
  {
    if k == 0 then [] else FilledList(g, k - 1) + [g.start + g.size + k - 1]
  }

  function FilledCache(g: Geometry, k: nat): map<nat, Block>
  {
    if k == 0 then map[] else FilledCache(g, k - 1)[g.start + g.size + k - 1 := ZeroBlock()]
  }

  function Share(k: nat, from: nat): nat { if k < from then 0 else if k < from + 10 then k - from else 10 }

  lemma FillStep(g: Geometry, d: seq<Block>, k: nat)
    requires g.Valid() && |d| == g.nblocks && k < g.Room() && g.start + g.size + k < g.nblocks
    ensures Next(g, Filled(g, d, k), Write(k / 10, g.start + g.size + k, ZeroBlock()), Filled(g, d, k + 1))
  {
    var s, s' := Filled(g, d, k), Filled(g, d, k + 1);
    assert g.start + g.size + k !in s.lh;
    assert s'.ops == s.ops[k / 10 := Op(s.ops[k / 10].calls + 1, s.ops[k / 10].added + 1)];
  }

  lemma ThreeBegin(g: Geometry, d: seq<Block>) returns (ss: seq<State>, ls: seq<Label>)
    requires g.Valid() && |d| == g.nblocks && WordAt(d[g.start], 0) == 0
    ensures |ls| == 3 && IsRun(g, ss, ls) && Init(g, ss[0]) && ss[3] == Filled(g, d, 0)
    ensures forall i :: 0 <= i < |ss| ==> FewCalls(ss[i]) && WithinBudget(ss[i])
  {
    var s0 := State(d, [], map[], [], false, Idle);
    var s1, s2 := s0.(ops := [Op(0, 0)]), s0.(ops := [Op(0, 0), Op(0, 0)]);
    ss, ls := [s0, s1, s2, Filled(g, d, 0)], [Begin, Begin, Begin];
    assert Filled(g, d, 0) == s2.(ops := s2.ops + [Op(0, 0)]);
  }

  /** Where FewCallsNeverPanic ends, on every disk with as many home blocks as the log
      holds: three operations let in together, none of which calls log_write more
      than MAXOPBLOCKS times, can meet a full log.  If the log has at most LOGSIZE
      blocks, as mkfs makes it, the third has calls left and the next one panics;
      otherwise all have used up theirs, and one more panics even on a block that is
      logged already. */
  lemma FullLogPanics(g: Geometry, d: seq<Block>) returns (ss: seq<State>, ls: seq<Label>)
    requires g.Valid() && |d| == g.nblocks && WordAt(d[g.start], 0) == 0 && g.start + g.size + g.Room() <= g.nblocks
    ensures IsRun(g, ss, ls) && Init(g, ss[0])
    ensures forall i :: 0 <= i < |ss| ==> FewCalls(ss[i]) && WithinBudget(ss[i])
    ensures var s := ss[|ls|];
      && TooBig(g, s) && |s.ops| == 3
      && (g.size <= LOGSIZE ==> s.ops[2].calls < MAXOPBLOCKS)
      && (g.size > LOGSIZE ==> forall i :: 0 <= i < 3 ==> s.ops[i].calls == MAXOPBLOCKS)
  {
    hide Next, FilledList, FilledCache;
    ss, ls := ThreeBegin(g, d);
    var k := 0;
    while k < g.Room()
      invariant 0 <= k <= g.Room() && |ls| == 3 + k && |ss| == 4 + k && Init(g, ss[0])
      invariant IsRun(g, ss, ls) && ss[|ls|] == Filled(g, d, k)
      invariant forall i :: 0 <= i < |ss| ==> FewCalls(ss[i]) && WithinBudget(ss[i])
    {
      FillStep(g, d, k);
      ss, ls := ss + [Filled(g, d, k + 1)], ls + [Write(k / 10, g.start + g.size + k, ZeroBlock())];
      k := k + 1;
    }
  }
}
