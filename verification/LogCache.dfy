/** log.c on the buffer cache of bio.c, together with every other user of the cache.
    A step is one act of some process on one buffer: bget, the lock and the disk read of
    bread, a store, log_write, bwrite, and the two halves of brelse.  The commit and the
    recovery are one process among the others: it takes two buffers at a time, and readers,
    who need no begin_op, use buffers meanwhile. */
module LogCache {
  import opened Blocks
  import opened BufSpec
  import opened Counting
  import opened LogMachine
  import BufRuns
  import LogRuns

  /** How far the committing or recovering process is with its next block. */
  datatype Stage =
    | Ready
    | Got1(i: nat)          // has a reference to the first buffer
    | Held1(i: nat)         // holds it
    | Got2(i: nat, j: nat)  // and has a reference to the second
    | Held2(i: nat, j: nat) // holds both
    | Moved(from: seq<nat>, to: nat) // has changed the data of one
    | Leaving(list: seq<nat>, unlocked: bool) // gives up the buffers in order
  {
    function Refs(): set<nat> {
      match this
      case Ready => {}
      case Got1(i) => {i}
      case Held1(i) => {i}
      case Got2(i, j) => {i, j}
      case Held2(i, j) => {i, j}
      case Moved(from, to) => (set x | x in from) + {to}
      case Leaving(list, _) => set x | x in list
    }

    function Locks(): set<nat> {
      match this
      case Ready => {}
      case Got1(i) => {}
      case Held1(i) => {i}
      case Got2(i, j) => {i}
      case Held2(i, j) => {i, j}
      case Moved(from, to) => (set x | x in from) + {to}
      case Leaving(list, unlocked) => if unlocked && list != [] then set x | x in list[1..] else set x | x in list
    }
  }

  /** The cache, the fields of `struct log`, the stage of the log's own process; `logged`
      remembers what log_write was last given for each block not yet written home. */
  datatype System = System(c: Cache, lh: seq<nat>, logged: map<nat, Block>, ops: seq<Op>, committing: bool,
                           pc: Pc, stage: Stage)
  {
    /** The system as the log machine sees it. */
    function Log(): State { State(c.disk, lh, logged, ops, committing, pc) }

    function Mine(i: nat): nat { if i in stage.Refs() then 1 else 0 }

    /** Some process other than the log's holds buffer i. */
    predicate Theirs(i: nat)
      requires i < |c.bufs|
    {
      c.bufs[i].locked && i !in stage.Locks()
    }
  }

  /** A commit or a recovery is under way and has a block to deal with. */
  predicate Working(s: State) { s.pc.Copying? || s.pc.Installing? || s.pc.Recovering? || s.pc.Booting? }

  /** It has a block to copy, not the header. */
  predicate Moves(s: State) { (s.pc.Copying? || s.pc.Installing? || s.pc.Recovering?) && s.pc.t < |s.lh| }

  /** It has the header to write. */
  predicate Heads(s: State) { (s.pc.Copying? || s.pc.Installing? || s.pc.Recovering?) && s.pc.t == |s.lh| }

  /** The block it breads first: the log block, or the header. */
  function FirstBlock(g: Geometry, s: State): nat { if Moves(s) then g.Slot(s.pc.t) else g.start }

  function SecondBlock(s: State): nat
    requires Moves(s)
  {
    s.lh[s.pc.t]
  }

  /** The list write_head stores. */
  function Listed(s: State): seq<nat> { if s.pc.Copying? then s.lh else [] }

  predicate Storable(lh: seq<nat>) { |lh| <= LOGSIZE && forall k :: 0 <= k < |lh| ==> lh[k] < 0x1_0000_0000 }

  /** Where the process is after its bwrite. */
  function AfterOut(s: State): Pc
    requires Moves(s) || Heads(s)
  {
    if Moves(s) then
      (if s.pc.Copying? then Copying(s.pc.t + 1) else if s.pc.Installing? then Installing(s.pc.t + 1)
       else Recovering(s.pc.t + 1))
    else
      (if s.pc.Copying? then Installing(0) else if s.pc.Installing? then Cleared else Idle)
  }

  /** The step of the log machine that this bwrite is. */
  function OutLabel(s: State): Label
    requires Moves(s) || Heads(s)
  {
    if Moves(s) then (if s.pc.Copying? then Copy else if s.pc.Installing? then Install else Reinstall)
    else (if s.pc.Copying? then Head else if s.pc.Installing? then Clear else Reclear)
  }

  datatype Act =
    // any process
    | Getting(b: nat) | Filling(i: nat) | Unlocking(i: nat) | Dropping(i: nat)
    // an operation
    | Beginning | Storing(i: nat, data: Block) | Logging(op: nat, i: nat) | Ending(op: nat)
    // the log's own process
    | LogGet | LogFill | LogMove | LogOut | LogRead | LogUnlock | LogDrop | Finishing
    | Crashing

  predicate Has(c: Cache, i: nat) { i < |c.bufs| && c.bufs[i].dev == ROOTDEV && c.bufs[i].blockno < |c.disk| }

  ghost predicate Step(g: Geometry, y: System, a: Act, y': System)
    requires g.Valid() && Shape(y.c) && |y.c.disk| == g.nblocks
  {
    match a
    case Getting(b) => b < |y.c.disk| && Get(y.c, ROOTDEV, b).1.Some? && y' == y.(c := Get(y.c, ROOTDEV, b).0)
    case Filling(i) =>
      && Has(y.c, i) && !y.c.bufs[i].locked && y.c.bufs[i].refcnt > y.Mine(i)
      && y' == y.(c := Fill(y.c, i))
    case Unlocking(i) => Has(y.c, i) && y.Theirs(i) && i !in y.c.touched && y' == y.(c := Unlock(y.c, i))
    case Dropping(i) =>
      && Has(y.c, i) && y.c.bufs[i].refcnt > y.Mine(i) + (if y.Theirs(i) then 1 else 0)
      && y' == y.(c := Drop(y.c, i))
    case Beginning =>
      && y.stage.Ready? && !y.pc.Booting? && !y.pc.Recovering? && Admits(y.Log())
      && y' == y.(ops := y.ops + [Op(0, 0)])
    case Storing(i, data) =>
      && y.ops != [] && Has(y.c, i) && y.Theirs(i) && y.c.bufs[i].valid && g.Home(y.c.bufs[i].blockno)
      && y' == y.(c := Modify(y.c, i, data))
    case Logging(op, i) =>
      && op < |y.ops| && Has(y.c, i) && y.Theirs(i) && y.c.bufs[i].valid && g.Home(y.c.bufs[i].blockno)
      && !TooBig(g, y.Log())
      && var b, o := y.c.bufs[i].blockno, y.ops[op];
      y' == y.(c := Pin(y.c, i), lh := Absorb(y.lh, b), logged := y.logged[b := y.c.bufs[i].data],
               ops := y.ops[op := Op(o.calls + 1, if b in y.lh then o.added else o.added + 1)])
    case Ending(op) =>
      && op < |y.ops| && (|y.ops| == 1 ==> y.c.touched == {})
      && var ops := y.ops[..op] + y.ops[op + 1..];
      y' == if ops != [] then y.(ops := ops)
            else y.(ops := ops, committing := true, pc := if y.lh == [] then Cleared else Copying(0))
    case LogGet =>
      if y.stage.Held1? && Moves(y.Log()) then
        var (c', r) := Get(y.c, ROOTDEV, SecondBlock(y.Log()));
        r.Some? && y' == y.(c := c', stage := Got2(y.stage.i, r.value))
      else
        && y.stage.Ready? && Working(y.Log())
        && var (c', r) := Get(y.c, ROOTDEV, FirstBlock(g, y.Log()));
        r.Some? && y' == y.(c := c', stage := Got1(r.value))
    case LogFill =>
      match y.stage {
        case Got1(i) => Has(y.c, i) && !y.c.bufs[i].locked && y' == y.(c := Fill(y.c, i), stage := Held1(i))
        case Got2(i, j) => Has(y.c, j) && !y.c.bufs[j].locked && y' == y.(c := Fill(y.c, j), stage := Held2(i, j))
        case _ => false
      }
    case LogMove =>
      match y.stage {
        case Held1(i) =>
          && i < |y.c.bufs| && Heads(y.Log()) && Storable(Listed(y.Log()))
          && y' == y.(c := Modify(y.c, i, WithHeader(y.c.bufs[i].data, Listed(y.Log()))), stage := Moved([], i))
        case Held2(i, j) =>
          && i < |y.c.bufs| && j < |y.c.bufs|
          && var (from, to) := if y.pc.Copying? then (j, i) else (i, j);
          y' == y.(c := Modify(y.c, to, y.c.bufs[from].data), stage := Moved([from], to))
        case _ => false
      }
    case LogOut =>
      && y.stage.Moved? && Has(y.c, y.stage.to) && (Moves(y.Log()) || Heads(y.Log()))
      && y' == y.(c := WriteOut(y.c, y.stage.to), logged := y.logged - {y.c.bufs[y.stage.to].blockno},
                  lh := if Heads(y.Log()) then Listed(y.Log()) else y.lh, pc := AfterOut(y.Log()),
                  stage := Leaving(y.stage.from + [y.stage.to], false))
    case LogRead =>
      && y.pc.Booting? && y.stage.Held1? && y.stage.i < |y.c.bufs|
      && y' == y.(lh := HeaderOf(y.c.bufs[y.stage.i].data), pc := Recovering(0), stage := Leaving([y.stage.i], false))
    case LogUnlock =>
      && y.stage.Leaving? && !y.stage.unlocked && y.stage.list != [] && Has(y.c, y.stage.list[0])
      && y' == y.(c := Unlock(y.c, y.stage.list[0]), stage := y.stage.(unlocked := true))
    case LogDrop =>
      && y.stage.Leaving? && y.stage.unlocked && y.stage.list != [] && Has(y.c, y.stage.list[0])
      && y.c.bufs[y.stage.list[0]].refcnt > 0
      && y' == y.(c := Drop(y.c, y.stage.list[0]),
                  stage := if |y.stage.list| == 1 then Ready else Leaving(y.stage.list[1..], false))
    case Finishing => y.stage.Ready? && y.pc.Cleared? && y' == y.(committing := false, pc := Idle)
    case Crashing =>
      && BufRuns.Booted(y'.c) && y'.c.disk == y.c.disk
      && y' == System(y'.c, [], map[], [], false, Booting, Ready)
  }

  /** The step of the log machine an act is, if it is one. */
  function LabelOf(y: System, a: Act): Option<Label>
  {
    match a
    case Beginning => Some(Begin)
    case Logging(op, i) => if i < |y.c.bufs| then Some(Write(op, y.c.bufs[i].blockno, y.c.bufs[i].data)) else None
    case Ending(op) => Some(End(op))
    case LogOut => if Moves(y.Log()) || Heads(y.Log()) then Some(OutLabel(y.Log())) else None
    case LogRead => Some(ReadHead)
    case Finishing => Some(Finish)
    case Crashing => Some(Crash)
    case _ => None
  }

  // ---- the invariant ----

  /** Buffer i, as its users and the log see it. */
  ghost predicate BufOk(y: System, i: nat)
    requires i < |y.c.bufs|
  {
    var u := y.c.bufs[i];
    && (i in y.stage.Locks() ==> u.locked)
    && (i in y.stage.Refs() ==> u.refcnt > 0)
    && (y.Theirs(i) ==> u.refcnt > y.Mine(i))
    && (u.dirty ==> u.blockno in y.logged && (i !in y.c.touched ==> u.data == y.logged[u.blockno]))
    && (i in y.c.touched ==> y.ops != [] || (y.stage.Moved? && i == y.stage.to))
  }

  ghost predicate HasDirty(c: Cache, b: nat) { exists i: nat :: DirtyFor(c, i, b) }

  predicate DirtyFor(c: Cache, i: nat, b: nat) { i < |c.bufs| && c.bufs[i].dirty && c.bufs[i].blockno == b }

  /** Buffer i is that of block b. */
  predicate At(c: Cache, i: nat, b: nat) { i < |c.bufs| && c.bufs[i].Is(ROOTDEV, b) }

  predicate HeldAt(c: Cache, i: nat, b: nat) { At(c, i, b) && c.bufs[i].valid }

  predicate HeldList(c: Cache, list: seq<nat>) {
    forall k :: 0 <= k < |list| ==> list[k] < |c.bufs| && c.bufs[list[k]].dev == ROOTDEV && c.bufs[list[k]].valid
  }

  function Target(g: Geometry, s: State): nat { if Moves(s) && !s.pc.Copying? then SecondBlock(s)
                                                else FirstBlock(g, s) }

  /** What the block is to hold after the bwrite. */
  ghost predicate Wanted(g: Geometry, s: State, data: Block)
  {
    if Moves(s) then
      if s.pc.Copying? then s.lh[s.pc.t] in s.cache && data == s.cache[s.lh[s.pc.t]]
      else g.Slot(s.pc.t) < |s.disk| && data == s.disk[g.Slot(s.pc.t)]
    else Heads(s) && Storable(Listed(s)) && g.start < |s.disk| && data == WithHeader(s.disk[g.start], Listed(s))
  }

  ghost predicate StageOk(g: Geometry, y: System)
  {
    match y.stage
    case Ready => true
    case Got1(i) => Working(y.Log()) && At(y.c, i, FirstBlock(g, y.Log()))
    case Held1(i) => Working(y.Log()) && HeldAt(y.c, i, FirstBlock(g, y.Log()))
    case Got2(i, j) =>
      Moves(y.Log()) && i != j && HeldAt(y.c, i, FirstBlock(g, y.Log())) && At(y.c, j, SecondBlock(y.Log()))
    case Held2(i, j) =>
      Moves(y.Log()) && i != j && HeldAt(y.c, i, FirstBlock(g, y.Log())) && HeldAt(y.c, j, SecondBlock(y.Log()))
    case Moved(from, to) =>
      && |from| <= 1 && to !in from && HeldList(y.c, from)
      && HeldAt(y.c, to, Target(g, y.Log())) && Wanted(g, y.Log(), y.c.bufs[to].data)
    case Leaving(list, unlocked) => 1 <= |list| <= 2 && Distinct(list) && HeldList(y.c, list)
  }

  ghost predicate Whole(g: Geometry, y: System)
  {
    && Good(y.c) && Inv(g, y.Log())
    && (y.stage != Ready ==> y.ops == [])
    && (forall i: nat {:trigger BufOk(y, i)} :: i < |y.c.bufs| ==> BufOk(y, i))
    && (forall b: nat {:trigger HasDirty(y.c, b)} :: b in y.logged ==> HasDirty(y.c, b))
    && StageOk(g, y)
  }

  // ---- one buffer at a time ----

  /** y' is y but for buffer i and the stage; the log's lists are the same. */
  ghost predicate Differs(y: System, y': System, i: nat)
  {
    && i < |y.c.bufs| == |y'.c.bufs|
    && y'.logged == y.logged && y'.ops == y.ops
    && (forall j :: 0 <= j < |y.c.bufs| && j != i ==> y'.c.bufs[j] == y.c.bufs[j])
    && (forall j :: j != i ==> (j in y'.c.touched <==> j in y.c.touched))
    && (forall j :: j != i ==>
      (j in y'.stage.Refs() <==> j in y.stage.Refs()) && (j in y'.stage.Locks() <==> j in y.stage.Locks()))
    && (y.stage.Moved? && y.stage.to != i ==> y'.stage == y.stage)
    && (y.c.bufs[i].dirty ==> y'.c.bufs[i].dirty && y'.c.bufs[i].blockno == y.c.bufs[i].blockno)
  }

  lemma OneBuffer(g: Geometry, y: System, y': System, i: nat)
    requires Whole(g, y) && Differs(y, y', i) && Good(y'.c) && Inv(g, y'.Log())
    requires BufOk(y', i) && StageOk(g, y') && (y'.stage != Ready ==> y'.ops == [])
    ensures Whole(g, y')
  {
    hide Good, Inv, StageOk;
    forall j: nat | j < |y'.c.bufs| && j != i ensures BufOk(y', j) {
      assert BufOk(y, j);
    }
    forall b: nat | b in y'.logged ensures HasDirty(y'.c, b) {
      assert HasDirty(y.c, b);
      var j: nat :| DirtyFor(y.c, j, b);
      assert DirtyFor(y'.c, j, b);
    }
  }

  /** The stage does not mind what happens to buffer i. */
  lemma StageKept(g: Geometry, y: System, y': System, i: nat)
    requires StageOk(g, y) && Differs(y, y', i) && y'.stage == y.stage && y'.Log() == y.Log()
    requires i in y.stage.Refs() ==>
      && y'.c.bufs[i].dev == y.c.bufs[i].dev && y'.c.bufs[i].blockno == y.c.bufs[i].blockno
      && (y.c.bufs[i].valid ==> y'.c.bufs[i].valid)
    requires i in y.stage.Locks() ==> y'.c.bufs[i].data == y.c.bufs[i].data
    ensures StageOk(g, y')
  {
  }

  /** What the invariant says of one buffer. */
  lemma OfBuffer(g: Geometry, y: System, i: nat)
    requires Whole(g, y) && i < |y.c.bufs|
    ensures BufOk(y, i) && GoodBuf(y.c, i)
  {
  }

  lemma UserKeeps(g: Geometry, y: System, y': System, i: nat)
    requires Whole(g, y) && Differs(y, y', i) && y' == y.(c := y'.c) && y'.c.disk == y.c.disk && Good(y'.c)
    requires BufOk(y', i)
    requires i in y.stage.Refs() ==>
      && y'.c.bufs[i].dev == y.c.bufs[i].dev && y'.c.bufs[i].blockno == y.c.bufs[i].blockno
      && (y.c.bufs[i].valid ==> y'.c.bufs[i].valid)
    requires i in y.stage.Locks() ==> y'.c.bufs[i].data == y.c.bufs[i].data
    ensures Whole(g, y')
  {
    hide Good, Inv, BufOk, StageOk, Differs;
    StageKept(g, y, y', i);
    OneBuffer(g, y, y', i);
  }

  lemma GettingKeeps(g: Geometry, y: System, b: nat, y': System)
    requires Whole(g, y) && Step(g, y, Getting(b), y')
    ensures Whole(g, y')
  {
    hide Good, Inv, StageOk, Get;
    GetKeepsView(y.c, b);
    GoodIsShape(y.c);
    GetsOne(y.c, b);
    var i := Get(y.c, ROOTDEV, b).1.value;
    OfBuffer(g, y, i);
    UserKeeps(g, y, y', i);
  }

  lemma FillingKeeps(g: Geometry, y: System, a: Act, y': System)
    requires Whole(g, y) && Step(g, y, a, y') && a.Filling?
    ensures Whole(g, y')
  {
    hide Inv, StageOk;
    OfBuffer(g, y, a.i);
    hide Good;
    FillKeepsView(y.c, a.i);
    UserKeeps(g, y, y', a.i);
  }

  lemma UnlockingKeeps(g: Geometry, y: System, a: Act, y': System)
    requires Whole(g, y) && Step(g, y, a, y') && a.Unlocking?
    ensures Whole(g, y')
  {
    hide Inv, StageOk;
    OfBuffer(g, y, a.i);
    hide Good;
    UnlockKeepsView(y.c, a.i);
    UserKeeps(g, y, y', a.i);
  }

  lemma DroppingKeeps(g: Geometry, y: System, a: Act, y': System)
    requires Whole(g, y) && Step(g, y, a, y') && a.Dropping?
    ensures Whole(g, y')
  {
    hide Inv, StageOk;
    OfBuffer(g, y, a.i);
    hide Good;
    DropKeepsView(y.c, a.i);
    UserKeeps(g, y, y', a.i);
  }

  lemma StoringKeeps(g: Geometry, y: System, a: Act, y': System)
    requires Whole(g, y) && Step(g, y, a, y') && a.Storing?
    ensures Whole(g, y')
  {
    hide Inv, StageOk;
    OfBuffer(g, y, a.i);
    hide Good;
    ModifyChangesView(y.c, a.i, a.data);
    UserKeeps(g, y, y', a.i);
  }

  /** No other buffer is for the block of buffer i. */
  lemma OnlyBuffer(c: Cache, i: nat, j: nat)
    requires Good(c) && i < |c.bufs| && j < |c.bufs| && c.bufs[i].dev == ROOTDEV == c.bufs[j].dev
    requires c.bufs[i].blockno == c.bufs[j].blockno
    ensures i == j
  {
    assert c.bufs[i].Is(c.bufs[j].dev, c.bufs[j].blockno);
  }

  lemma LoggingKeeps(g: Geometry, y: System, op: nat, i: nat, y': System)
    requires Whole(g, y) && Step(g, y, Logging(op, i), y')
    ensures Whole(g, y')
    ensures Next(g, y.Log(), Write(op, y.c.bufs[i].blockno, y.c.bufs[i].data), y'.Log())
  {
    hide Inv, StageOk;
    OfBuffer(g, y, i);
    hide Good;
    PinKeepsView(y.c, i);
    var b := y.c.bufs[i].blockno;
    StepRefines(g, y.Log(), Write(op, b, y.c.bufs[i].data), y'.Log());
    forall j: nat | j < |y'.c.bufs| ensures BufOk(y', j) {
      OfBuffer(g, y, j);
      if j != i && y.c.bufs[j].dirty && y.c.bufs[j].blockno == b {
        OnlyBuffer(y.c, i, j);
      }
    }
    forall x: nat | x in y'.logged ensures HasDirty(y'.c, x) {
      if x == b {
        assert DirtyFor(y'.c, i, x);
      } else {
        assert HasDirty(y.c, x);
        var j: nat :| DirtyFor(y.c, j, x);
        assert DirtyFor(y'.c, j, x);
      }
    }
    assert y.stage.Ready?;
    assert StageOk(g, y') by { ReadyIsOk(g, y'); }
  }

  lemma ReadyIsOk(g: Geometry, y: System)
    requires y.stage.Ready?
    ensures StageOk(g, y)
  {
  }

  // ---- the log's own process ----

  /** While the log works on a block there is no operation, and its blocks are on the disk. */
  lemma WhileWorking(g: Geometry, y: System)
    requires Inv(g, y.Log()) && Working(y.Log())
    ensures y.ops == [] && |y.c.disk| == g.nblocks && FirstBlock(g, y.Log()) < |y.c.disk|
    ensures Moves(y.Log()) ==> SecondBlock(y.Log()) < |y.c.disk| && SecondBlock(y.Log()) != FirstBlock(g, y.Log())
    ensures Storable(y.lh)
    ensures FirstBlock(g, y.Log()) !in y.logged
    ensures Moves(y.Log()) && y.pc.Copying? ==> SecondBlock(y.Log()) in y.logged
  {
  }

  lemma FirstGet(g: Geometry, y: System, y': System)
    requires Whole(g, y) && Step(g, y, LogGet, y') && y.stage.Ready?
    ensures Whole(g, y')
  {
    hide Good, Inv, Get;
    WhileWorking(g, y);
    var b := FirstBlock(g, y.Log());
    GoodIsShape(y.c);
    GetKeepsView(y.c, b);
    GetsOne(y.c, b);
    var i := y'.stage.i;
    OfBuffer(g, y, i);
    OneBuffer(g, y, y', i);
  }

  lemma SecondGet(g: Geometry, y: System, y': System)
    requires Whole(g, y) && Step(g, y, LogGet, y') && y.stage.Held1?
    ensures Whole(g, y')
  {
    hide Good, Inv, Get;
    WhileWorking(g, y);
    var b := SecondBlock(y.Log());
    GoodIsShape(y.c);
    GetKeepsView(y.c, b);
    GetsOne(y.c, b);
    var j := y'.stage.j;
    OfBuffer(g, y, y.stage.i);
    OfBuffer(g, y, j);
    OneBuffer(g, y, y', j);
  }

  lemma LogFillKeeps(g: Geometry, y: System, y': System)
    requires Whole(g, y) && Step(g, y, LogFill, y')
    ensures Whole(g, y')
  {
    hide Inv;
    var i := if y.stage.Got1? then y.stage.i else y.stage.j;
    OfBuffer(g, y, i);
    hide Good;
    FillKeepsView(y.c, i);
    OneBuffer(g, y, y', i);
  }

  /** A buffer no one is changing shows the log machine's view of its block. */
  lemma CleanShows(g: Geometry, y: System, i: nat)
    requires Whole(g, y) && i < |y.c.bufs| && y.c.bufs[i].dev == ROOTDEV && y.c.bufs[i].valid && i !in y.c.touched
    ensures y.c.bufs[i].blockno < |y.c.disk| && y.c.bufs[i].data == LogRuns.View(y.Log(), y.c.bufs[i].blockno)
  {
    hide Inv, StageOk;
    OfBuffer(g, y, i);
    var b := y.c.bufs[i].blockno;
    if b in y.logged {
      assert HasDirty(y.c, b);
      var j: nat :| DirtyFor(y.c, j, b);
      OfBuffer(g, y, j);
      OnlyBuffer(y.c, i, j);
    }
  }

  /** The log's process stores data in buffer `to`, having read it off `from` or made it up. */
  lemma MoveKeeps(g: Geometry, y: System, y': System, from: seq<nat>, to: nat, data: Block)
    requires Whole(g, y) && y.stage != Ready && !y.stage.Moved? && |from| <= 1 && to !in from && to < |y.c.bufs|
    requires y' == y.(c := Modify(y.c, to, data), stage := Moved(from, to))
    requires y.stage.Refs() == y'.stage.Refs() == y.stage.Locks()
    requires HeldList(y.c, from) && HeldAt(y.c, to, Target(g, y.Log())) && Wanted(g, y.Log(), data)
    ensures Whole(g, y')
  {
    hide Inv, HasDirty, Wanted, Target, WithHeader, HeaderOf;
    OfBuffer(g, y, to);
    hide Good;
    ModifyChangesView(y.c, to, data);
    assert y'.stage.Locks() == y.stage.Locks();
    assert Differs(y, y', to) && BufOk(y', to) && StageOk(g, y');
    hide StageOk, BufOk, Differs;
    OneBuffer(g, y, y', to);
  }

  /** The log's process has buffer i to itself: it shows the log machine's view. */
  lemma MineShows(g: Geometry, y: System, i: nat, b: nat)
    requires Whole(g, y) && y.stage != Ready && !y.stage.Moved? && HeldAt(y.c, i, b)
    ensures b < |y.c.disk| && y.c.bufs[i].data == LogRuns.View(y.Log(), b)
  {
    hide Inv, StageOk, HasDirty;
    OfBuffer(g, y, i);
    CleanShows(g, y, i);
  }

  lemma HeaderMove(g: Geometry, y: System, y': System)
    requires Whole(g, y) && Step(g, y, LogMove, y') && y.stage.Held1?
    ensures Whole(g, y')
  {
    hide Inv, HasDirty, WithHeader, HeaderOf, BufOk, Good, LogRuns.View;
    var i := y.stage.i;
    WhileWorking(g, y);
    MineShows(g, y, i, FirstBlock(g, y.Log()));
    ViewUnlogged(y.Log(), g.start);
    assert y'.stage.Refs() == {i};
    MoveKeeps(g, y, y', [], i, WithHeader(y.c.bufs[i].data, Listed(y.Log())));
  }

  lemma ViewUnlogged(s: State, b: nat)
    requires b < |s.disk|
    ensures b !in s.cache ==> LogRuns.View(s, b) == s.disk[b]
    ensures b in s.cache ==> LogRuns.View(s, b) == s.cache[b]
  {
  }

  lemma BlockMove(g: Geometry, y: System, y': System)
    requires Whole(g, y) && Step(g, y, LogMove, y') && y.stage.Held2?
    ensures Whole(g, y')
  {
    hide Inv, HasDirty, WithHeader, HeaderOf, BufOk, Good, LogRuns.View;
    var from, to := y'.stage.from[0], y'.stage.to;
    WhileWorking(g, y);
    var b := if y.pc.Copying? then SecondBlock(y.Log()) else FirstBlock(g, y.Log());
    MineShows(g, y, from, b);
    ViewUnlogged(y.Log(), b);
    assert y'.stage.Refs() == {from, to};
    MoveKeeps(g, y, y', [from], to, y.c.bufs[from].data);
  }

  /** The log after a bwrite of data to the target block. */
  ghost function AfterWrite(g: Geometry, s: State, data: Block): State
    requires (Moves(s) || Heads(s)) && Target(g, s) < |s.disk|
  {
    s.(disk := s.disk[Target(g, s) := data], cache := s.cache - {Target(g, s)},
       lh := if Heads(s) then Listed(s) else s.lh, pc := AfterOut(s))
  }

  lemma MoveIsStep(g: Geometry, s: State, data: Block)
    requires Inv(g, s) && Moves(s) && Wanted(g, s, data) && Target(g, s) < |s.disk|
    requires s.pc.Copying? ==> Target(g, s) !in s.cache
    ensures Next(g, s, OutLabel(s), AfterWrite(g, s, data))
  {
    assert Target(g, s) !in s.cache ==> s.cache - {Target(g, s)} == s.cache;
  }

  lemma HeadIsStep(g: Geometry, s: State, data: Block)
    requires Inv(g, s) && Heads(s) && Wanted(g, s, data) && Target(g, s) < |s.disk| && Target(g, s) !in s.cache
    ensures Next(g, s, OutLabel(s), AfterWrite(g, s, data))
  {
    hide HeaderOf, WithHeader;
    assert s.cache - {Target(g, s)} == s.cache;
  }

  /** bwrite is the step of the log machine it should be. */
  lemma OutIsStep(g: Geometry, y: System, y': System)
    requires Whole(g, y) && Step(g, y, LogOut, y')
    ensures Next(g, y.Log(), OutLabel(y.Log()), y'.Log())
  {
    hide Inv, Good, BufOk, WithHeader, HeaderOf, HasDirty, Next, Wanted, AfterOut, OutLabel;
    var s, data := y.Log(), y.c.bufs[y.stage.to].data;
    WhileWorking(g, y);
    assert y'.Log() == AfterWrite(g, s, data);
    if Moves(s) {
      MoveIsStep(g, s, data);
    } else {
      HeadIsStep(g, s, data);
    }
  }

  lemma OutBuffer(g: Geometry, y: System, y': System, j: nat)
    requires Whole(g, y) && Step(g, y, LogOut, y') && j < |y.c.bufs|
    ensures |y'.c.bufs| == |y.c.bufs| && BufOk(y', j)
  {
    hide Inv, WithHeader, HeaderOf, Wanted, AfterOut, Storable, HasDirty;
    var to := y.stage.to;
    OfBuffer(g, y, to);
    OfBuffer(g, y, j);
    if j != to && y.c.bufs[j].dirty && y.c.bufs[j].blockno == y.c.bufs[to].blockno {
      OnlyBuffer(y.c, to, j);
    }
  }

  lemma OutStage(g: Geometry, y: System, y': System)
    requires StageOk(g, y) && y.stage.Moved? && y'.stage == Leaving(y.stage.from + [y.stage.to], false)
    requires |y'.c.bufs| == |y.c.bufs| && forall j :: 0 <= j < |y.c.bufs| ==>
      y'.c.bufs[j].dev == y.c.bufs[j].dev && (y.c.bufs[j].valid ==> y'.c.bufs[j].valid)
    ensures StageOk(g, y')
  {
    hide Wanted, Target;
  }

  lemma OutKeeps(g: Geometry, y: System, y': System)
    requires Whole(g, y) && Step(g, y, LogOut, y')
    ensures Whole(g, y')
  {
    hide Inv, BufOk, WithHeader, HeaderOf, AfterOut, Storable;
    var to := y.stage.to;
    OutIsStep(g, y, y');
    StepRefines(g, y.Log(), OutLabel(y.Log()), y'.Log());
    OfBuffer(g, y, to);
    OutStage(g, y, y');
    assert y.ops == [];
    assert BufOk(y, to) && HeldAt(y.c, to, Target(g, y.Log()));
    HeldIsLocked(y, to);
    hide Good, Next, StageOk;
    WriteOutKeepsView(y.c, to);
    forall j: nat | j < |y'.c.bufs| ensures BufOk(y', j) {
      OutBuffer(g, y, y', j);
    }
    forall x: nat | x in y'.logged ensures HasDirty(y'.c, x) {
      assert HasDirty(y.c, x);
      var j: nat :| DirtyFor(y.c, j, x);
      assert DirtyFor(y'.c, j, x);
    }
  }

  lemma HeldIsLocked(y: System, i: nat)
    requires i < |y.c.bufs| && BufOk(y, i) && i in y.stage.Locks()
    ensures y.c.bufs[i].locked
  {
  }

  lemma ReadKeeps(g: Geometry, y: System, y': System)
    requires Whole(g, y) && Step(g, y, LogRead, y')
    ensures Whole(g, y') && Next(g, y.Log(), ReadHead, y'.Log())
  {
    hide Inv, Good, HeaderOf, HasDirty, StageOk, BufOk, Differs, Next;
    var i := y.stage.i;
    ReadOne(g, y, y');
    StepRefines(g, y.Log(), ReadHead, y'.Log());
    OneBuffer(g, y, y', i);
  }

  /** The header read changes the one buffer, and the log's state as ReadHead does. */
  lemma ReadOne(g: Geometry, y: System, y': System)
    requires Whole(g, y) && Step(g, y, LogRead, y')
    ensures y.stage.i < |y.c.bufs| && Differs(y, y', y.stage.i) && BufOk(y', y.stage.i) && StageOk(g, y')
    ensures Next(g, y.Log(), ReadHead, y'.Log())
  {
    hide Inv, Good, HeaderOf, HasDirty;
    OfBuffer(g, y, y.stage.i);
    WhileWorking(g, y);
    CleanShows(g, y, y.stage.i);
  }

  lemma LogUnlockKeeps(g: Geometry, y: System, y': System)
    requires Whole(g, y) && Step(g, y, LogUnlock, y')
    ensures Whole(g, y')
  {
    hide Inv;
    var list := y.stage.list;
    OfBuffer(g, y, list[0]);
    hide Good;
    UnlockKeepsView(y.c, list[0]);
    LeavingMembers(list);
    OneBuffer(g, y, y', list[0]);
  }

  lemma LogDropKeeps(g: Geometry, y: System, y': System)
    requires Whole(g, y) && Step(g, y, LogDrop, y')
    ensures Whole(g, y')
  {
    hide Inv, Good, ToFront, HasDirty, BufOk, Differs;
    var list := y.stage.list;
    OfBuffer(g, y, list[0]);
    LeavingMembers(list);
    DropBuffer(g, y, y');
    DropKeepsView(y.c, list[0]);
    DropStage(g, y, y');
    hide StageOk, Step;
    OneBuffer(g, y, y', list[0]);
  }

  lemma DropBuffer(g: Geometry, y: System, y': System)
    requires Whole(g, y) && Step(g, y, LogDrop, y')
    ensures var i := y.stage.list[0];
      && Differs(y, y', i) && BufOk(y', i)
      && y.c.bufs[i].refcnt > if y.c.bufs[i].locked then 1 else 0
  {
    hide Inv, Good, ToFront, HasDirty, HeldList;
    var list := y.stage.list;
    OfBuffer(g, y, list[0]);
    LeavingMembers(list);
    assert |list| == 2 ==> list[1..] == [list[1]];
  }

  lemma DropStage(g: Geometry, y: System, y': System)
    requires StageOk(g, y) && y.stage.Leaving?
    requires y'.stage == if |y.stage.list| == 1 then Ready else Leaving(y.stage.list[1..], false)
    requires |y'.c.bufs| == |y.c.bufs| && forall j :: 0 <= j < |y.c.bufs| ==>
      y'.c.bufs[j].dev == y.c.bufs[j].dev && y'.c.bufs[j].valid == y.c.bufs[j].valid
    ensures StageOk(g, y')
  {
  }

  lemma LeavingMembers(list: seq<nat>)
    requires 1 <= |list| <= 2 && Distinct(list)
    ensures list[0] !in list[1..] && forall x :: x in list <==> x == list[0] || x in list[1..]
  {
  }

  // ---- every step ----

  lemma OperationKeeps(g: Geometry, y: System, a: Act, y': System)
    requires Whole(g, y) && Step(g, y, a, y') && (a.Beginning? || a.Ending? || a.Finishing?)
    ensures Whole(g, y') && Next(g, y.Log(), LabelOf(y, a).value, y'.Log())
  {
    assert Next(g, y.Log(), LabelOf(y, a).value, y'.Log());
    StepRefines(g, y.Log(), LabelOf(y, a).value, y'.Log());
    assert y.ops != [] ==> y.pc == Idle;
    assert y.pc.Cleared? ==> y.ops == [];
    hide Inv, Good, Next;
    forall i: nat | i < |y'.c.bufs| ensures BufOk(y', i) {
      OfBuffer(g, y, i);
    }
    ReadyIsOk(g, y');
  }

  lemma CrashKeeps(g: Geometry, y: System, y': System)
    requires Whole(g, y) && Step(g, y, Crashing, y')
    ensures Whole(g, y') && Next(g, y.Log(), Crash, y'.Log())
  {
    hide Inv, Good;
    StepRefines(g, y.Log(), Crash, y'.Log());
    BufRuns.BootedIsGood(y'.c);
  }

  lemma UnlabelledIsNothing(g: Geometry, y: System, a: Act, y': System)
    requires Whole(g, y) && Step(g, y, a, y') && LabelOf(y, a).None?
    ensures y'.Log() == y.Log()
  {
    hide Inv, Good, StageOk, BufOk, HasDirty;
    if a.Getting? || a.LogGet? {
      GoodIsShape(y.c);
      GetKeepsDisk(y.c);
    }
  }

  lemma GetKeepsDisk(c: Cache)
    requires Shape(c)
    ensures forall b: nat {:trigger Get(c, ROOTDEV, b)} :: Get(c, ROOTDEV, b).0.disk == c.disk
  {
  }

  lemma StageFits(g: Geometry, y: System, a: Act, y': System)
    requires Whole(g, y) && Step(g, y, a, y')
    ensures a.LogGet? ==> y.stage.Ready? || y.stage.Held1?
    ensures a.LogMove? ==> y.stage.Held1? || y.stage.Held2?
    ensures a.LogOut? ==> Moves(y.Log()) || Heads(y.Log())
    ensures a.Logging? ==> a.i < |y.c.bufs|
  {
    hide Inv, Good, StageOk, BufOk, HasDirty;
  }

  /** Every step of every process keeps the invariant, and is a step of the log machine or
      nothing at all to it. */
  lemma StepKeeps(g: Geometry, y: System, a: Act, y': System)
    requires Whole(g, y) && Step(g, y, a, y')
    ensures Whole(g, y')
    ensures match LabelOf(y, a) case Some(l) => Next(g, y.Log(), l, y'.Log()) case None => y'.Log() == y.Log()
  {
    hide Inv, Good, StageOk, BufOk, HasDirty, Next, OutLabel;
    if LabelOf(y, a).None? {
      UnlabelledIsNothing(g, y, a, y');
    }
    StageFits(g, y, a, y');
    hide Step;
    match a
    case Getting(b) => GettingKeeps(g, y, b, y');
    case Filling(_) => FillingKeeps(g, y, a, y');
    case Unlocking(_) => UnlockingKeeps(g, y, a, y');
    case Dropping(_) => DroppingKeeps(g, y, a, y');
    case Storing(_, _) => StoringKeeps(g, y, a, y');
    case Logging(op, i) => LoggingKeeps(g, y, op, i, y');
    case Beginning => OperationKeeps(g, y, a, y');
    case Ending(_) => OperationKeeps(g, y, a, y');
    case Finishing => OperationKeeps(g, y, a, y');
    case LogGet => if y.stage.Ready? { FirstGet(g, y, y'); } else { SecondGet(g, y, y'); }
    case LogFill => LogFillKeeps(g, y, y');
    case LogMove => if y.stage.Held1? { HeaderMove(g, y, y'); } else { BlockMove(g, y, y'); }
    case LogOut => OutIsStep(g, y, y'); OutKeeps(g, y, y');
    case LogRead => ReadKeeps(g, y, y');
    case LogUnlock => LogUnlockKeeps(g, y, y');
    case LogDrop => LogDropKeeps(g, y, y');
    case Crashing => CrashKeeps(g, y, y');
  }

  // ---- whole runs ----

  ghost predicate IsRun(g: Geometry, ys: seq<System>, acts: seq<Act>)
  {
    && g.Valid()
    && |ys| == |acts| + 1
    && (forall k :: 0 <= k < |ys| ==> Shape(ys[k].c) && |ys[k].c.disk| == g.nblocks)
    && forall k: nat {:trigger acts[k]} :: k < |acts| ==> Step(g, ys[k], acts[k], ys[k + 1])
  }

  /** binit has run, and the log on disk is empty. */
  ghost predicate Start(g: Geometry, y: System) { BufRuns.Booted(y.c) && Init(g, y.Log()) && y.stage.Ready? }

  lemma StartIsWhole(g: Geometry, y: System)
    requires Start(g, y)
    ensures Whole(g, y)
  {
    InitInv(g, y.Log());
    BufRuns.BootedIsGood(y.c);
  }

  /** The steps of the log machine among the first k acts, and the states around them. */
  function Trace(ys: seq<System>, acts: seq<Act>, k: nat): (ls: seq<Label>)
    requires k <= |acts| <= |ys|
  {
    if k == 0 then []
    else match LabelOf(ys[k - 1], acts[k - 1])
      case Some(l) => Trace(ys, acts, k - 1) + [l]
      case None => Trace(ys, acts, k - 1)
  }

  function LogStates(ys: seq<System>, acts: seq<Act>, k: nat): (ss: seq<State>)
    requires k <= |acts| < |ys|
    ensures |ss| == |Trace(ys, acts, k)| + 1 && ss[0] == ys[0].Log()
  {
    if k == 0 then [ys[0].Log()]
    else if LabelOf(ys[k - 1], acts[k - 1]).Some? then LogStates(ys, acts, k - 1) + [ys[k].Log()]
    else LogStates(ys, acts, k - 1)
  }

  /** Every run of all processes keeps the invariant and is a run of the log machine. */
  lemma {:induction false} RunIsLogRun(g: Geometry, ys: seq<System>, acts: seq<Act>, k: nat)
    requires IsRun(g, ys, acts) && Start(g, ys[0]) && k <= |acts|
    ensures Whole(g, ys[k])
    ensures var ss := LogStates(ys, acts, k);
      LogRuns.IsRun(g, ss, Trace(ys, acts, k)) && ss[|ss| - 1] == ys[k].Log()
  {
    hide Whole, Step, Start, Next, LabelOf;
    if k == 0 {
      StartIsWhole(g, ys[0]);
    } else {
      RunIsLogRun(g, ys, acts, k - 1);
      StepKeeps(g, ys[k - 1], acts[k - 1], ys[k]);
      var ss, ls := LogStates(ys, acts, k - 1), Trace(ys, acts, k - 1);
      if LabelOf(ys[k - 1], acts[k - 1]).Some? {
        LogRunOn(g, ss, ls, LabelOf(ys[k - 1], acts[k - 1]).value, ys[k].Log());
      }
      hide LogRuns.IsRun;
    }
  }

  lemma LogRunOn(g: Geometry, ss: seq<State>, ls: seq<Label>, l: Label, s': State)
    requires LogRuns.IsRun(g, ss, ls) && Next(g, ss[|ls|], l, s') && |s'.disk| == g.nblocks
    ensures LogRuns.IsRun(g, ss + [s'], ls + [l])
  {
    hide Next;
  }

  /** Crash atomicity on the cache: at every point of every run of readers, operations,
      commits, crashes and recoveries, what a recovery would make of the disk is the initial
      contents overlaid by the groups whose header write is done, whole and in order. */
  lemma CrashAtomicityOnCache(g: Geometry, ys: seq<System>, acts: seq<Act>, k: nat)
    requires IsRun(g, ys, acts) && Start(g, ys[0]) && k <= |acts|
    ensures Committed(g, ys[k].c.disk) ==
      LogRuns.Overlay(Committed(g, ys[0].c.disk), LogRuns.GroupsOf(Trace(ys, acts, k)))
  {
    hide Whole, Step, Committed;
    RunIsLogRun(g, ys, acts, k);
    var ss, ls := LogStates(ys, acts, k), Trace(ys, acts, k);
    LogRuns.CrashAtomicity(g, ss, ls, |ls|);
    assert ls[..|ls|] == ls;
  }

  /** The buffer of block b, if there is one, is not being changed. */
  ghost predicate Untouched(c: Cache, b: nat) {
    forall i: nat {:trigger c.bufs[i]} :: i < |c.bufs| && c.bufs[i].Is(ROOTDEV, b) ==> i !in c.touched
  }

  lemma ShowsLogView(g: Geometry, y: System, b: nat)
    requires Whole(g, y) && b < |y.c.disk| && Untouched(y.c, b)
    ensures View(y.c, b) == LogRuns.View(y.Log(), b)
  {
    hide Inv, StageOk, View;
    ViewUncached(y.c, b);
    if b in y.logged {
      assert HasDirty(y.c, b);
      var j: nat :| DirtyFor(y.c, j, b);
      OfBuffer(g, y, j);
      assert y.c.bufs[j].Is(ROOTDEV, b) && y.c.bufs[j].valid;
      CleanShows(g, y, j);
    } else if i: nat :| i < |y.c.bufs| && y.c.bufs[i].Is(ROOTDEV, b) && y.c.bufs[i].valid {
      CleanShows(g, y, i);
    }
  }

  /** The cache and the log are one plain map of blocks.  At every point of every run after
      recovery, bread shows for every block outside the log that no one is changing the
      groups committed so far with the writes logged since on top, whatever buffers were
      recycled, whoever holds which, and wherever the commit is. */
  lemma CacheShowsLatest(g: Geometry, ys: seq<System>, acts: seq<Act>, k: nat, b: nat)
    requires IsRun(g, ys, acts) && Start(g, ys[0]) && k <= |acts|
    requires g.Home(b) && Untouched(ys[k].c, b) && !ys[k].pc.Booting? && !ys[k].pc.Recovering?
    ensures var latest := LogRuns.Overlay(Committed(g, ys[0].c.disk), LogRuns.GroupsOf(Trace(ys, acts, k)))
                          + LogRuns.PendingOf(Trace(ys, acts, k));
      b in latest && View(ys[k].c, b) == latest[b]
  {
    hide Step, Committed, View;
    RunIsLogRun(g, ys, acts, k);
    var ss, ls := LogStates(ys, acts, k), Trace(ys, acts, k);
    LogRuns.CrashAtomicity(g, ss, ls, |ls|);
    assert ls[..|ls|] == ls;
    ShowsLogView(g, ys[k], b);
    LogRuns.ViewIsLatest(g, ys[k].Log(), b);
  }

  /** A buffer is being changed only while an operation is under way, or by the log's own
      process, which then holds it. */
  lemma ChangedByWhom(g: Geometry, ys: seq<System>, acts: seq<Act>, k: nat, i: nat)
    requires IsRun(g, ys, acts) && Start(g, ys[0]) && k <= |acts| && i < |ys[k].c.bufs| && i in ys[k].c.touched
    ensures ys[k].c.bufs[i].locked
    ensures ys[k].ops != [] || (ys[k].stage.Moved? && i == ys[k].stage.to)
  {
    hide Step;
    RunIsLogRun(g, ys, acts, k);
    OfBuffer(g, ys[k], i);
  }

  // ---- when bget finds a buffer ----

  /** Buffers in use by someone and not dirty; the log's own count too. */
  ghost function Using(c: Cache): set<nat> { set i: nat | i < |c.bufs| && c.bufs[i].refcnt > 0 && !c.bufs[i].dirty }

  ghost function Dirtied(c: Cache): set<nat> { set i: nat | i < |c.bufs| && c.bufs[i].dirty }

  /** There are as many dirty buffers as blocks logged and not yet written home. */
  lemma DirtyAreLogged(g: Geometry, y: System)
    requires Whole(g, y)
    ensures |Dirtied(y.c)| == |y.logged|
  {
    hide Inv, StageOk;
    var dirty := Dirtied(y.c);
    var f := map i | i in dirty :: y.c.bufs[i].blockno;
    forall i | i in dirty ensures f[i] in y.logged.Keys {
      OfBuffer(g, y, i);
    }
    forall i, j | i in dirty && j in dirty && f[i] == f[j] ensures i == j {
      OfBuffer(g, y, i);
      OfBuffer(g, y, j);
      OnlyBuffer(y.c, i, j);
    }
    forall b | b in y.logged.Keys ensures exists i :: i in dirty && f[i] == b {
      assert HasDirty(y.c, b);
      var i: nat :| DirtyFor(y.c, i, b);
      assert i in dirty;
    }
    AsMany(dirty, f, y.logged.Keys);
    assert |y.logged.Keys| == |y.logged|;
  }

  lemma {:induction false} AllIndices(a: set<nat>, n: nat)
    requires forall i :: i in a ==> i < n
    ensures |a| <= n
    ensures |a| == n <==> forall i: nat :: i < n ==> i in a
  {
    if n > 0 {
      AllIndices(a - {n - 1}, n - 1);
      assert forall i: nat :: i < n - 1 ==> (i in a - {n - 1} <==> i in a);
    } else {
      assert a == {};
    }
  }

  /** bget panics for lack of buffers exactly when the block has none and the logged blocks
      and the clean buffers in use together are all there are. */
  lemma NoBufferExactlyWhen(g: Geometry, y: System, b: nat)
    requires Whole(g, y)
    ensures |y.logged| + |Using(y.c)| <= |y.c.bufs|
    ensures Get(y.c, ROOTDEV, b).1.None? <==>
      && (forall i :: 0 <= i < |y.c.bufs| ==> !y.c.bufs[i].Is(ROOTDEV, b))
      && |y.logged| + |Using(y.c)| == |y.c.bufs|
  {
    hide Inv, Good, StageOk, BufOk, HasDirty, Get;
    GoodIsShape(y.c);
    GetsOne(y.c, b);
    DirtyAreLogged(g, y);
    hide Shape;
    var busy := Dirtied(y.c) + Using(y.c);
    assert Dirtied(y.c) !! Using(y.c);
    AllIndices(busy, |y.c.bufs|);
    assert forall i: nat :: i < |y.c.bufs| ==> (i in busy <==> !y.c.bufs[i].Free());
  }

  /** So the commit and the recovery cannot be refused a buffer while the logged blocks and the
      clean buffers in use are fewer than the buffers; and write_log and install_trans
      never for the home block of a group under way. */
  lemma LogFindsBuffer(g: Geometry, y: System)
    requires Whole(g, y) && Working(y.Log())
    ensures |y.logged| + |Using(y.c)| < |y.c.bufs| ==> Get(y.c, ROOTDEV, FirstBlock(g, y.Log())).1.Some?
    ensures Moves(y.Log()) && (!y.pc.Recovering? || |y.logged| + |Using(y.c)| < |y.c.bufs|) ==>
      Get(y.c, ROOTDEV, SecondBlock(y.Log())).1.Some?
  {
    hide StageOk, Get;
    NoBufferExactlyWhen(g, y, FirstBlock(g, y.Log()));
    if Moves(y.Log()) {
      NoBufferExactlyWhen(g, y, SecondBlock(y.Log()));
    }
    if Moves(y.Log()) && !y.pc.Recovering? {
      var b := SecondBlock(y.Log());
      assert y.lh[y.pc.t] in y.logged;
      assert HasDirty(y.c, b);
      var i: nat :| DirtyFor(y.c, i, b);
      OfBuffer(g, y, i);
    }
  }
}
