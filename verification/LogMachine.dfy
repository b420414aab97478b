/** The redo log of log.c as a state machine.  A step is one critical section of
    begin_op, log_write or end_op, or one block write of a commit or a recovery; a
    crash may strike between any two steps. */
module LogMachine {
  import opened Blocks
  import opened Dinode

  const LOGSIZE := 30
  const MAXOPBLOCKS := 10

  /** Where the log lies on the disk: a header block, then size - 1 blocks of data. */
  datatype Geometry = Geometry(start: nat, size: nat, nblocks: nat)
  {
    ghost predicate Valid() { size > 1 && start + size <= nblocks < 0x1_0000_0000 }

    /** A block outside the log, where committed data belongs. */
    predicate Home(b: int) { 0 <= b < nblocks && !(start <= b < start + size) }

    /** The block that holds the k-th logged block. */
    function Slot(k: nat): nat { start + 1 + k }

    /** How many blocks log_write accepts. */
    function Room(): int { if size - 1 < LOGSIZE then size - 1 else LOGSIZE }
  }

  /** The block numbers a header block lists. */
  function HeaderOf(h: Block): (lh: seq<nat>)
    ensures |lh| <= LOGSIZE
  {
    var n := WordAt(h, 0);
    if n <= LOGSIZE then LoadWords(h, 1, n) else []
  }

  /** Header block h after write_head stored lh over it. */
  function WithHeader(h: Block, lh: seq<nat>): (r: Block)
    requires |lh| <= LOGSIZE && forall k :: 0 <= k < |lh| ==> lh[k] < 0x1_0000_0000
    ensures HeaderOf(r) == lh && WordAt(r, 0) == |lh| && forall k: nat :: k < |lh| ==> WordAt(r, k + 1) == lh[k]
  {
    var r := StoreWords(h, 0, [|lh|] + AsWords(lh));
    assert WordAt(r, 0) == |lh|;
    assert LoadWords(r, 1, |lh|) == lh;
    r
  }

  function AsWords(lh: seq<nat>): (ws: seq<Word>)
    requires forall k :: 0 <= k < |lh| ==> lh[k] < 0x1_0000_0000
    ensures |ws| == |lh| && forall k :: 0 <= k < |lh| ==> ws[k] == lh[k]
  {
    if lh == [] then [] else [lh[0]] + AsWords(lh[1..])
  }

  /** One file-system call between begin_op and end_op: its log_write calls, and how
      many of them met a block not logged yet. */
  datatype Op = Op(calls: nat, added: nat)

  datatype Pc =
    | Idle            // no commit under way
    | Copying(t: nat) // write_log, about to copy block t, or to write the header
    | Installing(t: nat) // install_trans, about to install block t, or to clear the header
    | Cleared         // commit has returned
    | Booting         // after a crash
    | Recovering(t: nat) // recover_from_log, about to install block t, or to clear the header

  /** `cache` holds the dirty buffers: blocks logged and not yet written home. */
  datatype State = State(disk: seq<Block>, lh: seq<nat>, cache: map<nat, Block>,
                         ops: seq<Op>, committing: bool, pc: Pc)

  datatype Label =
    | Begin | Write(op: nat, b: nat, data: Block) | End(op: nat)
    | Copy | Head | Install | Clear | Finish
    | Crash | ReadHead | Reinstall | Reclear

  /** begin_op lets one more operation in. */
  predicate Admits(s: State) { !s.committing && |s.lh| + (|s.ops| + 1) * MAXOPBLOCKS <= LOGSIZE }

  /** log_write panics with "too big a transaction". */
  predicate TooBig(g: Geometry, s: State) { |s.lh| >= LOGSIZE || |s.lh| >= g.size - 1 }

  /** The list after log_write of block b, with absorption. */
  function Absorb(lh: seq<nat>, b: nat): seq<nat> { if b in lh then lh else lh + [b] }

  ghost predicate Next(g: Geometry, s: State, l: Label, s': State)
    requires g.Valid() && |s.disk| == g.nblocks
  {
    match l
    case Begin =>
      && s.pc != Booting && !s.pc.Recovering? && Admits(s)
      && s' == s.(ops := s.ops + [Op(0, 0)])
    case Write(i, b, data) =>
      && i < |s.ops| && g.Home(b) && !TooBig(g, s)
      && var op := s.ops[i];
      s' == s.(lh := Absorb(s.lh, b), cache := s.cache[b := data],
               ops := s.ops[i := Op(op.calls + 1, if b in s.lh then op.added else op.added + 1)])
    case End(i) =>
      && i < |s.ops|
      && var ops := s.ops[..i] + s.ops[i + 1..];
      s' == if ops != [] then s.(ops := ops)
            else s.(ops := ops, committing := true, pc := if s.lh == [] then Cleared else Copying(0))
    case Copy =>
      && s.pc.Copying? && s.pc.t < |s.lh| && g.Slot(s.pc.t) < |s.disk| && s.lh[s.pc.t] in s.cache
      && s' == s.(disk := s.disk[g.Slot(s.pc.t) := s.cache[s.lh[s.pc.t]]], pc := Copying(s.pc.t + 1))
    case Head =>
      && s.pc == Copying(|s.lh|) && |s.lh| <= LOGSIZE && (forall k :: 0 <= k < |s.lh| ==> s.lh[k] < 0x1_0000_0000)
      && s' == s.(disk := s.disk[g.start := WithHeader(s.disk[g.start], s.lh)], pc := Installing(0))
    case Install =>
      && s.pc.Installing? && s.pc.t < |s.lh| && g.Slot(s.pc.t) < |s.disk| && s.lh[s.pc.t] < |s.disk|
      && s' == s.(disk := s.disk[s.lh[s.pc.t] := s.disk[g.Slot(s.pc.t)]],
                  cache := s.cache - {s.lh[s.pc.t]}, pc := Installing(s.pc.t + 1))
    case Clear =>
      && s.pc == Installing(|s.lh|)
      && s' == s.(disk := s.disk[g.start := WithHeader(s.disk[g.start], [])], lh := [], pc := Cleared)
    case Finish =>
      && s.pc == Cleared
      && s' == s.(committing := false, pc := Idle)
    case Crash =>
      s' == State(s.disk, [], map[], [], false, Booting)
    case ReadHead =>
      && s.pc == Booting
      && s' == s.(lh := HeaderOf(s.disk[g.start]), pc := Recovering(0))
    case Reinstall =>
      && s.pc.Recovering? && s.pc.t < |s.lh| && g.Slot(s.pc.t) < |s.disk| && s.lh[s.pc.t] < |s.disk|
      && s' == s.(disk := s.disk[s.lh[s.pc.t] := s.disk[g.Slot(s.pc.t)]], pc := Recovering(s.pc.t + 1))
    case Reclear =>
      && s.pc == Recovering(|s.lh|)
      && s' == s.(disk := s.disk[g.start := WithHeader(s.disk[g.start], [])], lh := [], pc := Idle)
  }

  // ---- what the disk means ----

  function IndexOf(lh: seq<nat>, b: nat): (k: nat)
    requires b in lh
    ensures k < |lh| && lh[k] == b
    ensures forall j :: 0 <= j < k ==> lh[j] != b
  {
    if lh[0] == b then 0 else 1 + IndexOf(lh[1..], b)
  }

  /** Home block b as a recovery from disk d is to leave it: the contents of its log
      block if the header lists it, else its own. */
  function CommittedBlock(g: Geometry, d: seq<Block>, b: nat): Block
    requires g.Valid() && |d| == g.nblocks && b < |d|
  {
    var lh := HeaderOf(d[g.start]);
    if b in lh && g.Slot(IndexOf(lh, b)) < |d| then d[g.Slot(IndexOf(lh, b))] else d[b]
  }

  function Committed(g: Geometry, d: seq<Block>): (m: map<nat, Block>)
    requires g.Valid() && |d| == g.nblocks
  {
    map b | 0 <= b < |d| && g.Home(b) :: CommittedBlock(g, d, b)
  }

  /** The abstract store: committed blocks, and the writes of the group under way. */
  datatype Store = Store(committed: map<nat, Block>, pending: map<nat, Block>)

  ghost function Abs(g: Geometry, s: State): Store
    requires g.Valid() && |s.disk| == g.nblocks
  {
    Store(Committed(g, s.disk), if s.pc.Idle? || s.pc.Copying? then s.cache else map[])
  }

  /** What a step does to the abstract store. */
  function Effect(a: Store, l: Label): Store
  {
    match l
    case Write(_, b, data) => a.(pending := a.pending[b := data])
    case Head => Store(a.committed + a.pending, map[])
    case Crash => a.(pending := map[])
    case _ => a
  }

  function Effects(a: Store, ls: seq<Label>): Store
  {
    if ls == [] then a else Effect(Effects(a, ls[..|ls| - 1]), ls[|ls| - 1])
  }

  // ---- the invariant ----

  ghost predicate GoodList(g: Geometry, lh: seq<nat>)
  {
    && |lh| <= g.Room()
    && (forall k :: 0 <= k < |lh| ==> g.Home(lh[k]))
    && (forall j, k :: 0 <= j < k < |lh| ==> lh[j] != lh[k])
  }

  ghost predicate Inv(g: Geometry, s: State)
  {
    && g.Valid() && |s.disk| == g.nblocks
    && GoodList(g, s.lh) && WordAt(s.disk[g.start], 0) <= LOGSIZE
    && (s.committing <==> s.pc.Copying? || s.pc.Installing? || s.pc.Cleared?)
    && (s.ops != [] ==> s.pc == Idle)
    && var h := HeaderOf(s.disk[g.start]);
    match s.pc
    case Idle => h == [] && (forall b :: b in s.cache <==> b in s.lh)
    case Copying(t) =>
      && t <= |s.lh| && h == [] && (forall b :: b in s.cache <==> b in s.lh)
      && forall k: nat {:trigger g.Slot(k)} :: k < t ==> s.disk[g.Slot(k)] == s.cache[s.lh[k]]
    case Installing(t) =>
      && t <= |s.lh| && h == s.lh
      && (forall b :: b in s.cache ==> b in s.lh)
      && (forall k: nat {:trigger s.lh[k]} :: k < |s.lh| ==> (s.lh[k] in s.cache <==> t <= k))
      && (forall k: nat {:trigger g.Slot(k)} :: k < t ==> s.disk[s.lh[k]] == s.disk[g.Slot(k)])
      && (forall k: nat {:trigger g.Slot(k)} :: t <= k < |s.lh| ==> s.cache[s.lh[k]] == s.disk[g.Slot(k)])
    case Cleared => h == [] && s.lh == [] && s.cache == map[]
    case Booting => GoodList(g, h) && s.lh == [] && s.cache == map[]
    case Recovering(t) =>
      && t <= |s.lh| && h == s.lh && s.cache == map[]
      && forall k: nat {:trigger g.Slot(k)} :: k < t ==> s.disk[s.lh[k]] == s.disk[g.Slot(k)]
  }

  /** A freshly booted machine on a disk whose log is empty. */
  ghost predicate Init(g: Geometry, s: State)
  {
    && g.Valid() && |s.disk| == g.nblocks && WordAt(s.disk[g.start], 0) == 0
    && s == State(s.disk, [], map[], [], false, Idle)
  }

  lemma InitInv(g: Geometry, s: State)
    requires Init(g, s)
    ensures Inv(g, s) && Abs(g, s).pending == map[]
  {
  }

  // ---- every step ----

  /** Storing a block that no home block's meaning depends on keeps what is committed. */
  lemma SameCommitted(g: Geometry, d: seq<Block>, d': seq<Block>)
    requires g.Valid() && |d| == |d'| == g.nblocks && HeaderOf(d'[g.start]) == HeaderOf(d[g.start])
    requires var lh := HeaderOf(d[g.start]);
      && (forall k: nat {:trigger g.Slot(k)} :: k < |lh| && g.Slot(k) < |d| ==> d'[g.Slot(k)] == d[g.Slot(k)])
      && (forall b :: g.Home(b) && b !in lh ==> d'[b] == d[b])
      && |lh| <= g.Room()
    ensures Committed(g, d') == Committed(g, d)
  {
    hide HeaderOf, IndexOf;
    var c, c', lh := Committed(g, d), Committed(g, d'), HeaderOf(d[g.start]);
    forall b | g.Home(b) ensures c'[b] == c[b] {
      if b in lh {
        assert d'[g.Slot(IndexOf(lh, b))] == d[g.Slot(IndexOf(lh, b))];
      }
    }
    assert c' == c;
  }

  lemma CopyStep(g: Geometry, s: State, s': State)
    requires Inv(g, s) && Next(g, s, Copy, s')
    ensures Inv(g, s') && Abs(g, s') == Abs(g, s)
  {
    hide HeaderOf;
    SameCommitted(g, s.disk, s'.disk);
  }

  lemma HeadStep(g: Geometry, s: State, s': State)
    requires Inv(g, s) && Next(g, s, Head, s')
    ensures Inv(g, s') && Abs(g, s') == Effect(Abs(g, s), Head)
  {
    hide HeaderOf, Committed, WithHeader;
    CommittingAddsGroup(g, s, s');
  }

  lemma CommittingAddsGroup(g: Geometry, s: State, s': State)
    requires Inv(g, s) && Next(g, s, Head, s')
    ensures Committed(g, s'.disk) == Committed(g, s.disk) + s.cache
  {
    hide HeaderOf, WithHeader;
    HeaderAddsGroup(g, s.disk, s'.disk, s.lh, s.cache);
  }

  lemma HeaderAddsGroup(g: Geometry, d: seq<Block>, d': seq<Block>, lh: seq<nat>, group: map<nat, Block>)
    requires g.Valid() && |d| == |d'| == g.nblocks && GoodList(g, lh)
    requires HeaderOf(d[g.start]) == [] && HeaderOf(d'[g.start]) == lh
    requires forall b :: 0 <= b < |d| && b != g.start ==> d'[b] == d[b]
    requires forall b :: b in group <==> b in lh
    requires forall k: nat {:trigger g.Slot(k)} :: k < |lh| ==> d[g.Slot(k)] == group[lh[k]]
    ensures Committed(g, d') == Committed(g, d) + group
  {
    hide HeaderOf, IndexOf;
    forall b: nat | g.Home(b)
      ensures CommittedBlock(g, d', b) == if b in group then group[b] else CommittedBlock(g, d, b)
    {
      if b in lh {
        assert d'[g.Slot(IndexOf(lh, b))] == group[b];
      }
    }
    hide CommittedBlock, Geometry.Slot;
    assert forall b :: b in group ==> b in lh && g.Home(b);
    assert Committed(g, d') == Committed(g, d) + group;
  }

  /** Installing block t of a committed group, in a commit or in a recovery. */
  lemma InstallKeepsCommitted(g: Geometry, d: seq<Block>, lh: seq<nat>, t: nat)
    requires g.Valid() && |d| == g.nblocks && GoodList(g, lh) && HeaderOf(d[g.start]) == lh && t < |lh|
    ensures Committed(g, d[lh[t] := d[g.Slot(t)]]) == Committed(g, d)
  {
    hide HeaderOf;
    SameCommitted(g, d, d[lh[t] := d[g.Slot(t)]]);
  }

  /** Clearing the header once every block is home. */
  lemma ClearKeepsCommitted(g: Geometry, d: seq<Block>, lh: seq<nat>, d': seq<Block>)
    requires g.Valid() && |d| == g.nblocks && GoodList(g, lh) && HeaderOf(d[g.start]) == lh
    requires forall k: nat {:trigger g.Slot(k)} :: k < |lh| ==> d[lh[k]] == d[g.Slot(k)]
    requires |d'| == |d| && HeaderOf(d'[g.start]) == [] && forall b :: g.Home(b) ==> d'[b] == d[b]
    ensures Committed(g, d') == Committed(g, d)
  {
    hide HeaderOf, IndexOf;
    var c, c' := Committed(g, d), Committed(g, d');
    forall b | g.Home(b) ensures c'[b] == c[b] {
      if b in lh {
        assert d[lh[IndexOf(lh, b)]] == d[g.Slot(IndexOf(lh, b))];
      }
    }
    assert c' == c;
  }

  lemma InstallStep(g: Geometry, s: State, s': State)
    requires Inv(g, s) && Next(g, s, Install, s')
    ensures Inv(g, s') && Abs(g, s') == Abs(g, s)
  {
    hide HeaderOf, Committed;
    InstallKeepsCommitted(g, s.disk, s.lh, s.pc.t);
    var t := s.pc.t;
    forall k: nat | k < |s.lh|
      ensures s.lh[k] in s'.cache <==> t + 1 <= k
      ensures s'.disk[g.Slot(k)] == s.disk[g.Slot(k)]
      ensures k < t ==> s'.disk[s.lh[k]] == s.disk[s.lh[k]]
    {
      assert s.lh[k] == s.lh[t] <==> k == t;
    }
  }

  lemma ClearStep(g: Geometry, s: State, s': State)
    requires Inv(g, s) && Next(g, s, Clear, s')
    ensures Inv(g, s') && Abs(g, s') == Abs(g, s)
  {
    hide HeaderOf;
    ClearKeepsCommitted(g, s.disk, s.lh, s'.disk);
    assert s.cache == map[];
  }

  lemma RecoveryStep(g: Geometry, s: State, l: Label, s': State)
    requires Inv(g, s) && Next(g, s, l, s') && (l.ReadHead? || l.Reinstall? || l.Reclear?)
    ensures Inv(g, s') && Abs(g, s') == Abs(g, s)
  {
    hide HeaderOf, Committed;
    match l
    case ReadHead =>
    case Reinstall => InstallKeepsCommitted(g, s.disk, s.lh, s.pc.t);
    case Reclear => ClearKeepsCommitted(g, s.disk, s.lh, s'.disk);
  }

  lemma CrashStep(g: Geometry, s: State, s': State)
    requires Inv(g, s) && Next(g, s, Crash, s')
    ensures Inv(g, s') && Abs(g, s') == Effect(Abs(g, s), Crash)
  {
    hide HeaderOf, Committed;
  }

  lemma WriteStep(g: Geometry, s: State, l: Label, s': State)
    requires Inv(g, s) && Next(g, s, l, s') && l.Write?
    ensures Inv(g, s') && Abs(g, s') == Effect(Abs(g, s), l)
  {
    hide HeaderOf, Committed;
    assert forall c :: c in s'.cache <==> c in s.cache || c == l.b;
  }

  lemma OperationStep(g: Geometry, s: State, l: Label, s': State)
    requires Inv(g, s) && Next(g, s, l, s') && (l.Begin? || l.End? || l.Finish?)
    ensures Inv(g, s') && Abs(g, s') == Effect(Abs(g, s), l)
  {
    hide HeaderOf, Committed, GoodList;
    match l
    case Begin =>
    case End(i) =>
      if |s.ops| == 1 {
        assert s.ops[..i] + s.ops[i + 1..] == [];
      }
    case Finish =>
  }

  /** Every step keeps the invariant and does to the abstract store what its label
      says: writes gather in the group, the header write commits the whole group at
      once, a crash drops an uncommitted group, and nothing else has any effect. */
  lemma StepRefines(g: Geometry, s: State, l: Label, s': State)
    requires Inv(g, s) && Next(g, s, l, s')
    ensures Inv(g, s') && Abs(g, s') == Effect(Abs(g, s), l)
  {
    hide Next, HeaderOf, Committed;
    match l
    case Copy => CopyStep(g, s, s');
    case Head => HeadStep(g, s, s');
    case Install => InstallStep(g, s, s');
    case Clear => ClearStep(g, s, s');
    case ReadHead => RecoveryStep(g, s, l, s');
    case Reinstall => RecoveryStep(g, s, l, s');
    case Reclear => RecoveryStep(g, s, l, s');
    case Crash => CrashStep(g, s, s');
    case Write(_, _, _) => WriteStep(g, s, l, s');
    case _ => OperationStep(g, s, l, s');
  }
}
