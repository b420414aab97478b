/** Any number of readers, writers and closers on one pipe, as a state machine: one step
    per statement that touches the pipe's lock, ptable.lock or a process's state.  What a
    call does to the ring while it has the pipe's lock is one step, as no one else looks. */
module PipeRuns {
  import opened Blocks
  import opened Pipe

  datatype Call = NoCall | Reading(n: nat) | Writing(addr: seq<Byte>, i: nat) | Closing(writable: bool)

  /** What a process does next. */
  datatype Pc =
    | Out        // not using the pipe
    | Want       // acquire p->lock
    | Hold       // has it: the part up to a wakeup, a sleep or a return
    | WakeWant(sleeps: bool)       // wakeup: acquire ptable.lock; then sleep, or leave
    | Waking(j: nat, sleeps: bool) // wakeup1, about to look at process j, or to release ptable.lock
    | WantPtable // sleep: acquire ptable.lock
    | DropLock   // sleep: release p->lock
    | GoToSleep  // sleep: p->state = SLEEPING, sched
    | Asleep(runnable: bool)
    | Woken      // sched returned, ptable.lock held
    | DropPtable // sleep: release ptable.lock, then Want
    | Release    // release p->lock, return

  datatype Proc = Proc(call: Call, pc: Pc)

  /** Who has ptable.lock: `Other` is the scheduler, or code that does not concern the pipe. */
  datatype Ptable = Nobody | Other | Held(p: nat)

  datatype State = State(st: Stream, received: seq<Byte>, readopen: bool, writeopen: bool,
                         lock: Option<nat>, ptable: Ptable, procs: seq<Proc>, killed: seq<bool>)

  datatype Label =
    | CallRead(p: nat, n: nat) | CallWrite(p: nat, addr: seq<Byte>) | CallClose(p: nat, writable: bool)
    | By(p: nat)       // process p takes its next step
    | Run(p: nat)      // the scheduler runs p
    | Kill(p: nat)     // kill marks p, and wakes it if it sleeps
    | TakePtable | GivePtable // by anyone else

  predicate HasLock(c: Pc) { c.Hold? || c.WakeWant? || c.Waking? || c.WantPtable? || c.DropLock? || c.Release? }
  predicate HasPtable(c: Pc) { c.Waking? || c.DropLock? || c.GoToSleep? || c.Woken? || c.DropPtable? }

  /** The call sleeps on `nread`, so it is for a wakeup on `nread` to find it. */
  predicate OnRead(c: Call) { c.Reading? }
  predicate OnWrite(c: Call) { c.Writing? }

  /** The call wakes those that sleep on `nread`; the others wake those on `nwrite`. */
  predicate WakesReaders(c: Call) { c.Writing? || (c.Closing? && c.writable) }

  predicate Wakes(waker: Call, c: Call) { if WakesReaders(waker) then OnRead(c) else OnWrite(c) }

  ghost predicate ValidCall(c: Call) { c.Writing? ==> c.i <= |c.addr| }

  ghost predicate Valid(s: State)
  {
    && s.st.Valid() && |s.killed| == |s.procs|
    && forall k :: 0 <= k < |s.procs| ==>
      ValidCall(s.procs[k].call) && (s.procs[k].pc.Out? <==> s.procs[k].call.NoCall?)
  }

  function At(s: State, p: nat, c: Pc): State
    requires p < |s.procs|
  {
    s.(procs := s.procs[p := s.procs[p].(pc := c)])
  }

  predicate Ready(s: State, p: nat)
    requires p < |s.procs|
  {
    match s.procs[p].pc
    case Out => false
    case Want => s.lock.None?
    case WakeWant(_) => s.ptable.Nobody?
    case WantPtable => s.ptable.Nobody?
    case Asleep(_) => false
    case _ => true
  }

  /** Process p has the lock and does its part. */
  function Section(s: State, p: nat): (s': State)
    requires Valid(s) && p < |s.procs|
  {
    match s.procs[p].call
    case NoCall => s
    case Reading(n) =>
      var (st, out, dst, woke) := ReadSection(s.st, n, s.writeopen, s.killed[p]);
      At(s, p, if out.Sleeps? then WantPtable else if woke then WakeWant(false) else Release)
        .(st := st, received := s.received + dst)
    case Writing(addr, i) =>
      var (st, out, woke) := WriteSection(s.st, addr, i, s.readopen, s.killed[p]);
      var pc := if woke then WakeWant(out.Sleeps?) else Release;
      s.(st := st, procs := s.procs[p := Proc(Writing(addr, i + |st.stored| - |s.st.stored|), pc)])
    case Closing(writable) =>
      if writable then At(s, p, WakeWant(false)).(writeopen := false) else At(s, p, WakeWant(false)).(readopen := false)
  }

  function Do(s: State, p: nat): State
    requires Valid(s) && p < |s.procs| && Ready(s, p)
  {
    match s.procs[p].pc
    case Want => At(s, p, Hold).(lock := Some(p))
    case Hold => Section(s, p)
    case WakeWant(sleeps) => At(s, p, Waking(0, sleeps)).(ptable := Held(p))
    case Waking(j, sleeps) =>
      if j < |s.procs| then
        var found := s.procs[j].pc == Asleep(false) && Wakes(s.procs[p].call, s.procs[j].call);
        var s1 := if found then At(s, j, Asleep(true)) else s;
        At(s1, p, Waking(j + 1, sleeps))
      else At(s, p, if sleeps then WantPtable else Release).(ptable := Nobody)
    case WantPtable => At(s, p, DropLock).(ptable := Held(p))
    case DropLock => At(s, p, GoToSleep).(lock := None)
    case GoToSleep => At(s, p, Asleep(false)).(ptable := Other)
    case Woken => At(s, p, DropPtable)
    case DropPtable => At(s, p, Want).(ptable := Nobody)
    case Release => s.(lock := None, procs := s.procs[p := Proc(NoCall, Out)])
    case _ => s
  }

  function Calling(s: State, p: nat, c: Call): State
    requires p < |s.procs|
  {
    s.(procs := s.procs[p := Proc(c, Want)])
  }

  ghost predicate Next(s: State, l: Label, s': State)
    requires Valid(s)
  {
    match l
    case CallRead(p, n) => p < |s.procs| && s.procs[p].pc.Out? && s' == Calling(s, p, Reading(n))
    case CallWrite(p, addr) => p < |s.procs| && s.procs[p].pc.Out? && s' == Calling(s, p, Writing(addr, 0))
    case CallClose(p, writable) => p < |s.procs| && s.procs[p].pc.Out? && s' == Calling(s, p, Closing(writable))
    case By(p) => p < |s.procs| && Ready(s, p) && s' == Do(s, p)
    case Run(p) =>
      p < |s.procs| && s.procs[p].pc == Asleep(true) && s.ptable.Nobody? && s' == At(s, p, Woken).(ptable := Held(p))
    case Kill(p) =>
      && p < |s.procs| && s.ptable.Nobody?
      && s' == (if s.procs[p].pc == Asleep(false) then At(s, p, Asleep(true)) else s).(killed := s.killed[p := true])
    case TakePtable => s.ptable.Nobody? && s' == s.(ptable := Other)
    case GivePtable => s.ptable.Other? && s' == s.(ptable := Nobody)
  }

  ghost predicate Init(s: State)
  {
    && s.st == Stream([], 0) && s.received == [] && s.readopen && s.writeopen && s.lock.None? && s.ptable.Nobody?
    && |s.killed| == |s.procs| && forall k :: 0 <= k < |s.procs| ==> s.procs[k] == Proc(NoCall, Out) && !s.killed[k]
  }

  ghost predicate IsRun(ss: seq<State>, ls: seq<Label>)
  {
    && |ss| == |ls| + 1 && Init(ss[0]) && (forall i :: 0 <= i < |ss| ==> Valid(ss[i]))
    && forall i :: 0 <= i < |ls| ==> Next(ss[i], ls[i], ss[i + 1])
  }

  /** Process p is about to do its part under the lock. */
  predicate Enters(s: State, l: Label) { l.By? && l.p < |s.procs| && s.procs[l.p].pc.Hold? }

  /** Nothing else touches the bytes. */
  lemma ElsewhereNoBytes(s: State, l: Label, s': State)
    requires Valid(s) && Next(s, l, s') && !Enters(s, l)
    ensures s'.st == s.st && s'.received == s.received && |s'.procs| == |s.procs|
    ensures s'.readopen == s.readopen && s'.writeopen == s.writeopen
  {
    hide Section;
    if l.By? {
      hide Do;
      DoKeepsRest(s, l.p);
    }
  }

  ghost predicate ValidProc(q: Proc) { ValidCall(q.call) && (q.pc.Out? <==> q.call.NoCall?) }

  lemma SectionIsValid(s: State, p: nat)
    requires Valid(s) && p < |s.procs| && s.procs[p].pc.Hold?
    ensures Valid(Section(s, p)) && |Section(s, p).procs| == |s.procs|
  {
  }

  lemma DoIsValid(s: State, p: nat, k: nat)
    requires Valid(s) && p < |s.procs| && Ready(s, p) && !s.procs[p].pc.Hold? && k < |s.procs|
    ensures |Do(s, p).procs| == |s.procs| && ValidProc(Do(s, p).procs[k])
  {
    hide Valid, Section;
    assert ValidProc(s.procs[k]) && ValidProc(s.procs[p]) by { ProcIsValid(s, k); ProcIsValid(s, p); }
  }

  lemma ProcIsValid(s: State, k: nat)
    requires Valid(s) && k < |s.procs|
    ensures ValidProc(s.procs[k])
  {
  }

  lemma DoKeepsRest(s: State, p: nat)
    requires Valid(s) && p < |s.procs| && Ready(s, p) && !s.procs[p].pc.Hold?
    ensures Do(s, p).st == s.st && Do(s, p).killed == s.killed && |Do(s, p).procs| == |s.procs|
    ensures Do(s, p).received == s.received && Do(s, p).readopen == s.readopen && Do(s, p).writeopen == s.writeopen
  {
    hide Section;
  }

  lemma OthersAreValid(s: State, l: Label, s': State)
    requires Valid(s) && Next(s, l, s') && !l.By?
    ensures Valid(s') && |s'.procs| == |s.procs|
  {
    hide Do;
  }

  /** Steps go from valid states to valid states. */
  lemma StepIsValid(s: State, l: Label, s': State)
    requires Valid(s) && Next(s, l, s')
    ensures Valid(s') && |s'.procs| == |s.procs|
  {
    if Enters(s, l) {
      EntersSection(s, l, s');
      SectionIsValid(s, l.p);
    } else if l.By? {
      hide Do, Section;
      DoKeepsRest(s, l.p);
      forall k: nat | k < |s.procs| ensures ValidProc(s'.procs[k]) {
        DoIsValid(s, l.p, k);
      }
    } else {
      OthersAreValid(s, l, s');
    }
  }

  lemma EntersSection(s: State, l: Label, s': State)
    requires Valid(s) && Next(s, l, s') && Enters(s, l)
    ensures s' == Section(s, l.p)
  {
    hide Section;
  }

  // ---- what is read ----

  lemma StepPrefix(s: State, l: Label, s': State)
    requires Valid(s) && Next(s, l, s') && s.st.taken <= |s.st.stored| && s.received == s.st.stored[..s.st.taken]
    ensures s'.st.Valid() && s'.received == s'.st.stored[..s'.st.taken]
  {
    hide Section, Do;
    if !Enters(s, l) {
      ElsewhereNoBytes(s, l, s');
    } else {
      EntersSection(s, l, s');
      SectionPrefix(s, l.p);
    }
  }

  lemma SectionPrefix(s: State, p: nat)
    requires Valid(s) && p < |s.procs| && s.procs[p].pc.Hold? && s.received == s.st.stored[..s.st.taken]
    ensures var s' := Section(s, p); s'.st.Valid() && s'.received == s'.st.stored[..s'.st.taken]
  {
    hide ReadSection, WriteSection;
    if s.procs[p].call.Reading? {
      var (st, out, dst, woke) := ReadSection(s.st, s.procs[p].call.n, s.writeopen, s.killed[p]);
      assert s.st.stored[..s.st.taken] + s.st.stored[s.st.taken..st.taken] == s.st.stored[..st.taken];
    } else if s.procs[p].call.Writing? {
      var c := s.procs[p].call;
      var (st, out, woke) := WriteSection(s.st, c.addr, c.i, s.readopen, s.killed[p]);
      assert st.stored[..st.taken] == s.st.stored[..s.st.taken];
    }
  }

  /** At every point of every run, the bytes read are the first of the bytes stored, in
      order, and at most 512 more are in the ring. */
  lemma {:induction false} ReadIsPrefix(ss: seq<State>, ls: seq<Label>, i: nat)
    requires IsRun(ss, ls) && i <= |ls|
    ensures ss[i].received <= ss[i].st.stored && |ss[i].st.stored| - |ss[i].received| <= PIPESIZE
    ensures ss[i].st.taken <= |ss[i].st.stored| && ss[i].received == ss[i].st.stored[..ss[i].st.taken]
  {
    hide Next;
    if i > 0 {
      ReadIsPrefix(ss, ls, i - 1);
      StepPrefix(ss[i - 1], ls[i - 1], ss[i]);
    }
  }

  // ---- who sleeps ----

  /** The call is right to sleep: the reader of an empty pipe that is still written, the
      writer of a full one that is still read. */
  predicate Stalled(s: State, c: Call) {
    if c.Reading? then s.st.Held() == 0 && s.writeopen else c.Writing? && s.st.Held() == PIPESIZE && s.readopen
  }

  /** A wakeup for process p is under way that has yet to look at it. */
  ghost predicate WillWake(s: State, p: nat)
    requires p < |s.procs|
  {
    && s.lock.Some? && s.lock.value < |s.procs|
    && var h := s.procs[s.lock.value];
    Wakes(h.call, s.procs[p].call) && (h.pc.WakeWant? || (h.pc.Waking? && h.pc.j <= p))
  }

  /** Process p has let go of the pipe's lock to sleep and no one has woken it. */
  predicate Sleeps(s: State, p: nat)
    requires p < |s.procs|
  {
    s.procs[p].pc.GoToSleep? || s.procs[p].pc == Asleep(false)
  }

  ghost predicate Locks(s: State, p: nat)
    requires p < |s.procs|
  {
    var c := s.procs[p].pc;
    && (HasLock(c) <==> s.lock == Some(p))
    && (HasPtable(c) <==> s.ptable == Held(p))
    && (c.Waking? ==> c.j <= |s.procs|)
    && (c.WantPtable? || c.DropLock? || ((c.WakeWant? || c.Waking?) && c.sleeps) ==> Stalled(s, s.procs[p].call))
    && (c.GoToSleep? || c.Asleep? || c.Woken? || c.DropPtable? ==> s.procs[p].call.Reading? || s.procs[p].call.Writing?)
  }

  ghost predicate SleepsFitly(s: State, p: nat)
    requires p < |s.procs|
  {
    Sleeps(s, p) ==> Stalled(s, s.procs[p].call) || WillWake(s, p)
  }

  ghost predicate AllLocks(s: State)
  {
    && Valid(s) && (s.lock.Some? ==> s.lock.value < |s.procs|) && (s.ptable.Held? ==> s.ptable.p < |s.procs|)
    && forall p: nat {:trigger Locks(s, p)} :: p < |s.procs| ==> Locks(s, p)
  }

  ghost predicate AllSleepFitly(s: State) { forall p: nat {:trigger SleepsFitly(s, p)} :: p < |s.procs| ==>
    SleepsFitly(s, p) }

  /** A step of process p other than its part under the lock, as process q sees it. */
  lemma StepLocks(s: State, p: nat, q: nat)
    requires AllLocks(s) && p < |s.procs| && q < |s.procs| && Ready(s, p) && !s.procs[p].pc.Hold?
    requires !s.procs[p].pc.Waking?
    ensures q < |Do(s, p).procs| && Locks(Do(s, p), q)
  {
    hide Valid, Section;
    assert Locks(s, p) && Locks(s, q);
    hide AllLocks;
    if q != p {
      assert Do(s, p).procs[q] == s.procs[q];
    }
  }

  lemma WakingLocks(s: State, p: nat, q: nat)
    requires AllLocks(s) && p < |s.procs| && q < |s.procs| && s.procs[p].pc.Waking?
    ensures q < |Do(s, p).procs| && Locks(Do(s, p), q)
  {
    hide Valid, Section;
    assert Locks(s, p) && Locks(s, q);
    if s.procs[p].pc.j < |s.procs| {
      assert Locks(s, s.procs[p].pc.j);
    }
  }

  lemma SectionLocks(s: State, p: nat, q: nat)
    requires AllLocks(s) && p < |s.procs| && q < |s.procs| && s.procs[p].pc.Hold?
    ensures q < |Section(s, p).procs| && Locks(Section(s, p), q)
  {
    assert Locks(s, p) && Locks(s, q);
  }

  lemma OthersLocks(s: State, l: Label, s': State, q: nat)
    requires AllLocks(s) && Next(s, l, s') && !l.By? && q < |s.procs|
    ensures q < |s'.procs| && Locks(s', q)
  {
    assert Locks(s, q);
    if l.Run? || l.Kill? {
      assert Locks(s, l.p);
    }
  }

  lemma HoldersAreProcs(s: State, l: Label, s': State)
    requires AllLocks(s) && Next(s, l, s') && |s'.procs| == |s.procs|
    ensures (s'.lock.Some? ==> s'.lock.value < |s'.procs|) && (s'.ptable.Held? ==> s'.ptable.p < |s'.procs|)
  {
    hide Locks, Valid;
    if Enters(s, l) {
      EntersSection(s, l, s');
      SectionHolders(s, l.p);
    } else if l.By? {
      DoHolders(s, l.p);
    } else {
      hide Do;
    }
  }

  lemma SectionHolders(s: State, p: nat)
    requires Valid(s) && p < |s.procs|
    ensures Section(s, p).lock == s.lock && Section(s, p).ptable == s.ptable
  {
    hide ReadSection, WriteSection, Valid;
  }

  lemma DoHolders(s: State, p: nat)
    requires Valid(s) && p < |s.procs| && Ready(s, p) && !s.procs[p].pc.Hold?
    ensures Do(s, p).lock == s.lock || Do(s, p).lock == None || Do(s, p).lock == Some(p)
    ensures Do(s, p).ptable == s.ptable || !Do(s, p).ptable.Held? || Do(s, p).ptable == Held(p)
  {
    hide Section, Valid;
  }

  lemma LocksKept(s: State, l: Label, s': State)
    requires AllLocks(s) && Next(s, l, s')
    ensures AllLocks(s')
  {
    StepIsValid(s, l, s');
    HoldersAreProcs(s, l, s');
    hide Next, Do, Section;
    forall q: nat | q < |s'.procs| ensures Locks(s', q) {
      if !l.By? {
        OthersLocks(s, l, s', q);
      } else if s.procs[l.p].pc.Hold? {
        SectionLocks(s, l.p, q);
      } else if s.procs[l.p].pc.Waking? {
        WakingLocks(s, l.p, q);
      } else {
        StepLocks(s, l.p, q);
      }
    }
  }

  lemma StepSleeps(s: State, p: nat, q: nat)
    requires AllLocks(s) && p < |s.procs| && q < |s.procs| && Ready(s, p) && !s.procs[p].pc.Hold?
    requires !s.procs[p].pc.Waking? && SleepsFitly(s, q)
    ensures q < |Do(s, p).procs| && SleepsFitly(Do(s, p), q)
  {
    hide Valid, Section;
    assert Locks(s, p) && Locks(s, q);
  }

  lemma WakingSleeps(s: State, p: nat, q: nat)
    requires AllLocks(s) && p < |s.procs| && q < |s.procs| && s.procs[p].pc.Waking? && SleepsFitly(s, q)
    ensures q < |Do(s, p).procs| && SleepsFitly(Do(s, p), q)
  {
    hide Valid, Section;
    assert Locks(s, p) && Locks(s, q);
    if s.procs[p].pc.j < |s.procs| {
      assert Locks(s, s.procs[p].pc.j);
    }
  }

  lemma OthersSleep(s: State, l: Label, s': State, q: nat)
    requires AllLocks(s) && Next(s, l, s') && !l.By? && q < |s.procs| && SleepsFitly(s, q)
    ensures q < |s'.procs| && SleepsFitly(s', q)
  {
    assert Locks(s, q);
    if s.lock.Some? {
      assert Locks(s, s.lock.value);
    }
  }

  lemma LocksAreValid(s: State)
    requires AllLocks(s)
    ensures Valid(s)
  {
  }

  /** Outside the part under the lock no sleeper is forgotten. */
  lemma SleepersKeptElsewhere(s: State, l: Label, s': State)
    requires AllLocks(s) && Next(s, l, s') && AllSleepFitly(s) && !Enters(s, l)
    ensures AllSleepFitly(s')
  {
    hide AllLocks, Do, Section;
    StepIsValid(s, l, s') by { LocksAreValid(s); }
    forall q: nat | q < |s'.procs| ensures SleepsFitly(s', q) {
      assert SleepsFitly(s, q);
      if l.By? && s.procs[l.p].pc.Waking? {
        WakingSleeps(s, l.p, q);
      } else if l.By? {
        StepSleeps(s, l.p, q);
      } else {
        OthersSleep(s, l, s', q);
      }
    }
  }

  /** Process p is a writer that has been killed, or whose readers are gone, and that fills
      the pipe, with more to write, while a reader sleeps: it returns without a wakeup. */
  ghost predicate Abandons(s: State, p: nat)
    requires p < |s.procs| == |s.killed|
  {
    && (s.killed[p] || !s.readopen) && s.procs[p].call.Writing?
    && s.st.Held() < PIPESIZE < s.st.Held() + |s.procs[p].call.addr| - s.procs[p].call.i
    && exists k: nat :: k < |s.procs| && Sleeps(s, k) && s.procs[k].call.Reading?
  }

  /** While p has the lock and has not begun, no wakeup is under way. */
  lemma NoWakeupYet(s: State, p: nat, q: nat)
    requires AllLocks(s) && p < |s.procs| && s.procs[p].pc.Hold? && q < |s.procs|
    ensures !WillWake(s, q) && s.lock == Some(p)
  {
    assert Locks(s, p);
  }

  /** A call's part under the lock forgets a sleeper exactly if it is such a writer's. */
  lemma SleepersKept(s: State, p: nat)
    requires AllLocks(s) && p < |s.procs| && s.procs[p].pc.Hold? && AllSleepFitly(s)
    ensures AllSleepFitly(Section(s, p)) <==> !Abandons(s, p)
  {
    var s' := Section(s, p);
    if Abandons(s, p) {
      var k: nat :| k < |s.procs| && Sleeps(s, k) && s.procs[k].call.Reading?;
      AbandonedSleeper(s, p, k);
    } else {
      forall q: nat | q < |s'.procs| ensures SleepsFitly(s', q) {
        assert SleepsFitly(s, q);
        NoWakeupYet(s, p, q);
        SleeperKept(s, p, q);
      }
    }
  }

  lemma AbandonedSleeper(s: State, p: nat, k: nat)
    requires AllLocks(s) && p < |s.procs| && s.procs[p].pc.Hold? && Abandons(s, p)
    requires k < |s.procs| && Sleeps(s, k) && s.procs[k].call.Reading?
    ensures k < |Section(s, p).procs| && !SleepsFitly(Section(s, p), k)
  {
    NoWakeupYet(s, p, k);
  }

  lemma SleeperKept(s: State, p: nat, q: nat)
    requires Valid(s) && p < |s.procs| && s.procs[p].pc.Hold? && s.lock == Some(p) && !Abandons(s, p) && q < |s.procs|
    requires SleepsFitly(s, q) && !WillWake(s, q)
    ensures q < |Section(s, p).procs| && SleepsFitly(Section(s, p), q)
  {
  }

  lemma InitFits(s: State)
    requires Init(s)
    ensures AllLocks(s) && AllSleepFitly(s)
  {
  }

  lemma {:induction false} RunLocks(ss: seq<State>, ls: seq<Label>, i: nat)
    requires IsRun(ss, ls) && i <= |ls|
    ensures AllLocks(ss[i])
  {
    hide Next, AllLocks;
    if i == 0 {
      InitFits(ss[0]);
    } else {
      RunLocks(ss, ls, i - 1);
      LocksKept(ss[i - 1], ls[i - 1], ss[i]);
    }
  }

  /** Some step among the first i abandons a reader. */
  ghost predicate Abandoned(ss: seq<State>, ls: seq<Label>, i: nat)
    requires IsRun(ss, ls) && i <= |ls|
  {
    exists j: nat :: j < i && Enters(ss[j], ls[j]) && Abandons(ss[j], ls[j].p)
  }

  /** No wakeup is lost.  At every point of every run in which no writer has abandoned a
      reader, a process that sleeps, or has let go of the lock to sleep, is a reader of an
      empty pipe or a writer of a full one, or a wakeup under way will find it. */
  lemma {:induction false} SleepersFit(ss: seq<State>, ls: seq<Label>, i: nat)
    requires IsRun(ss, ls) && i <= |ls| && !Abandoned(ss, ls, i)
    ensures AllSleepFitly(ss[i])
    ensures ss[i].lock.None? ==>
      forall p: nat {:trigger Sleeps(ss[i], p)} :: p < |ss[i].procs| && Sleeps(ss[i], p) ==>
        Stalled(ss[i], ss[i].procs[p].call)
  {
    hide Next, AllLocks, Abandons, Valid;
    if i == 0 {
      InitFits(ss[0]);
    } else {
      assert !Abandoned(ss, ls, i - 1);
      SleepersFit(ss, ls, i - 1);
      RunLocks(ss, ls, i - 1);
      var s, l := ss[i - 1], ls[i - 1];
      if Enters(s, l) {
        EntersSection(s, l, ss[i]);
        SleepersKept(s, l.p);
      } else {
        SleepersKeptElsewhere(s, l, ss[i]);
      }
    }
    forall p: nat | p < |ss[i].procs| && Sleeps(ss[i], p) && ss[i].lock.None?
      ensures Stalled(ss[i], ss[i].procs[p].call)
    {
      assert SleepsFitly(ss[i], p);
    }
  }

  lemma {:induction false} OpenAndAlive(ss: seq<State>, ls: seq<Label>, i: nat)
    requires IsRun(ss, ls) && i <= |ls| && forall j :: 0 <= j < i ==>
      !ls[j].Kill? && !(ls[j].CallClose? && !ls[j].writable)
    ensures ss[i].readopen && forall k :: 0 <= k < |ss[i].procs| ==>
      !ss[i].killed[k] && ss[i].procs[k].call != Closing(false)
  {
    if i > 0 {
      OpenAndAlive(ss, ls, i - 1);
      assert Next(ss[i - 1], ls[i - 1], ss[i]);
      AliveStep(ss[i - 1], ls[i - 1], ss[i]);
    }
  }

  lemma AliveStep(s: State, l: Label, s': State)
    requires Valid(s) && Next(s, l, s') && !l.Kill? && !(l.CallClose? && !l.writable)
    requires s.readopen && forall k :: 0 <= k < |s.procs| ==> !s.killed[k] && s.procs[k].call != Closing(false)
    ensures Valid(s') && s'.readopen && forall k :: 0 <= k < |s'.procs| ==>
      !s'.killed[k] && s'.procs[k].call != Closing(false)
  {
    StepIsValid(s, l, s');
    hide Section, Do, Valid;
    if Enters(s, l) {
      EntersSection(s, l, s');
      SectionKeepsReaders(s, l.p);
    } else if l.By? {
      DoKeepsRest(s, l.p);
      DoKeepsReaders(s, l.p);
    }
  }

  lemma SectionKeepsReaders(s: State, p: nat)
    requires Valid(s) && p < |s.procs| && s.procs[p].pc.Hold? && s.procs[p].call != Closing(false)
    ensures var s' := Section(s, p);
      && s'.readopen == s.readopen && s'.killed == s.killed && |s'.procs| == |s.procs|
      && forall k :: 0 <= k < |s.procs| && s.procs[k].call != Closing(false) ==> s'.procs[k].call != Closing(false)
  {
    hide ReadSection, WriteSection;
  }

  lemma DoKeepsReaders(s: State, p: nat)
    requires Valid(s) && p < |s.procs| && Ready(s, p) && !s.procs[p].pc.Hold?
    ensures |Do(s, p).procs| == |s.procs|
    ensures forall k :: 0 <= k < |s.procs| && s.procs[k].call != Closing(false) ==>
      Do(s, p).procs[k].call != Closing(false)
  {
    hide Section, Valid;
  }

  /** As long as nobody is killed and the read end stays open, no reader is abandoned. */
  lemma NobodyAbandoned(ss: seq<State>, ls: seq<Label>, i: nat)
    requires IsRun(ss, ls) && i <= |ls| && forall j :: 0 <= j < i ==>
      !ls[j].Kill? && !(ls[j].CallClose? && !ls[j].writable)
    ensures !Abandoned(ss, ls, i)
  {
    forall j: nat | j < i && Enters(ss[j], ls[j]) ensures !Abandons(ss[j], ls[j].p) {
      OpenAndAlive(ss, ls, j);
    }
  }

  /** Process 0 as it reads, steps by steps, and process 1 as it writes. */
  function Pair(r: Proc, w: Proc, lock: Option<nat>, ptable: Ptable, killed: bool): State
  {
    State(Stream([], 0), [], true, true, lock, ptable, [r, w], [false, killed])
  }

  lemma ReaderStalls() returns (ss: seq<State>, ls: seq<Label>)
    ensures |ss| == |ls| + 1 && IsRun(ss, ls) && Valid(ss[|ls|])
    ensures ss[|ls|] == Pair(Proc(Reading(1), WantPtable), Proc(NoCall, Out), Some(0), Nobody, false)
  {
    var r, out := Reading(1), Proc(NoCall, Out);
    ss, ls := [Pair(out, out, None, Nobody, false)], [];
    assert IsRun(ss, ls);
    var held := Pair(Proc(r, Hold), out, Some(0), Nobody, false);
    var stalled := Pair(Proc(r, WantPtable), out, Some(0), Nobody, false);
    assert Section(held, 0) == stalled by {
      assert held.received + [] == held.received;
    }
    ss, ls := Extend(ss, ls, CallRead(0, 1), Pair(Proc(r, Want), out, None, Nobody, false));
    ss, ls := Extend(ss, ls, By(0), held);
    ss, ls := Extend(ss, ls, By(0), stalled);
  }

  lemma ReaderGoesToSleep() returns (ss: seq<State>, ls: seq<Label>)
    ensures |ss| == |ls| + 1 && IsRun(ss, ls) && Valid(ss[|ls|])
    ensures ss[|ls|] == Pair(Proc(Reading(1), Asleep(false)), Proc(NoCall, Out), None, Nobody, false)
  {
    hide IsRun, Section;
    var r, out := Reading(1), Proc(NoCall, Out);
    ss, ls := ReaderStalls();
    ss, ls := Extend(ss, ls, By(0), Pair(Proc(r, DropLock), out, Some(0), Held(0), false));
    ss, ls := Extend(ss, ls, By(0), Pair(Proc(r, GoToSleep), out, None, Held(0), false));
    ss, ls := Extend(ss, ls, By(0), Pair(Proc(r, Asleep(false)), out, None, Other, false));
    ss, ls := Extend(ss, ls, GivePtable, Pair(Proc(r, Asleep(false)), out, None, Nobody, false));
  }

  lemma {:induction false} RunOn(ss: seq<State>, ls: seq<Label>, l: Label, s': State)
    requires IsRun(ss, ls) && Next(ss[|ls|], l, s')
    ensures IsRun(ss + [s'], ls + [l])
  {
    StepIsValid(ss[|ls|], l, s');
    hide Next, Valid, Init;
    forall i | 0 <= i < |ls + [l]| ensures Next((ss + [s'])[i], (ls + [l])[i], (ss + [s'])[i + 1]) {
    }
  }

  /** The part under the lock of the killed writer of 513 bytes: it fills the ring and leaves. */
  lemma KilledSection(addr: seq<Byte>) returns (s: State)
    requires |addr| == PIPESIZE + 1
    ensures var s0 := Pair(Proc(Reading(1), Asleep(false)), Proc(Writing(addr, 0), Hold), Some(1), Nobody, true);
      && s == Section(s0, 1) && Abandons(s0, 1) && |s.procs| == 2 && s.procs[1].pc.Release? && s.procs[0] == s0.procs[0]
      && s.st.Held() == PIPESIZE && s.readopen && s.writeopen && s.lock == Some(1)
  {
    var s0 := Pair(Proc(Reading(1), Asleep(false)), Proc(Writing(addr, 0), Hold), Some(1), Nobody, true);
    s := Section(s0, 1);
    assert Sleeps(s0, 0);
  }

  /** The abandoned reader is real: a reader goes to sleep, a writer of 513 bytes is killed
      before it gets the lock, and once it has returned the reader sleeps on a full pipe. */
  lemma KilledWriterAbandons(addr: seq<Byte>) returns (ss: seq<State>, ls: seq<Label>)
    requires |addr| == PIPESIZE + 1
    ensures IsRun(ss, ls) && Abandoned(ss, ls, |ls|)
    ensures var s := ss[|ls|];
      && s.readopen && s.writeopen && s.lock.None? && s.st.Held() == PIPESIZE
      && 0 < |s.procs| && s.procs[0] == Proc(Reading(1), Asleep(false)) && forall p :: 0 < p < |s.procs| ==>
        s.procs[p].pc.Out?
  {
    hide IsRun, Section, Abandons;
    ss, ls := ReaderGoesToSleep();
    var r, w := Proc(Reading(1), Asleep(false)), Writing(addr, 0);
    var s1 := Pair(r, Proc(w, Want), None, Nobody, false);
    var s2 := Pair(r, Proc(w, Want), None, Nobody, true);
    var s3 := Pair(r, Proc(w, Hold), Some(1), Nobody, true);
    var s4 := KilledSection(addr);
    var s5 := s4.(lock := None, procs := s4.procs[1 := Proc(NoCall, Out)]);
    ss, ls := Extend(ss, ls, CallWrite(1, addr), s1);
    ss, ls := Extend(ss, ls, Kill(1), s2);
    ss, ls := Extend(ss, ls, By(1), s3);
    var k := |ls|;
    ss, ls := Extend(ss, ls, By(1), s4);
    assert ss[k] == s3 && ls[k] == By(1);
    ss, ls := Extend(ss, ls, By(1), s5);
    assert ss[k] == s3 && ls[k] == By(1) && Enters(ss[k], ls[k]) && k < |ls|;
  }

  lemma Extend(ss: seq<State>, ls: seq<Label>, l: Label, s': State) returns (ss': seq<State>, ls': seq<Label>)
    requires |ss| == |ls| + 1 && Valid(ss[|ls|]) && IsRun(ss, ls) && Next(ss[|ls|], l, s')
    ensures |ss'| == |ls'| + 1 && Valid(s') && IsRun(ss', ls') && ss' == ss + [s'] && ls' == ls + [l]
    ensures ss'[|ls'|] == s'
  {
    RunOn(ss, ls, l, s');
    StepIsValid(ss[|ls|], l, s');
    ss', ls' := ss + [s'], ls + [l];
  }

  // ---- one writer ----

  /** The bytes of all pipewrite calls so far. */
  function Script(ls: seq<Label>): seq<Byte>
  {
    if ls == [] then []
    else Script(ls[..|ls| - 1]) + if ls[|ls| - 1].CallWrite? then ls[|ls| - 1].addr else []
  }

  /** What the call has yet to store. */
  function Left(c: Call): seq<Byte>
    requires c.Writing? ==> c.i <= |c.addr|
  {
    if c.Writing? then c.addr[c.i..] else []
  }

  /** The pipe has all bytes of the writer's calls but those it has yet to store. */
  ghost predicate Delivers(s: State, script: seq<Byte>, w: nat)
    requires w < |s.procs| && ValidCall(s.procs[w].call)
  {
    && script == s.st.stored + Left(s.procs[w].call)
    && (forall k :: 0 <= k < |s.procs| && k != w ==> !s.procs[k].call.Writing?)
    && (Finishing(s.procs[w].pc) ==> Left(s.procs[w].call) == [])
  }

  /** The process has done its part and will not come back to it. */
  predicate Finishing(c: Pc) { c.Release? || ((c.WakeWant? || c.Waking?) && !c.sleeps) }

  lemma SectionDelivers(s: State, p: nat, script: seq<Byte>, w: nat)
    requires Valid(s) && p < |s.procs| && s.procs[p].pc.Hold? && w < |s.procs| && Delivers(s, script, w)
    requires s.readopen && !s.killed[p]
    ensures Valid(Section(s, p)) && w < |Section(s, p).procs| && Delivers(Section(s, p), script, w)
  {
    SectionIsValid(s, p);
    if p == w && s.procs[w].call.Writing? {
      WriterDelivers(s, script, w);
    }
  }

  lemma WriterDelivers(s: State, script: seq<Byte>, w: nat)
    requires Valid(s) && w < |s.procs| && s.procs[w].pc.Hold? && s.procs[w].call.Writing?
    requires s.readopen && !s.killed[w] && Delivers(s, script, w)
    ensures Valid(Section(s, w)) && w < |Section(s, w).procs| && Delivers(Section(s, w), script, w)
  {
    SectionIsValid(s, w);
    var s' := Section(s, w);
    WriterPart(s, w);
    hide Section, Valid;
    var c, c' := s.procs[w].call, s'.procs[w].call;
    SplitAfter(s.st.stored, c.addr, c.i, c'.i - c.i);
    ProcIsValid(s', w);
  }

  /** What the writer's part does to its own state and to the bytes. */
  lemma WriterPart(s: State, w: nat)
    requires Valid(s) && w < |s.procs| && s.procs[w].call.Writing? && s.readopen && !s.killed[w]
    ensures var s' := Section(s, w);
      && |s'.procs| == |s.procs| && (forall k :: 0 <= k < |s.procs| && k != w ==> s'.procs[k] == s.procs[k])
      && var c, c' := s.procs[w].call, s'.procs[w].call;
      && c'.Writing? && c'.addr == c.addr && c.i <= c'.i <= |c.addr|
      && s'.st.stored == s.st.stored + c.addr[c.i..c'.i]
      && (Finishing(s'.procs[w].pc) ==> c'.i == |c.addr|)
  {
    hide WriteSection, ReadSection;
  }

  lemma SplitAfter(stored: seq<Byte>, addr: seq<Byte>, i: nat, n: nat)
    requires i + n <= |addr|
    ensures stored + addr[i..] == stored + addr[i..i + n] + addr[i + n..]
  {
    assert addr[i..] == addr[i..i + n] + addr[i + n..];
  }

  lemma ElsewhereDelivers(s: State, l: Label, s': State, script: seq<Byte>, w: nat)
    requires Valid(s) && Valid(s') && Next(s, l, s') && !Enters(s, l) && w < |s.procs| == |s'.procs|
    requires !l.CallWrite? && Delivers(s, script, w)
    ensures Delivers(s', script, w)
  {
    hide Do, Delivers;
    if l.By? && s.procs[l.p].pc.Waking? {
      WakingDelivers(s, l.p, script, w);
    } else if l.By? {
      DoDelivers(s, l.p, script, w);
    } else {
      OthersDeliver(s, l, s', script, w);
    }
  }

  lemma DoDelivers(s: State, p: nat, script: seq<Byte>, w: nat)
    requires Valid(s) && p < |s.procs| && Ready(s, p) && !s.procs[p].pc.Hold? && !s.procs[p].pc.Waking?
    requires w < |s.procs| && Delivers(s, script, w)
    ensures w < |Do(s, p).procs| && ValidCall(Do(s, p).procs[w].call) && Delivers(Do(s, p), script, w)
  {
    DoKeepsCalls(s, p);
    hide Do;
  }

  lemma DoKeepsCalls(s: State, p: nat)
    requires Valid(s) && p < |s.procs| && Ready(s, p) && !s.procs[p].pc.Hold? && !s.procs[p].pc.Waking?
    ensures var s' := Do(s, p);
      && s'.st == s.st && |s'.procs| == |s.procs|
      && (forall k :: 0 <= k < |s.procs| && k != p ==> s'.procs[k] == s.procs[k])
      && s'.procs[p].call == (if s.procs[p].pc.Release? then NoCall else s.procs[p].call)
      && (Finishing(s'.procs[p].pc) ==> Finishing(s.procs[p].pc))
  {
    hide Section, Valid;
  }

  lemma OthersDeliver(s: State, l: Label, s': State, script: seq<Byte>, w: nat)
    requires Valid(s) && Valid(s') && Next(s, l, s') && !l.By? && w < |s.procs| == |s'.procs|
    requires !l.CallWrite? && Delivers(s, script, w)
    ensures Delivers(s', script, w)
  {
    hide Do;
  }

  lemma WakingDelivers(s: State, p: nat, script: seq<Byte>, w: nat)
    requires Valid(s) && p < |s.procs| && s.procs[p].pc.Waking? && w < |s.procs| && Delivers(s, script, w)
    ensures w < |Do(s, p).procs| && ValidCall(Do(s, p).procs[w].call) && Delivers(Do(s, p), script, w)
  {
    hide Section, Left;
  }

  lemma CallDelivers(s: State, l: Label, s': State, script: seq<Byte>, w: nat)
    requires Valid(s) && Valid(s') && Next(s, l, s') && l.CallWrite? && l.p == w && w < |s.procs| == |s'.procs|
    requires Delivers(s, script, w)
    ensures Delivers(s', script + l.addr, w)
  {
    assert l.addr[0..] == l.addr;
    assert script == s.st.stored;
  }

  lemma DeliversOn(s: State, l: Label, s': State, script: seq<Byte>, w: nat)
    requires Valid(s) && Next(s, l, s') && (l.CallWrite? ==> l.p == w) && w < |s.procs|
    requires s.readopen && (forall k :: 0 <= k < |s.killed| ==> !s.killed[k]) && Delivers(s, script, w)
    ensures Valid(s') && w < |s'.procs| && Delivers(s', script + if l.CallWrite? then l.addr else [], w)
  {
    hide Delivers, Section, Do;
    StepIsValid(s, l, s');
    if l.CallWrite? {
      CallDelivers(s, l, s', script, w);
    } else {
      assert script + [] == script;
      if Enters(s, l) {
        EntersSection(s, l, s');
        SectionDelivers(s, l.p, script, w);
      } else {
        ElsewhereDelivers(s, l, s', script, w);
      }
    }
  }

  /** With one writer, nobody killed and the read end open, the pipe delivers: the bytes
      stored are all bytes written but what the current call has yet to store, in
      order; so the bytes read are a prefix of the bytes written. */
  lemma {:induction false} OneWriterDelivers(ss: seq<State>, ls: seq<Label>, i: nat, w: nat)
    requires IsRun(ss, ls) && i <= |ls| && w < |ss[0].procs|
    requires forall j :: 0 <= j < i ==>
      !ls[j].Kill? && !(ls[j].CallClose? && !ls[j].writable) && (ls[j].CallWrite? ==> ls[j].p == w)
    ensures w < |ss[i].procs| && Delivers(ss[i], Script(ls[..i]), w) && ss[i].received <= Script(ls[..i])
  {
    hide Next, Delivers, Valid;
    if i == 0 {
      StartDelivers(ss[0], w);
    } else {
      OneWriterDelivers(ss, ls, i - 1, w);
      OpenAndAlive(ss, ls, i - 1);
      AsManyFlags(ss[i - 1]);
      DeliversOn(ss[i - 1], ls[i - 1], ss[i], Script(ls[..i - 1]), w);
      assert ls[..i][..i - 1] == ls[..i - 1];
    }
    ReadIsPrefix(ss, ls, i);
    ProcIsValid(ss[i], w);
    StoredIsScripted(ss[i], Script(ls[..i]), w);
  }

  lemma AsManyFlags(s: State)
    requires Valid(s)
    ensures |s.killed| == |s.procs|
  {
  }

  lemma StartDelivers(s: State, w: nat)
    requires Init(s) && w < |s.procs|
    ensures ValidCall(s.procs[w].call) && Delivers(s, [], w)
  {
  }

  lemma StoredIsScripted(s: State, script: seq<Byte>, w: nat)
    requires w < |s.procs| && ValidCall(s.procs[w].call) && Delivers(s, script, w)
    ensures s.st.stored <= script
  {
  }
}
