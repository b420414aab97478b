/** Calls on a pipe, from the first statement to the last: what a call does when no one is in
    its way, how it falls asleep, and how it is served once it is woken. */
module PipeCalls {
  import opened Blocks
  import opened Pipe
  import opened PipeRuns

  /** These steps lead from s to s'. */
  ghost predicate Leads(s: State, ls: seq<Label>, s': State)
    decreases |ls|
  {
    if ls == [] then s' == s else Valid(s) && exists m :: Next(s, ls[0], m) && Leads(m, ls[1..], s')
  }

  lemma One(s: State, l: Label, s': State)
    requires Valid(s) && Next(s, l, s')
    ensures Leads(s, [l], s') && Valid(s')
  {
    StepIsValid(s, l, s');
    assert Leads(s', [l][1..], s');
  }

  lemma {:induction false} Then(a: State, l1: seq<Label>, b: State, l2: seq<Label>, c: State)
    requires Leads(a, l1, b) && Leads(b, l2, c)
    ensures Leads(a, l1 + l2, c)
    decreases |l1|
  {
    hide Next;
    if l1 == [] {
      assert l1 + l2 == l2;
    } else {
      var m :| Next(a, l1[0], m) && Leads(m, l1[1..], b);
      Then(m, l1[1..], b, l2, c);
      assert (l1 + l2)[1..] == l1[1..] + l2;
    }
  }

  /** One step more. */
  lemma Onward(a: State, ls: seq<Label>, b: State, l: Label, c: State)
    requires Leads(a, ls, b) && Valid(b) && Next(b, l, c)
    ensures Leads(a, ls + [l], c) && Valid(c)
  {
    hide Next, Leads;
    One(b, l, c);
    Then(a, ls, b, [l], c);
  }

  /** n steps of process p. */
  function Bys(p: nat, n: nat): (ls: seq<Label>)
    ensures |ls| == n && forall i :: 0 <= i < n ==> ls[i] == By(p)
  {
    seq(n, _ => By(p))
  }

  lemma OnwardBy(a: State, p: nat, n: nat, b: State, c: State)
    requires Leads(a, Bys(p, n), b) && Valid(b) && Next(b, By(p), c)
    ensures Leads(a, Bys(p, n + 1), c) && Valid(c)
  {
    hide Next, Leads;
    Onward(a, Bys(p, n), b, By(p), c);
    assert Bys(p, n) + [By(p)] == Bys(p, n + 1);
  }

  /** Whom a call is to wake: a read the writers, a write the readers, a close those who wait for
      the end it closes. */
  predicate IsFor(waker: Call, c: Call) {
    match waker
    case Reading(_) => c.Writing?
    case Writing(_, _) => c.Reading?
    case Closing(writable) => if writable then c.Reading? else c.Writing?
    case NoCall => false
  }

  lemma WakesItsOwn(waker: Call, c: Call)
    requires !waker.NoCall?
    ensures IsFor(waker, c) <==> Wakes(waker, c)
  {
  }

  /** The processes once a wakeup by p has looked at the first j of them. */
  function Roused(procs: seq<Proc>, p: nat, j: nat, c: Pc): (r: seq<Proc>)
    requires p < |procs|
    ensures |r| == |procs| && forall k :: 0 <= k < |procs| ==>
      r[k] == if k == p then procs[p].(pc := c)
              else if k < j && procs[k].pc == Asleep(false) && IsFor(procs[p].call, procs[k].call)
              then procs[k].(pc := Asleep(true))
              else procs[k]
  {
    seq(|procs|, k requires 0 <= k < |procs| =>
      if k == p then procs[p].(pc := c)
      else if k < j && procs[k].pc == Asleep(false) && IsFor(procs[p].call, procs[k].call)
      then procs[k].(pc := Asleep(true))
      else procs[k])
  }

  /** wakeup in its loop, before process j. */
  function InWakeup(s: State, p: nat, j: nat, sleeps: bool): State
    requires p < |s.procs|
  {
    s.(ptable := Held(p), procs := Roused(s.procs, p, j, Waking(j, sleeps)))
  }

  lemma LooksAt(s: State, p: nat, j: nat, sleeps: bool)
    requires Valid(s) && p < |s.procs| && j < |s.procs| && Valid(InWakeup(s, p, j, sleeps))
    requires !s.procs[p].pc.Asleep? && !s.procs[p].call.NoCall?
    ensures Next(InWakeup(s, p, j, sleeps), By(p), InWakeup(s, p, j + 1, sleeps))
  {
    hide Valid, Section, Wakes, IsFor;
    WakesItsOwn(s.procs[p].call, s.procs[j].call);
    assert Do(InWakeup(s, p, j, sleeps), p).procs == InWakeup(s, p, j + 1, sleeps).procs;
  }

  /** wakeup: every sleeper on the channel can run, no one else's state changes, and the caller
      goes on to sleep or to leave. */
  lemma WakesAll(s: State, p: nat)
    requires Valid(s) && p < |s.procs| && s.procs[p].pc.WakeWant? && s.ptable.Nobody?
    ensures var s' := s.(procs := Roused(s.procs, p, |s.procs|, if s.procs[p].pc.sleeps then WantPtable else Release));
      Valid(s') && Leads(s, Bys(p, |s.procs| + 2), s')
  {
    hide Leads, Valid, Section, Next, Roused, InWakeup, Do, Ready;
    ProcIsValid(s, p);
    var n, j, sleeps := |s.procs|, 0, s.procs[p].pc.sleeps;
    BeginsWakeup(s, p, sleeps);
    One(s, By(p), InWakeup(s, p, 0, sleeps));
    assert Bys(p, 1) == [By(p)];
    while j < n
      invariant 0 <= j <= n && Valid(InWakeup(s, p, j, sleeps))
      invariant Leads(s, Bys(p, j + 1), InWakeup(s, p, j, sleeps))
    {
      LooksAt(s, p, j, sleeps);
      OnwardBy(s, p, j + 1, InWakeup(s, p, j, sleeps), InWakeup(s, p, j + 1, sleeps));
      j := j + 1;
    }
    EndsWakeup(s, p, sleeps);
    OnwardBy(s, p, n + 1, InWakeup(s, p, n, sleeps),
             s.(procs := Roused(s.procs, p, n, if sleeps then WantPtable else Release)));
  }

  lemma BeginsWakeup(s: State, p: nat, sleeps: bool)
    requires Valid(s) && p < |s.procs| && s.procs[p].pc == WakeWant(sleeps) && s.ptable.Nobody?
    ensures Next(s, By(p), InWakeup(s, p, 0, sleeps))
  {
    hide Valid, Section, IsFor;
    assert Do(s, p).procs == InWakeup(s, p, 0, sleeps).procs;
  }

  lemma EndsWakeup(s: State, p: nat, sleeps: bool)
    requires p < |s.procs| && s.ptable.Nobody? && Valid(InWakeup(s, p, |s.procs|, sleeps))
    ensures Next(InWakeup(s, p, |s.procs|, sleeps), By(p),
                 s.(procs := Roused(s.procs, p, |s.procs|, if sleeps then WantPtable else Release)))
  {
    hide Valid, Section, IsFor;
    var s1, s2 := InWakeup(s, p, |s.procs|, sleeps),
                  s.(procs := Roused(s.procs, p, |s.procs|, if sleeps then WantPtable else Release));
    assert Do(s1, p).procs == s2.procs;
  }

  /** The state once a call that does not sleep has returned: its part under the lock is done,
      the sleepers on the other channel can run, and the pipe's lock is free. */
  function Done(s: State, p: nat): State
    requires Valid(s) && p < |s.procs| == |Section(s, p).procs|
  {
    var procs := Section(s, p).procs;
    Section(s, p).(lock := None, procs := Roused(procs, p, |procs|, Release)[p := Proc(NoCall, Out)])
  }

  lemma Finishes(s: State, p: nat)
    requires Valid(s) && p < |s.procs| == |Section(s, p).procs| && s.procs[p].pc.Hold? && s.lock == Some(p)
    requires s.ptable.Nobody? && Section(s, p).procs[p].pc == WakeWant(false) && Section(s, p).ptable.Nobody?
    ensures Leads(s, Bys(p, |s.procs| + 4), Done(s, p)) && Valid(Done(s, p))
  {
    hide Leads, Section, Valid;
    var n, s1 := |s.procs|, Section(s, p);
    One(s, By(p), s1);
    WakesAll(s1, p);
    var s2 := s1.(procs := Roused(s1.procs, p, n, Release));
    Then(s, [By(p)], s1, Bys(p, n + 2), s2);
    assert [By(p)] + Bys(p, n + 2) == Bys(p, n + 3);
    OnwardBy(s, p, n + 3, s2, Done(s, p));
  }

  /** A process enters a call and gets the pipe's lock. */
  lemma TakesLock(s: State, l: Label, p: nat, c: Call)
    requires Valid(s) && p < |s.procs| && s.procs[p].pc.Out? && s.lock.None?
    requires Next(s, l, Calling(s, p, c))
    ensures var s' := s.(lock := Some(p), procs := s.procs[p := Proc(c, Hold)]); Valid(s') && Leads(s, [l, By(p)], s')
  {
    hide Leads, Valid, Section;
    var s1, s2 := Calling(s, p, c), s.(lock := Some(p), procs := s.procs[p := Proc(c, Hold)]);
    One(s, l, s1);
    assert Do(s1, p) == s2;
    Onward(s, [l], s1, By(p), s2);
    assert [l] + [By(p)] == [l, By(p)];
  }

  /** piperead of a pipe that has bytes or no writer's end: n bytes, or all there are, come out
      in order, whoever waits for room can run, and the locks are free. */
  lemma ReadGoesThrough(s: State, p: nat, n: nat) returns (s': State)
    requires Valid(s) && p < |s.procs| && s.procs[p].pc.Out? && s.lock.None? && s.ptable.Nobody?
    requires s.st.Held() > 0 || !s.writeopen
    ensures Valid(s') && Leads(s, [CallRead(p, n)] + Bys(p, |s.procs| + 5), s')
    ensures var m := Min(n, s.st.Held());
      && s'.received == s.received + s.st.stored[s.st.taken..s.st.taken + m]
      && s' == s.(st := s.st.(taken := s.st.taken + m), received := s'.received,
                  procs := Roused(s.procs[p := Proc(Reading(n), Hold)], p, |s.procs|, Release)[p := Proc(NoCall, Out)])
  {
    hide Leads, Valid;
    TakesLock(s, CallRead(p, n), p, Reading(n));
    var s1 := s.(lock := Some(p), procs := s.procs[p := Proc(Reading(n), Hold)]);
    StreamOf(s1);
    s' := ReadsAll(s1, p, n);
    Then(s, [CallRead(p, n), By(p)], s1, Bys(p, |s.procs| + 4), s');
    assert [CallRead(p, n), By(p)] + Bys(p, |s.procs| + 4) == [CallRead(p, n)] + Bys(p, |s.procs| + 5);
  }

  lemma StreamOf(s: State)
    requires Valid(s)
    ensures s.st.Valid() && |s.killed| == |s.procs|
  {
  }

  lemma ReadsAll(s: State, p: nat, n: nat) returns (s': State)
    requires Valid(s) && p < |s.procs| && s.procs[p] == Proc(Reading(n), Hold) && s.lock == Some(p) && s.ptable.Nobody?
    requires s.st.Held() > 0 || !s.writeopen
    ensures Valid(s') && Leads(s, Bys(p, |s.procs| + 4), s')
    ensures var m := Min(n, s.st.Held());
      && 0 <= m && s.st.taken + m <= |s.st.stored|
      && s'.received == s.received + s.st.stored[s.st.taken..s.st.taken + m]
      && s' == s.(lock := None, st := s.st.(taken := s.st.taken + m), received := s'.received,
                  procs := Roused(s.procs, p, |s.procs|, Release)[p := Proc(NoCall, Out)])
  {
    hide Leads, Valid, ReadSection;
    StreamOf(s);
    var (st, out, dst, woke) := ReadSection(s.st, n, s.writeopen, s.killed[p]);
    SectionIsValid(s, p);
    Finishes(s, p);
    s' := Done(s, p);
    assert Roused(Section(s, p).procs, p, |s.procs|, Release) == Roused(s.procs, p, |s.procs|, Release);
  }

  /** pipewrite of bytes the ring has room for: all go in behind those stored so far, whoever
      waits for bytes can run, and the locks are free. */
  lemma WriteGoesThrough(s: State, p: nat, addr: seq<Byte>) returns (s': State)
    requires Valid(s) && p < |s.procs| && s.procs[p].pc.Out? && s.lock.None? && s.ptable.Nobody?
    requires s.st.Held() + |addr| <= PIPESIZE
    ensures Valid(s') && Leads(s, [CallWrite(p, addr)] + Bys(p, |s.procs| + 5), s')
    ensures s' == s.(st := s.st.(stored := s.st.stored + addr),
                     procs := Roused(s.procs[p := Proc(Writing(addr, 0), Hold)], p, |s.procs|, Release)
                              [p := Proc(NoCall, Out)])
  {
    hide Leads, Valid;
    TakesLock(s, CallWrite(p, addr), p, Writing(addr, 0));
    var s1 := s.(lock := Some(p), procs := s.procs[p := Proc(Writing(addr, 0), Hold)]);
    s' := WritesAll(s1, p, addr, 0);
    assert addr[0..] == addr;
    Then(s, [CallWrite(p, addr), By(p)], s1, Bys(p, |s.procs| + 4), s');
    assert [CallWrite(p, addr), By(p)] + Bys(p, |s.procs| + 4) == [CallWrite(p, addr)] + Bys(p, |s.procs| + 5);
  }

  lemma WritesAll(s: State, p: nat, addr: seq<Byte>, i: nat) returns (s': State)
    requires Valid(s) && p < |s.procs| && i <= |addr| && s.procs[p] == Proc(Writing(addr, i), Hold)
    requires s.lock == Some(p) && s.ptable.Nobody? && s.st.Held() + |addr| - i <= PIPESIZE
    ensures Valid(s') && Leads(s, Bys(p, |s.procs| + 4), s')
    ensures s' == s.(lock := None, st := s.st.(stored := s.st.stored + addr[i..]),
                     procs := Roused(s.procs, p, |s.procs|, Release)[p := Proc(NoCall, Out)])
  {
    hide Leads, Valid, WriteSection;
    StreamOf(s);
    var (st, out, woke) := WriteSection(s.st, addr, i, s.readopen, s.killed[p]);
    assert |st.stored| - |s.st.stored| == |addr| - i;
    SectionIsValid(s, p);
    Finishes(s, p);
    s' := Done(s, p);
    assert s'.procs == Roused(s.procs, p, |s.procs|, Release)[p := Proc(NoCall, Out)];
  }

  /** piperead of an empty pipe that is still written: the caller sleeps, and the pipe's lock is
      free. */
  lemma ReadFallsAsleep(s: State, p: nat, n: nat) returns (s': State)
    requires Valid(s) && p < |s.procs| == |s.killed| && s.procs[p].pc.Out? && s.lock.None? && s.ptable.Nobody?
    requires s.st.Held() == 0 && s.writeopen && !s.killed[p]
    ensures Valid(s') && Leads(s, [CallRead(p, n)] + Bys(p, 5), s')
    ensures s' == s.(ptable := Other, procs := s.procs[p := Proc(Reading(n), Asleep(false))])
  {
    hide Leads, Valid;
    TakesLock(s, CallRead(p, n), p, Reading(n));
    var s1 := s.(lock := Some(p), procs := s.procs[p := Proc(Reading(n), Hold)]);
    StreamOf(s1);
    var s2 := s1.(procs := s.procs[p := Proc(Reading(n), WantPtable)]);
    assert Section(s1, p) == s2 by {
      assert s.received + [] == s.received;
    }
    One(s1, By(p), s2);
    hide Section;
    Then(s, [CallRead(p, n), By(p)], s1, [By(p)], s2);
    s' := GoesToSleep(s2, p);
    Then(s, [CallRead(p, n), By(p)] + [By(p)], s2, Bys(p, 3), s');
    assert [CallRead(p, n), By(p)] + [By(p)] + Bys(p, 3) == [CallRead(p, n)] + Bys(p, 5);
  }

  /** sleep, from the pipe's lock held to the pipe's lock free. */
  lemma GoesToSleep(s: State, p: nat) returns (s': State)
    requires Valid(s) && p < |s.procs| && s.procs[p].pc == WantPtable && s.ptable.Nobody?
    ensures Valid(s') && Leads(s, Bys(p, 3), s')
    ensures s' == s.(lock := None, ptable := Other, procs := s.procs[p := s.procs[p].(pc := Asleep(false))])
  {
    hide Leads, Valid, Section;
    var c := s.procs[p];
    var s1 := s.(ptable := Held(p), procs := s.procs[p := c.(pc := DropLock)]);
    var s2 := s.(ptable := Held(p), lock := None, procs := s.procs[p := c.(pc := GoToSleep)]);
    s' := s.(lock := None, ptable := Other, procs := s.procs[p := c.(pc := Asleep(false))]);
    One(s, By(p), s1);
    assert Bys(p, 1) == [By(p)];
    OnwardBy(s, p, 1, s1, s2);
    OnwardBy(s, p, 2, s2, s');
  }

  /** A process that was woken and is run comes back to its call with the pipe's lock. */
  lemma ComesBack(s: State, p: nat) returns (s': State)
    requires Valid(s) && p < |s.procs| && s.procs[p].pc == Asleep(true) && s.ptable.Nobody? && s.lock.None?
    ensures Valid(s') && Leads(s, [Run(p)] + Bys(p, 3), s')
    ensures s' == s.(lock := Some(p), procs := s.procs[p := s.procs[p].(pc := Hold)])
  {
    hide Leads, Valid, Section;
    var c := s.procs[p];
    var s1 := s.(ptable := Held(p), procs := s.procs[p := c.(pc := Woken)]);
    var s2 := s.(ptable := Held(p), procs := s.procs[p := c.(pc := DropPtable)]);
    var s3 := s.(procs := s.procs[p := c.(pc := Want)]);
    s' := s.(lock := Some(p), procs := s.procs[p := c.(pc := Hold)]);
    One(s, Run(p), s1);
    Onward(s, [Run(p)], s1, By(p), s2);
    Onward(s, [Run(p)] + [By(p)], s2, By(p), s3);
    Onward(s, [Run(p)] + [By(p)] + [By(p)], s3, By(p), s');
    assert [Run(p)] + [By(p)] + [By(p)] + [By(p)] == [Run(p)] + Bys(p, 3);
  }

  /** A reader asleep on an empty pipe is served by the next write: the writer's wakeup finds it,
      it is run, and it returns with the writer's bytes, as many as it asked for. */
  lemma ReaderIsServed(s: State, p: nat, n: nat, q: nat, addr: seq<Byte>) returns (s': State, ls: seq<Label>)
    requires Valid(s) && p < |s.procs| && q < |s.procs| && s.lock.None? && s.ptable.Nobody?
    requires s.procs[p] == Proc(Reading(n), Asleep(false)) && s.procs[q].pc.Out? && s.st.Held() == 0
    requires 0 < |addr| <= PIPESIZE
    ensures Valid(s') && Leads(s, ls, s')
    ensures |s'.procs| == |s.procs| && s'.procs[p].pc.Out? && s'.procs[q].pc.Out? && s'.lock.None? && s'.ptable.Nobody?
    ensures s'.received == s.received + if n < |addr| then addr[..n] else addr
  {
    hide Leads, Valid;
    var s1 := WriteGoesThrough(s, q, addr);
    var l1 := [CallWrite(q, addr)] + Bys(q, |s.procs| + 5);
    var s2 := ComesBack(s1, p);
    var l2 := [Run(p)] + Bys(p, 3);
    s' := ReadsAll(s2, p, n);
    Then(s, l1, s1, l2, s2);
    Then(s, l1 + l2, s2, Bys(p, |s.procs| + 4), s');
    ls := l1 + l2 + Bys(p, |s.procs| + 4);
    StreamOf(s);
    Tail(s.st.stored, addr, Min(n, |addr|), s.st.taken);
  }

  /** pipewrite of more than the ring has room for, with a reader's end: the bytes that fit go
      in, whoever waits for bytes can run, and the caller sleeps on a full ring. */
  lemma WriteFallsAsleep(s: State, p: nat, addr: seq<Byte>) returns (s': State)
    requires Valid(s) && p < |s.procs| == |s.killed| && s.procs[p].pc.Out? && s.lock.None? && s.ptable.Nobody?
    requires s.st.Held() + |addr| > PIPESIZE && s.readopen && !s.killed[p]
    ensures Valid(s') && Leads(s, [CallWrite(p, addr)] + Bys(p, |s.procs| + 7), s')
    ensures var m := PIPESIZE - s.st.Held();
      && 0 <= m < |addr|
      && s' == s.(st := s.st.(stored := s.st.stored + addr[..m]), ptable := Other,
                  procs := Roused(s.procs[p := Proc(Writing(addr, m), Hold)], p, |s.procs|, Asleep(false)))
  {
    hide Leads, Valid, WriteSection;
    TakesLock(s, CallWrite(p, addr), p, Writing(addr, 0));
    StreamOf(s);
    var n, m := |s.procs|, PIPESIZE - s.st.Held();
    var s1 := s.(lock := Some(p), procs := s.procs[p := Proc(Writing(addr, 0), Hold)]);
    var s2 := StoresWhatFits(s1, p, addr);
    Then(s, [CallWrite(p, addr), By(p)], s1, [By(p)], s2);
    WakesAll(s2, p);
    var s3 := s2.(procs := Roused(s2.procs, p, n, WantPtable));
    Then(s, [CallWrite(p, addr), By(p)] + [By(p)], s2, Bys(p, n + 2), s3);
    s' := GoesToSleep(s3, p);
    Then(s, [CallWrite(p, addr), By(p)] + [By(p)] + Bys(p, n + 2), s3, Bys(p, 3), s');
    assert [CallWrite(p, addr), By(p)] + [By(p)] + Bys(p, n + 2) + Bys(p, 3) == [CallWrite(p, addr)] + Bys(p, n + 7);
    assert s'.procs == Roused(s.procs[p := Proc(Writing(addr, m), Hold)], p, n, Asleep(false));
  }

  lemma StoresWhatFits(s: State, p: nat, addr: seq<Byte>) returns (s': State)
    requires Valid(s) && p < |s.procs| == |s.killed| && s.procs[p] == Proc(Writing(addr, 0), Hold) && s.lock == Some(p)
    requires s.st.Held() + |addr| > PIPESIZE && s.readopen && !s.killed[p]
    ensures var m := PIPESIZE - s.st.Held();
      && 0 <= m < |addr| && Valid(s') && Leads(s, [By(p)], s')
      && s' == s.(st := s.st.(stored := s.st.stored + addr[..m]),
                  procs := s.procs[p := Proc(Writing(addr, m), WakeWant(true))])
  {
    hide Leads, Valid, WriteSection;
    StreamOf(s);
    var (st, out, woke) := WriteSection(s.st, addr, 0, s.readopen, s.killed[p]);
    assert |st.stored| - |s.st.stored| == PIPESIZE - s.st.Held();
    s' := Section(s, p);
    One(s, By(p), s');
  }

  /** And it is served by the next read that makes room for the rest. */
  lemma WriterIsServed(s: State, p: nat, addr: seq<Byte>, i: nat, q: nat, n: nat) returns (s': State, ls: seq<Label>)
    requires Valid(s) && p < |s.procs| && q < |s.procs| && s.lock.None? && s.ptable.Nobody?
    requires i <= |addr| && s.procs[p] == Proc(Writing(addr, i), Asleep(false)) && s.procs[q].pc.Out?
    requires s.st.Held() == PIPESIZE && |addr| - i <= n <= PIPESIZE
    ensures Valid(s') && Leads(s, ls, s')
    ensures |s'.procs| == |s.procs| && s'.procs[p].pc.Out? && s'.procs[q].pc.Out? && s'.lock.None? && s'.ptable.Nobody?
    ensures s'.st == Stream(s.st.stored + addr[i..], s.st.taken + n)
  {
    hide Leads, Valid;
    var s1 := ReadGoesThrough(s, q, n);
    var l1 := [CallRead(q, n)] + Bys(q, |s.procs| + 5);
    var s2 := ComesBack(s1, p);
    var l2 := [Run(p)] + Bys(p, 3);
    s' := WritesAll(s2, p, addr, i);
    Then(s, l1, s1, l2, s2);
    Then(s, l1 + l2, s2, Bys(p, |s.procs| + 4), s');
    ls := l1 + l2 + Bys(p, |s.procs| + 4);
  }

  lemma Tail(a: seq<Byte>, b: seq<Byte>, m: nat, k: nat)
    requires m <= |b| && k == |a|
    ensures (a + b)[k..k + m] == b[..m] && b[..|b|] == b
  {
  }

  /** pipeclose of one end: the end is closed, and whoever waits on the other end can run. */
  lemma CloseGoesThrough(s: State, p: nat, writable: bool) returns (s': State)
    requires Valid(s) && p < |s.procs| && s.procs[p].pc.Out? && s.lock.None? && s.ptable.Nobody?
    ensures Valid(s') && Leads(s, [CallClose(p, writable)] + Bys(p, |s.procs| + 5), s')
    ensures s' == s.(readopen := s.readopen && writable, writeopen := s.writeopen && !writable,
                     procs := Roused(s.procs[p := Proc(Closing(writable), Hold)], p, |s.procs|, Release)
                              [p := Proc(NoCall, Out)])
  {
    hide Leads, Valid;
    TakesLock(s, CallClose(p, writable), p, Closing(writable));
    var s1 := s.(lock := Some(p), procs := s.procs[p := Proc(Closing(writable), Hold)]);
    SectionIsValid(s1, p);
    Finishes(s1, p);
    s' := Done(s1, p);
    assert s'.procs == Roused(s1.procs, p, |s.procs|, Release)[p := Proc(NoCall, Out)];
    Then(s, [CallClose(p, writable), By(p)], s1, Bys(p, |s.procs| + 4), s');
    assert [CallClose(p, writable), By(p)] + Bys(p, |s.procs| + 4) == [CallClose(p, writable)] + Bys(p, |s.procs| + 5);
  }

  /** kill gets a sleeping reader out of an empty pipe: it is woken, run, and returns. */
  lemma KilledReaderLeaves(s: State, p: nat, n: nat) returns (s': State)
    requires Valid(s) && p < |s.procs| == |s.killed| && s.lock.None? && s.ptable.Nobody?
    requires s.procs[p] == Proc(Reading(n), Asleep(false)) && s.st.Held() == 0 && s.writeopen
    ensures Valid(s') && Leads(s, [Kill(p), Run(p)] + Bys(p, 5), s')
    ensures s' == s.(killed := s.killed[p := true], procs := s.procs[p := Proc(NoCall, Out)])
  {
    hide Leads, Valid;
    var s1 := s.(killed := s.killed[p := true], procs := s.procs[p := Proc(Reading(n), Asleep(true))]);
    One(s, Kill(p), s1);
    var s2 := ComesBack(s1, p);
    Then(s, [Kill(p)], s1, [Run(p)] + Bys(p, 3), s2);
    StreamOf(s2);
    var s3 := s2.(procs := s.procs[p := Proc(Reading(n), Release)]);
    assert Section(s2, p) == s3 by {
      assert s.received + [] == s.received;
    }
    Onward(s, [Kill(p)] + ([Run(p)] + Bys(p, 3)), s2, By(p), s3);
    s' := s.(killed := s.killed[p := true], procs := s.procs[p := Proc(NoCall, Out)]);
    Onward(s, [Kill(p)] + ([Run(p)] + Bys(p, 3)) + [By(p)], s3, By(p), s');
    assert [Kill(p)] + ([Run(p)] + Bys(p, 3)) + [By(p)] + [By(p)] == [Kill(p), Run(p)] + Bys(p, 5);
  }
}
