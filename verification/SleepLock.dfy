/** sleeplock.c over sleep and wakeup of proc.c, as a state machine: any number of
    processes, one step per statement that touches shared state. */
module SleepLock {
  import opened Blocks

  /** What a process does next. */
  datatype Pc =
    | Out          // not using the lock
    | WantSpin     // acquiresleep, sleep: acquire lk->lk
    | Test         // while(lk->locked)
    | WantPtable   // sleep: acquire ptable.lock
    | DropSpin     // sleep: release lk->lk
    | GoToSleep    // sleep: p->state = SLEEPING, sched
    | Asleep(runnable: bool)
    | Woken        // sched returned, ptable.lock held: p->chan = 0
    | DropPtable   // sleep: release ptable.lock, then WantSpin
    | Take         // lk->locked = 1, lk->pid = pid
    | TakeDone     // release lk->lk
    | In           // holds the sleep lock
    | WantSpinBack // releasesleep: acquire lk->lk
    | Clear        // lk->locked = 0, lk->pid = 0
    | WakeWant     // wakeup: acquire ptable.lock
    | Waking(j: nat) // wakeup1, about to look at process j, or to release ptable.lock
    | ClearDone    // release lk->lk

  /** Who has ptable.lock: `Other` is the scheduler, or code that does not concern lk. */
  datatype Ptable = Nobody | Other | Proc(p: nat)

  datatype State = State(spin: Option<nat>, ptable: Ptable, locked: bool, pid: Option<nat>, pcs: seq<Pc>)

  datatype Step =
    | By(p: nat)       // process p takes its next step
    | Run(p: nat)      // the scheduler runs p
    | Kill(p: nat)     // kill wakes p, whatever it sleeps for
    | TakePtable | GivePtable // by anyone else

  predicate HasSpin(c: Pc) {
    || c.Test? || c.WantPtable? || c.DropSpin? || c.Take? || c.TakeDone?
    || c.Clear? || c.WakeWant? || c.Waking? || c.ClearDone?
  }

  predicate HasPtable(c: Pc) { c.DropSpin? || c.GoToSleep? || c.Woken? || c.DropPtable? || c.Waking? }
  predicate HasLock(c: Pc) { c.TakeDone? || c.In? || c.WantSpinBack? || c.Clear? }

  function At(s: State, p: nat, c: Pc): State
    requires p < |s.pcs|
  {
    s.(pcs := s.pcs[p := c])
  }

  /** Process p can take its next step. */
  predicate Ready(s: State, p: nat)
    requires p < |s.pcs|
  {
    match s.pcs[p]
    case WantSpin => s.spin.None?
    case WantSpinBack => s.spin.None?
    case WantPtable => s.ptable.Nobody?
    case WakeWant => s.ptable.Nobody?
    case Asleep(_) => false
    case _ => true
  }

  function Do(s: State, p: nat): State
    requires p < |s.pcs| && Ready(s, p)
  {
    match s.pcs[p]
    case Out => At(s, p, WantSpin)
    case WantSpin => At(s, p, Test).(spin := Some(p))
    case Test => At(s, p, if s.locked then WantPtable else Take)
    case WantPtable => At(s, p, DropSpin).(ptable := Proc(p))
    case DropSpin => At(s, p, GoToSleep).(spin := None)
    case GoToSleep => At(s, p, Asleep(false)).(ptable := Other)
    case Asleep(_) => s
    case Woken => At(s, p, DropPtable)
    case DropPtable => At(s, p, WantSpin).(ptable := Nobody)
    case Take => At(s, p, TakeDone).(locked := true, pid := Some(p))
    case TakeDone => At(s, p, In).(spin := None)
    case In => At(s, p, WantSpinBack)
    case WantSpinBack => At(s, p, Clear).(spin := Some(p))
    case Clear => At(s, p, WakeWant).(locked := false, pid := None)
    case WakeWant => At(s, p, Waking(0)).(ptable := Proc(p))
    case Waking(j) =>
      if j < |s.pcs| then At(if s.pcs[j] == Asleep(false) then At(s, j, Asleep(true)) else s, p, Waking(j + 1))
      else At(s, p, ClearDone).(ptable := Nobody)
    case ClearDone => At(s, p, Out).(spin := None)
  }

  ghost predicate Next(s: State, l: Step, s': State)
  {
    match l
    case By(p) => p < |s.pcs| && Ready(s, p) && s' == Do(s, p)
    case Run(p) =>
      p < |s.pcs| && s.pcs[p] == Asleep(true) && s.ptable.Nobody? && s' == At(s, p, Woken).(ptable := Proc(p))
    case Kill(p) => p < |s.pcs| && s.pcs[p] == Asleep(false) && s.ptable.Nobody? && s' == At(s, p, Asleep(true))
    case TakePtable => s.ptable.Nobody? && s' == s.(ptable := Other)
    case GivePtable => s.ptable.Other? && s' == s.(ptable := Nobody)
  }

  ghost predicate Init(s: State)
  {
    s.spin.None? && s.ptable.Nobody? && !s.locked && s.pid.None? && forall p :: 0 <= p < |s.pcs| ==> s.pcs[p] == Out
  }

  /** From ss[0] on, these steps are taken. */
  ghost predicate Path(ss: seq<State>, ls: seq<Step>)
  {
    |ss| == |ls| + 1 && forall i :: 0 <= i < |ls| ==> Next(ss[i], ls[i], ss[i + 1])
  }

  ghost predicate IsRun(ss: seq<State>, ls: seq<Step>) { Path(ss, ls) && Init(ss[0]) }

  // ---- the invariant ----

  /** A releasesleep is under way that has yet to look at process p. */
  ghost predicate WillWake(s: State, p: nat)
  {
    && s.spin.Some? && s.spin.value < |s.pcs|
    && var c := s.pcs[s.spin.value];
    c.WakeWant? || (c.Waking? && c.j <= p)
  }

  ghost predicate Fits(s: State, p: nat)
    requires p < |s.pcs|
  {
    var c := s.pcs[p];
    && (HasSpin(c) <==> s.spin == Some(p))
    && (HasPtable(c) <==> s.ptable == Proc(p))
    && (HasLock(c) <==> s.pid == Some(p))
    && (c.Take? ==> !s.locked)
    && (c.WantPtable? || c.DropSpin? ==> s.locked)
    && (c.GoToSleep? || c == Asleep(false) ==> s.locked || WillWake(s, p))
    && (c.Waking? ==> c.j <= |s.pcs|)
  }

  ghost predicate Inv(s: State)
  {
    && (s.locked <==> s.pid.Some?)
    && (s.spin.Some? ==> s.spin.value < |s.pcs|) && (s.pid.Some? ==> s.pid.value < |s.pcs|)
    && (s.ptable.Proc? ==> s.ptable.p < |s.pcs|)
    && forall p :: 0 <= p < |s.pcs| ==> Fits(s, p)
  }

  /** The next step of process p as process q sees it, by what it touches. */
  lemma LocalStep(s: State, p: nat, q: nat)
    requires p < |s.pcs| && q < |s.pcs| && Ready(s, p) && Fits(s, p) && Fits(s, q)
    requires s.pcs[p].Out? || s.pcs[p].Test? || s.pcs[p].Woken? || s.pcs[p].In?
    ensures Fits(Do(s, p), q)
  {
  }

  lemma SpinStep(s: State, p: nat, q: nat)
    requires p < |s.pcs| && q < |s.pcs| && Ready(s, p) && Fits(s, p) && Fits(s, q)
    requires var c := s.pcs[p]; c.WantSpin? || c.WantSpinBack? || c.DropSpin? || c.TakeDone? || c.ClearDone?
    ensures Fits(Do(s, p), q)
  {
  }

  lemma PtableStep(s: State, p: nat, q: nat)
    requires p < |s.pcs| && q < |s.pcs| && Ready(s, p) && Fits(s, p) && Fits(s, q)
    requires s.pcs[p].WantPtable? || s.pcs[p].GoToSleep? || s.pcs[p].DropPtable? || s.pcs[p].WakeWant?
    ensures Fits(Do(s, p), q)
  {
  }

  lemma LockStep(s: State, p: nat, q: nat)
    requires Inv(s) && p < |s.pcs| && q < |s.pcs| && Fits(s, p) && Fits(s, q) && (s.pcs[p].Take? || s.pcs[p].Clear?)
    ensures Fits(Do(s, p), q)
  {
    hide Inv;
    assert s.pcs[p].Take? ==> s.pid.None? by {
      NotHeld(s);
    }
  }

  lemma NotHeld(s: State)
    requires Inv(s)
    ensures !s.locked ==> s.pid.None?
  {
  }

  lemma WakeStep(s: State, p: nat, q: nat)
    requires p < |s.pcs| && q < |s.pcs| && Fits(s, p) && Fits(s, q) && s.pcs[p].Waking?
    ensures Fits(Do(s, p), q)
  {
  }

  /** Every step of every process keeps the invariant. */
  lemma StepKeeps(s: State, l: Step, s': State)
    requires Inv(s) && Next(s, l, s')
    ensures Inv(s')
  {
    if l.By? {
      ByKeeps(s, l.p);
    } else {
      forall q | 0 <= q < |s'.pcs| ensures Fits(s', q) {
        assert Fits(s, q);
        if l.Run? || l.Kill? {
          assert Fits(s, l.p);
        }
      }
    }
  }

  lemma ByKeeps(s: State, p: nat)
    requires Inv(s) && p < |s.pcs| && Ready(s, p)
    ensures Inv(Do(s, p))
  {
    var s' := Do(s, p);
    assert Fits(s, p);
    hide Fits, Do;
    forall q: nat | q < |s.pcs| ensures Fits(s', q) {
      match s.pcs[p]
      case Out => LocalStep(s, p, q);
      case Test => LocalStep(s, p, q);
      case Woken => LocalStep(s, p, q);
      case In => LocalStep(s, p, q);
      case Take => LockStep(s, p, q);
      case Clear => LockStep(s, p, q);
      case Waking(_) => WakeStep(s, p, q);
      case WantPtable => PtableStep(s, p, q);
      case GoToSleep => PtableStep(s, p, q);
      case DropPtable => PtableStep(s, p, q);
      case WakeWant => PtableStep(s, p, q);
      case WantSpin => SpinStep(s, p, q);
      case WantSpinBack => SpinStep(s, p, q);
      case DropSpin => SpinStep(s, p, q);
      case TakeDone => SpinStep(s, p, q);
      case ClearDone => SpinStep(s, p, q);
      case Asleep(_) =>
    }
    DoShape(s, p);
  }

  lemma DoShape(s: State, p: nat)
    requires Inv(s) && p < |s.pcs| && Ready(s, p)
    ensures var s' := Do(s, p);
      && |s'.pcs| == |s.pcs| && (s'.locked <==> s'.pid.Some?)
      && (s'.spin.Some? ==> s'.spin.value < |s.pcs|) && (s'.pid.Some? ==> s'.pid.value < |s.pcs|)
      && (s'.ptable.Proc? ==> s'.ptable.p < |s.pcs|)
  {
  }

  lemma {:induction false} RunKeeps(ss: seq<State>, ls: seq<Step>, i: nat)
    requires IsRun(ss, ls) && i <= |ls|
    ensures Inv(ss[i])
  {
    if i > 0 {
      RunKeeps(ss, ls, i - 1);
      StepKeeps(ss[i - 1], ls[i - 1], ss[i]);
    }
  }

  /** At most one process holds the lock, and it is the one whose pid the lock has. */
  lemma MutualExclusion(ss: seq<State>, ls: seq<Step>, i: nat, p: nat, q: nat)
    requires IsRun(ss, ls) && i <= |ls| && p < |ss[i].pcs| && q < |ss[i].pcs| && ss[i].pcs[p].In? && ss[i].pcs[q].In?
    ensures p == q && ss[i].locked && ss[i].pid == Some(p)
  {
    RunKeeps(ss, ls, i);
    assert Fits(ss[i], p) && Fits(ss[i], q);
  }

  /** No wakeup is lost: when the spin lock is free and the sleep lock is not held, no
      process sleeps on it. */
  lemma NoLostWakeup(ss: seq<State>, ls: seq<Step>, i: nat, p: nat)
    requires IsRun(ss, ls) && i <= |ls| && p < |ss[i].pcs| && ss[i].spin.None? && !ss[i].locked
    ensures ss[i].pcs[p] != Asleep(false)
  {
    RunKeeps(ss, ls, i);
    assert Fits(ss[i], p);
  }

  // ---- the calls go through ----

  function Times(n: nat, l: Step): (ls: seq<Step>)
    ensures |ls| == n && forall i :: 0 <= i < n ==> ls[i] == l
  {
    seq(n, _ => l)
  }

  lemma Extend(ss: seq<State>, ls: seq<Step>, l: Step, s': State)
    requires Path(ss, ls) && Next(ss[|ls|], l, s')
    ensures Path(ss + [s'], ls + [l])
  {
    hide Next;
    forall i | 0 <= i < |ls + [l]| ensures Next((ss + [s'])[i], (ls + [l])[i], (ss + [s'])[i + 1]) {
      assert i < |ls| ==> (ls + [l])[i] == ls[i];
    }
  }

  lemma Join(ss: seq<State>, ls: seq<Step>, ss': seq<State>, ls': seq<Step>)
    requires Path(ss, ls) && Path(ss', ls') && ss[|ls|] == ss'[0]
    ensures Path(ss + ss'[1..], ls + ls') && (ss + ss'[1..])[|ls + ls'|] == ss'[|ls'|]
  {
    hide Next;
    var zs, ks := ss + ss'[1..], ls + ls';
    forall i | 0 <= i < |ks| ensures Next(zs[i], ks[i], zs[i + 1]) {
      assert i < |ls| ==> ks[i] == ls[i] && zs[i] == ss[i] && zs[i + 1] == ss[i + 1];
      assert i >= |ls| ==> ks[i] == ls'[i - |ls|] && zs[i] == ss'[i - |ls|] && zs[i + 1] == ss'[i - |ls| + 1];
    }
  }

  /** acquiresleep of a lock that no one holds: five steps, and the caller has it. */
  lemma Acquires(s: State, p: nat) returns (ss: seq<State>)
    requires p < |s.pcs| && s.pcs[p].Out? && s.spin.None? && !s.locked
    ensures Path(ss, Times(5, By(p))) && ss[0] == s
    ensures ss[5] == s.(locked := true, pid := Some(p), pcs := s.pcs[p := In])
  {
    var s1, s2 := At(s, p, WantSpin), At(s, p, Test).(spin := Some(p));
    var s3 := At(s, p, Take).(spin := Some(p));
    var s4 := At(s, p, TakeDone).(spin := Some(p), locked := true, pid := Some(p));
    ss := [s, s1, s2, s3, s4, At(s, p, In).(locked := true, pid := Some(p))];
  }

  /** Of a lock that is held: six steps, and the caller sleeps, with the spin lock free. */
  lemma FallsAsleep(s: State, p: nat) returns (ss: seq<State>)
    requires p < |s.pcs| && s.pcs[p].Out? && s.spin.None? && s.locked && s.ptable.Nobody?
    ensures Path(ss, Times(6, By(p))) && ss[0] == s
    ensures ss[6] == s.(ptable := Other, pcs := s.pcs[p := Asleep(false)])
  {
    var s1 := At(s, p, WantSpin);
    assert Path([s, s1], Times(1, By(p)));
    hide Path;
    var tail := FindsItHeld(s1, p);
    PathLength(tail, Times(5, By(p)));
    Join([s, s1], Times(1, By(p)), tail, Times(5, By(p)));
    ss := [s, s1] + tail[1..];
    assert Times(1, By(p)) + Times(5, By(p)) == Times(6, By(p));
  }

  lemma FindsItHeld(s: State, p: nat) returns (ss: seq<State>)
    requires p < |s.pcs| && s.pcs[p].WantSpin? && s.spin.None? && s.locked && s.ptable.Nobody?
    ensures Path(ss, Times(5, By(p))) && ss[0] == s
    ensures ss[5] == s.(ptable := Other, pcs := s.pcs[p := Asleep(false)])
  {
    var s2, s3 := At(s, p, Test).(spin := Some(p)), At(s, p, WantPtable).(spin := Some(p));
    var s4 := At(s, p, DropSpin).(spin := Some(p), ptable := Proc(p));
    var s5 := At(s, p, GoToSleep).(ptable := Proc(p));
    ss := [s, s2, s3, s4, s5, At(s, p, Asleep(false)).(ptable := Other)];
  }

  /** The processes once a wakeup by p has looked at the first j of them. */
  function Roused(pcs: seq<Pc>, p: nat, j: nat, c: Pc): (r: seq<Pc>)
    ensures |r| == |pcs| && forall k :: 0 <= k < |pcs| ==>
      r[k] == if k == p then c else if k < j && pcs[k] == Asleep(false) then Asleep(true) else pcs[k]
  {
    seq(|pcs|, k requires 0 <= k < |pcs| =>
      if k == p then c else if k < j && pcs[k] == Asleep(false) then Asleep(true) else pcs[k])
  }

  /** releasesleep: the lock is free, every process that slept on it can run, and the caller
      is done. */
  lemma Releases(s: State, p: nat) returns (ss: seq<State>)
    requires p < |s.pcs| && s.pcs[p].In? && s.spin.None? && s.ptable.Nobody?
    ensures Path(ss, Times(|s.pcs| + 6, By(p))) && ss[0] == s
    ensures ss[|s.pcs| + 6] == s.(locked := false, pid := None, pcs := Roused(s.pcs, p, |s.pcs|, Out))
  {
    hide Path;
    var n := |s.pcs|;
    ss := WakesAll(s, p);
    var done, out := ss[5 + n], s.(locked := false, pid := None, pcs := Roused(s.pcs, p, n, Out));
    assert Do(done, p).pcs == out.pcs;
    OneMore(ss, p, 5 + n, out);
    ss := ss + [out];
  }

  /** releasesleep up to its wakeup. */
  lemma ClearsLock(s: State, p: nat) returns (ss: seq<State>)
    requires p < |s.pcs| && s.pcs[p].In? && s.spin.None? && s.ptable.Nobody?
    ensures |ss| == 5 && Path(ss, Times(4, By(p))) && ss[0] == s
    ensures ss[4] == State(Some(p), Proc(p), false, None, Roused(s.pcs, p, 0, Waking(0)))
  {
    var back := s.(locked := false, pid := None, spin := Some(p));
    ss := [s, At(s, p, WantSpinBack), At(s, p, Clear).(spin := Some(p)), At(back, p, WakeWant),
           back.(ptable := Proc(p), pcs := Roused(s.pcs, p, 0, Waking(0)))];
    assert ss[4].pcs == s.pcs[p := Waking(0)];
  }

  /** And to the end of the wakeup. */
  lemma WakesAll(s: State, p: nat) returns (ss: seq<State>)
    requires p < |s.pcs| && s.pcs[p].In? && s.spin.None? && s.ptable.Nobody?
    ensures var n := |s.pcs|;
      && |ss| == n + 6 && Path(ss, Times(n + 5, By(p))) && ss[0] == s
      && ss[n + 5] == State(Some(p), Nobody, false, None, Roused(s.pcs, p, n, ClearDone))
  {
    hide Path;
    var n, j := |s.pcs|, 0;
    ss := ClearsLock(s, p);
    while j < n
      invariant 0 <= j <= n && |ss| == 5 + j && ss[0] == s && Path(ss, Times(4 + j, By(p)))
      invariant ss[4 + j] == State(Some(p), Proc(p), false, None, Roused(s.pcs, p, j, Waking(j)))
    {
      var s' := State(Some(p), Proc(p), false, None, Roused(s.pcs, p, j + 1, Waking(j + 1)));
      assert Do(ss[4 + j], p).pcs == s'.pcs;
      OneMore(ss, p, 4 + j, s');
      ss, j := ss + [s'], j + 1;
    }
    var done := State(Some(p), Nobody, false, None, Roused(s.pcs, p, n, ClearDone));
    assert Do(ss[4 + n], p).pcs == done.pcs;
    OneMore(ss, p, 4 + n, done);
    ss := ss + [done];
  }

  lemma OneMore(ss: seq<State>, p: nat, n: nat, s': State)
    requires |ss| == n + 1 && Path(ss, Times(n, By(p))) && Next(ss[n], By(p), s')
    ensures Path(ss + [s'], Times(n + 1, By(p)))
  {
    hide Next;
    Extend(ss, Times(n, By(p)), By(p), s');
    assert Times(n, By(p)) + [By(p)] == Times(n + 1, By(p));
  }

  /** A sleeper that is woken and run finds the lock free and takes it. */
  lemma WakesAndTakes(s: State, q: nat) returns (ss: seq<State>)
    requires q < |s.pcs| && s.pcs[q] == Asleep(true) && s.spin.None? && s.ptable.Nobody? && !s.locked
    ensures Path(ss, [Run(q)] + Times(6, By(q))) && ss[0] == s
    ensures ss[7] == s.(locked := true, pid := Some(q), pcs := s.pcs[q := In])
  {
    var s1, s2, s3 := At(s, q, Woken).(ptable := Proc(q)), At(s, q, DropPtable).(ptable := Proc(q)), At(s, q, WantSpin);
    var s4, s5 := At(s, q, Test).(spin := Some(q)), At(s, q, Take).(spin := Some(q));
    var s6 := At(s, q, TakeDone).(spin := Some(q), locked := true, pid := Some(q));
    ss := [s, s1, s2, s3, s4, s5, s6, At(s, q, In).(locked := true, pid := Some(q))];
  }

  /** kill wakes a sleeper, but does not get it the lock: it finds the lock held and sleeps on. */
  lemma KilledSleepsOn(s: State, q: nat) returns (ss: seq<State>)
    requires q < |s.pcs| && s.pcs[q] == Asleep(false) && s.spin.None? && s.ptable.Nobody? && s.locked
    ensures Path(ss, [Kill(q), Run(q)] + Times(7, By(q))) && ss[0] == s && ss[9] == s.(ptable := Other)
  {
    var s1, s2 := At(s, q, Asleep(true)), At(s, q, Woken).(ptable := Proc(q));
    var s3, s4 := At(s, q, DropPtable).(ptable := Proc(q)), At(s, q, WantSpin);
    var head, ls := [s, s1, s2, s3, s4], [Kill(q), Run(q)] + Times(2, By(q));
    assert Path(head, ls);
    hide Path;
    var tail := FindsItHeld(s4, q);
    PathLength(tail, Times(5, By(q)));
    Join(head, ls, tail, Times(5, By(q)));
    ss := head + tail[1..];
    assert ls + Times(5, By(q)) == [Kill(q), Run(q)] + Times(7, By(q));
    assert s4.pcs[q := Asleep(false)] == s.pcs;
  }

  /** The lock goes from its holder to a sleeper: a run in which no one else moves. */
  lemma Handover(s: State, p: nat, q: nat) returns (ss: seq<State>, ls: seq<Step>)
    requires p < |s.pcs| && q < |s.pcs| && s.pcs[p].In? && s.pcs[q] == Asleep(false)
    requires s.spin.None? && s.ptable.Nobody?
    ensures Path(ss, ls) && ss[0] == s
    ensures var s' := ss[|ls|];
      && |s'.pcs| == |s.pcs| && s'.pcs[p].Out? && s'.pcs[q].In? && s'.pid == Some(q) && s'.locked
      && s'.spin.None? && s'.ptable.Nobody?
  {
    hide Path;
    var a := Releases(s, p);
    PathLength(a, Times(|s.pcs| + 6, By(p)));
    var b := WakesAndTakes(a[|s.pcs| + 6], q);
    PathLength(b, [Run(q)] + Times(6, By(q)));
    Join(a, Times(|s.pcs| + 6, By(p)), b, [Run(q)] + Times(6, By(q)));
    ss, ls := a + b[1..], Times(|s.pcs| + 6, By(p)) + ([Run(q)] + Times(6, By(q)));
  }

  /** So from boot on the lock goes from hand to hand: p takes it, q sleeps on it, p lets it go
      and q takes it. */
  lemma HandToHand(s: State, p: nat, q: nat) returns (ss: seq<State>, ls: seq<Step>, j: nat, k: nat)
    requires Init(s) && p < |s.pcs| && q < |s.pcs| && p != q
    ensures IsRun(ss, ls) && ss[0] == s && j <= k <= |ls|
    ensures |ss[j].pcs| == |ss[k].pcs| == |ss[|ls|].pcs| == |s.pcs|
    ensures ss[j].pcs[p].In? && ss[j].pcs[q].Out?
    ensures ss[k].pcs[p].In? && ss[k].pcs[q] == Asleep(false)
    ensures ss[|ls|].pcs[p].Out? && ss[|ls|].pcs[q].In?
  {
    hide Path;
    var a := Acquires(s, p);
    PathLength(a, Times(5, By(p)));
    var b := FallsAsleep(a[5], q);
    PathLength(b, Times(6, By(q)));
    Join(a, Times(5, By(p)), b, Times(6, By(q)));
    ss, ls, j := a + b[1..], Times(5, By(p)) + Times(6, By(q)), 5;
    var s1 := ss[11].(ptable := Nobody);
    Extend(ss, ls, GivePtable, s1);
    ss, ls, k := ss + [s1], ls + [GivePtable], 12;
    var c, cl := Handover(s1, p, q);
    PathLength(c, cl);
    Join(ss, ls, c, cl);
    ss, ls := ss + c[1..], ls + cl;
  }

  lemma PathLength(ss: seq<State>, ls: seq<Step>)
    requires Path(ss, ls)
    ensures |ss| == |ls| + 1
  {
  }

  /** Who has the lock keeps it until its own releasesleep, which only a holder in its critical
      section begins; and the lock is taken only by who found it free. */
  lemma LockIsKept(s: State, l: Step, s': State, p: nat)
    requires Inv(s) && Next(s, l, s') && p < |s.pcs|
    ensures |s'.pcs| == |s.pcs|
    ensures s.pid == Some(p) ==> s'.pid == Some(p) || (l == By(p) && s.pcs[p].Clear?)
    ensures s'.pid == Some(p) && s.pid != Some(p) ==> l == By(p) && s.pcs[p].Take? && s.pid.None?
    ensures s'.pcs[p].WantSpinBack? && !s.pcs[p].WantSpinBack? ==> l == By(p) && s.pcs[p].In?
    ensures s'.pcs[p].Clear? && !s.pcs[p].Clear? ==> l == By(p) && s.pcs[p].WantSpinBack?
    ensures s'.pcs[p].In? && !s.pcs[p].In? ==> l == By(p) && s.pcs[p].TakeDone?
  {
    assert Fits(s, p);
    if l.By? {
      assert Fits(s, l.p);
    }
  }

  /** Some process can go on, or the scheduler can run one, or whoever has ptable.lock
      for another reason can give it back. */
  ghost predicate CanMove(s: State)
  {
    || (exists p :: 0 <= p < |s.pcs| && !s.pcs[p].Out? && !s.pcs[p].In? && Ready(s, p))
    || (exists p :: 0 <= p < |s.pcs| && s.pcs[p] == Asleep(true) && s.ptable.Nobody?)
    || s.ptable.Other?
  }

  /** No deadlock: a process that wants the lock, or is giving it up, waits only while
      some process is in its critical section. */
  lemma NoDeadlock(ss: seq<State>, ls: seq<Step>, i: nat, p: nat)
    requires IsRun(ss, ls) && i <= |ls| && p < |ss[i].pcs| && !ss[i].pcs[p].Out? && !ss[i].pcs[p].In?
    ensures CanMove(ss[i]) || (ss[i].pid.Some? && ss[i].pid.value < |ss[i].pcs| && ss[i].pcs[ss[i].pid.value].In?)
  {
    var s := ss[i];
    RunKeeps(ss, ls, i);
    assert Fits(s, p);
    if s.ptable.Proc? {
      assert Fits(s, s.ptable.p) && Ready(s, s.ptable.p);
    } else if s.spin.Some? && s.ptable.Nobody? {
      assert Fits(s, s.spin.value) && Ready(s, s.spin.value);
    } else if s.ptable.Nobody? {
      if s.pcs[p] == Asleep(false) {
        assert Fits(s, s.pid.value);
        assert s.pcs[s.pid.value].In? || Ready(s, s.pid.value);
      } else if s.pcs[p] != Asleep(true) {
        assert Ready(s, p);
      }
    }
  }
}
