/** The stride scheduler of proc.c, with passes and strides as reals. */
module Stride {
  import opened Blocks

  const MAXPASS := 3000000000

  datatype Proc = Proc(isMLFQ: bool, runnable: bool, stride: real, pass: real)
  {
    predicate Eligible() { !isMLFQ && runnable }
    ghost predicate Valid() { pass >= 0.0 && stride >= 0.0 }
  }

  /** Process p comes first, among the first n, of those of the least truncated pass
      below MAXPASS. */
  ghost predicate IsMin(ps: seq<Proc>, n: nat, p: nat)
    requires n <= |ps|
  {
    && p < n && ps[p].Eligible() && ps[p].pass.Floor < MAXPASS
    && (forall q :: 0 <= q < n && ps[q].Eligible() ==> ps[p].pass.Floor <= ps[q].pass.Floor)
    && (forall q :: 0 <= q < p && ps[q].Eligible() ==> ps[p].pass.Floor < ps[q].pass.Floor)
  }

  ghost predicate NoneBelow(ps: seq<Proc>, n: nat)
    requires n <= |ps|
  {
    forall q :: 0 <= q < n && ps[q].Eligible() ==> ps[q].pass.Floor >= MAXPASS
  }

  /** What findMinPass answers: None leaves the turn to the MLFQ scheduler. */
  ghost predicate Picks(ps: seq<Proc>, mlfq: real, r: Option<nat>)
  {
    if r.Some? then IsMin(ps, |ps|, r.value) && ps[r.value].pass.Floor as real <= mlfq
    else NoneBelow(ps, |ps|) || exists p: nat :: IsMin(ps, |ps|, p) && mlfq < ps[p].pass.Floor as real
  }

  lemma OneMin(ps: seq<Proc>, p: nat, q: nat)
    requires IsMin(ps, |ps|, p) && IsMin(ps, |ps|, q)
    ensures p == q
  {
    assert ps[p].Eligible() && ps[q].Eligible();
  }

  /** The answer is determined by the table. */
  lemma PicksOne(ps: seq<Proc>, mlfq: real, r: Option<nat>, r': Option<nat>)
    requires Picks(ps, mlfq, r) && Picks(ps, mlfq, r')
    ensures r == r'
  {
    forall p: nat, q: nat | IsMin(ps, |ps|, p) && IsMin(ps, |ps|, q) ensures p == q {
      OneMin(ps, p, q);
    }
  }

  /** A runnable process outside of MLFQ has the turn, of the least pass among these; the turn
      is MLFQ's exactly if none of them is below MAXPASS and not above MLFQ's pass. */
  lemma WhoseTurn(ps: seq<Proc>, mlfq: real, r: Option<nat>)
    requires Picks(ps, mlfq, r)
    ensures r.Some? ==> r.value < |ps| && !ps[r.value].isMLFQ && ps[r.value].runnable && forall q ::
      0 <= q < |ps| && !ps[q].isMLFQ && ps[q].runnable ==> ps[r.value].pass.Floor <= ps[q].pass.Floor
    ensures r.None? <==> forall q :: 0 <= q < |ps| && !ps[q].isMLFQ && ps[q].runnable ==>
      ps[q].pass.Floor >= MAXPASS || mlfq < ps[q].pass.Floor as real
  {
    if r.None? && !NoneBelow(ps, |ps|) {
      var p: nat :| IsMin(ps, |ps|, p) && mlfq < ps[p].pass.Floor as real;
      forall q | 0 <= q < |ps| && !ps[q].isMLFQ && ps[q].runnable ensures mlfq < ps[q].pass.Floor as real {
        assert ps[q].Eligible();
      }
    }
  }

  lemma FloorBelow(x: real, m: int)
    ensures x < m as real <==> x.Floor < m
  {
  }

  /** findMinPass: the truncated pass of the best process so far bounds the search. */
  method FindMinPass(ps: seq<Proc>, mlfq: real) returns (r: Option<nat>)
    requires forall q :: 0 <= q < |ps| ==> ps[q].Valid()
    ensures Picks(ps, mlfq, r)
  {
    var max, min: Option<nat>, p: nat := MAXPASS, None, 0;
    while p < |ps|
      invariant p <= |ps|
      invariant min.None? ==> max == MAXPASS && NoneBelow(ps, p)
      invariant min.Some? ==> IsMin(ps, p, min.value) && max == ps[min.value].pass.Floor
    {
      FloorBelow(ps[p].pass, max);
      if ps[p].Eligible() && ps[p].pass < max as real {
        max := ps[p].pass.Floor;
        min := Some(p);
      }
      p := p + 1;
    }
    if mlfq < max as real {
      return None;
    }
    return min;
  }

  // ---- fairness ----

  /** The table after the choice: Stride_Scheduler adds the stride to the pass. */
  function After(ps: seq<Proc>, r: Option<nat>): seq<Proc>
  {
    if r.Some? && r.value < |ps| then ps[r.value := ps[r.value].(pass := ps[r.value].pass + ps[r.value].stride)] else ps
  }

  class Scheduler {
    var procs: seq<Proc>

    ghost predicate Valid()
      reads this
    {
      forall p :: 0 <= p < |procs| ==> procs[p].Valid()
    }

    /** One turn of scheduler, up to the context switch. */
    method Turn(mlfq: real) returns (r: Option<nat>)
      requires Valid()
      modifies this
      ensures Valid() && Picks(old(procs), mlfq, r) && procs == After(old(procs), r)
    {
      r := FindMinPass(procs, mlfq);
      if r.Some? {
        StrideScheduler(r.value);
      }
    }

    /** Stride_Scheduler's bookkeeping. */
    method StrideScheduler(p: nat)
      requires Valid() && p < |procs|
      modifies this
      ensures Valid() && procs == After(old(procs), Some(p))
    {
      procs := procs[p := procs[p].(pass := procs[p].pass + procs[p].stride)];
    }
  }

  /** Tables tt and choices rs of a run among processes that all follow the stride
      scheduler, stay runnable and start at one pass below MAXPASS. */
  ghost predicate IsRun(tt: seq<seq<Proc>>, rs: seq<Option<nat>>, mlfq: seq<real>)
  {
    && |tt| == |rs| + 1 && |mlfq| == |rs|
    && (forall p :: 0 <= p < |tt[0]| ==> tt[0][p].Eligible() && tt[0][p].Valid())
    && (forall p, q :: 0 <= p < |tt[0]| && 0 <= q < |tt[0]| ==> tt[0][p].pass == tt[0][q].pass)
    && forall i :: 0 <= i < |rs| ==> IsStep(tt[i], mlfq[i], rs[i], tt[i + 1])
  }

  ghost predicate IsStep(ps: seq<Proc>, mlfq: real, r: Option<nat>, ps': seq<Proc>)
  {
    Picks(ps, mlfq, r) && ps' == After(ps, r)
  }

  lemma StepOf(tt: seq<seq<Proc>>, rs: seq<Option<nat>>, mlfq: seq<real>, i: nat)
    requires IsRun(tt, rs, mlfq) && i < |rs|
    ensures IsStep(tt[i], mlfq[i], rs[i], tt[i + 1])
  {
  }

  /** How often p was chosen. */
  function Turns(rs: seq<Option<nat>>, p: nat): nat
  {
    if rs == [] then 0 else Turns(rs[..|rs| - 1], p) + if rs[|rs| - 1] == Some(p) then 1 else 0
  }

  /** No process is ahead of another by more than its own stride and the truncation. */
  ghost predicate Close(ps: seq<Proc>)
  {
    forall p, q :: 0 <= p < |ps| && 0 <= q < |ps| ==> ps[p].pass - ps[q].pass < ps[p].stride + 1.0
  }

  /** Whoever has the least truncated pass is at most one ahead of anyone. */
  lemma MinIsClose(ps: seq<Proc>, p: nat, q: nat)
    requires IsMin(ps, |ps|, p) && q < |ps| && ps[q].Eligible()
    ensures ps[p].pass - ps[q].pass < 1.0
  {
    assert ps[p].pass.Floor <= ps[q].pass.Floor;
  }

  lemma TurnKeepsClose(ps: seq<Proc>, mlfq: real, r: Option<nat>)
    requires Close(ps) && Picks(ps, mlfq, r) && forall p :: 0 <= p < |ps| ==> ps[p].Eligible() && ps[p].Valid()
    ensures Close(After(ps, r))
  {
    if r.Some? {
      var ps' := After(ps, r);
      forall p, q | 0 <= p < |ps'| && 0 <= q < |ps'| ensures ps'[p].pass - ps'[q].pass < ps'[p].stride + 1.0 {
        MinIsClose(ps, r.value, q);
        assert ps[p].pass - ps[q].pass < ps[p].stride + 1.0;
      }
    }
  }

  /** What n turns add to a pass. */
  ghost function Gained(n: nat, stride: real): real { n as real * stride }

  lemma OneTurnMore(n: nat, stride: real)
    ensures Gained(n + 1, stride) == Gained(n, stride) + stride && Gained(0, stride) == 0.0
  {
    assert (n + 1) as real == n as real + 1.0;
  }

  /** Every process is where its turns have brought it. */
  ghost predicate Tracked(ps0: seq<Proc>, ps: seq<Proc>, rs: seq<Option<nat>>)
  {
    |ps| == |ps0| && forall p :: 0 <= p < |ps| ==>
      && ps[p].Eligible() && ps[p].Valid() && ps[p].stride == ps0[p].stride
      && ps[p].pass == ps0[p].pass + Gained(Turns(rs, p), ps0[p].stride)
  }

  lemma TrackedOn(ps0: seq<Proc>, ps: seq<Proc>, rs: seq<Option<nat>>, r: Option<nat>)
    requires Tracked(ps0, ps, rs)
    ensures Tracked(ps0, After(ps, r), rs + [r])
  {
    hide Gained;
    var ps' := After(ps, r);
    forall p | 0 <= p < |ps'|
      ensures ps'[p].Eligible() && ps'[p].Valid() && ps'[p].stride == ps0[p].stride
      ensures ps'[p].pass == ps0[p].pass + Gained(Turns(rs + [r], p), ps0[p].stride)
    {
      assert (rs + [r])[..|rs|] == rs;
      OneTurnMore(Turns(rs, p), ps0[p].stride);
    }
  }

  lemma {:induction false} RunState(tt: seq<seq<Proc>>, rs: seq<Option<nat>>, mlfq: seq<real>, i: nat)
    requires IsRun(tt, rs, mlfq) && i <= |rs|
    ensures Close(tt[i]) && Tracked(tt[0], tt[i], rs[..i])
  {
    hide Picks;
    if i == 0 {
      forall p | 0 <= p < |tt[0]| ensures Gained(Turns([], p), tt[0][p].stride) == 0.0 {
        OneTurnMore(0, tt[0][p].stride);
      }
      assert rs[..0] == [];
    } else {
      RunState(tt, rs, mlfq, i - 1);
      hide IsRun;
      assert IsStep(tt[i - 1], mlfq[i - 1], rs[i - 1], tt[i]) by {
        StepOf(tt, rs, mlfq, i - 1);
      }
      TurnKeepsClose(tt[i - 1], mlfq[i - 1], rs[i - 1]);
      TrackedOn(tt[0], tt[i - 1], rs[..i - 1], rs[i - 1]);
      assert rs[..i] == rs[..i - 1] + [rs[i - 1]];
    }
  }

  /** Fairness: after any number of choices, whatever the MLFQ scheduler's share, the
      turns of two processes weighed with their strides differ by less than the
      larger stride plus one. */
  lemma Fair(tt: seq<seq<Proc>>, rs: seq<Option<nat>>, mlfq: seq<real>, p: nat, q: nat)
    requires IsRun(tt, rs, mlfq) && p < |tt[0]| && q < |tt[0]|
    ensures var gap := Gained(Turns(rs, p), tt[0][p].stride) - Gained(Turns(rs, q), tt[0][q].stride);
      -tt[0][q].stride - 1.0 < gap < tt[0][p].stride + 1.0
  {
    hide Gained;
    var n := |rs|;
    assert tt[0][p].pass == tt[0][q].pass;
    RunState(tt, rs, mlfq, n);
    hide IsRun;
    assert rs[..n] == rs;
    assert tt[n][p].pass - tt[n][q].pass < tt[n][p].stride + 1.0;
    assert tt[n][q].pass - tt[n][p].pass < tt[n][q].stride + 1.0;
  }
}
