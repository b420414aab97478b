/** pipe.c: a 512-byte ring under 32-bit counters, and who sleeps on it. */
module Pipe {
  import opened Blocks

  const PIPESIZE := 512

  /** All bytes ever stored, and how many of them have been read. */
  datatype Stream = Stream(stored: seq<Byte>, taken: nat)
  {
    ghost predicate Valid() { taken <= |stored| <= taken + PIPESIZE }
    function Held(): int { |stored| - taken }
  }

  /** How a call leaves its critical section: with a result, or asleep with i bytes done. */
  datatype Outcome = Returns(v: int) | Sleeps(i: nat)

  function Min(a: int, b: int): int { if a < b then a else b }

  /** pipewrite of addr from byte i on, until it returns or sleeps; the last part says
      whether it has woken the readers. */
  function WriteSection(st: Stream, addr: seq<Byte>, i: nat, readopen: bool, killed: bool): (r: (Stream, Outcome, bool))
    requires st.Valid() && i <= |addr|
    ensures r.0.Valid() && r.0.taken == st.taken && st.stored <= r.0.stored
    ensures var n := |r.0.stored| - |st.stored|;
      && n <= |addr| - i && r.0.stored == st.stored + addr[i..i + n]
      && (r.1 == Returns(|addr|) <==> i + n == |addr|)
      && (r.1 == Returns(-1) <==> i + n < |addr| && (!readopen || killed))
      && (r.1 == Sleeps(i + n) <==> i + n < |addr| && readopen && !killed)
      && (i + n < |addr| ==> r.0.Held() == PIPESIZE)
    ensures r.2 <==> r.1 != Returns(-1)
  {
    var j := Min(|addr|, i + PIPESIZE - st.Held());
    var st' := st.(stored := st.stored + addr[i..j]);
    if j == |addr| then (st', Returns(|addr|), true)
    else if !readopen || killed then (st', Returns(-1), false)
    else (st', Sleeps(j), true)
  }

  /** piperead of n bytes, until it returns or sleeps: also the bytes copied out, and
      whether it has woken the writers. */
  function ReadSection(st: Stream, n: nat, writeopen: bool, killed: bool): (r: (Stream, Outcome, seq<Byte>, bool))
    requires st.Valid()
    ensures r.0.Valid() && r.0.stored == st.stored && st.taken <= r.0.taken && r.2 == st.stored[st.taken..r.0.taken]
    ensures st.Held() == 0 && writeopen ==> r.2 == [] && !r.3
    ensures st.Held() == 0 && writeopen ==> (r.1 == Returns(-1) <==> killed) && (r.1 == Sleeps(0) <==> !killed)
    ensures st.Held() > 0 || !writeopen ==>
      r.1 == Returns(|r.2|) && r.3 && |r.2| <= n && (|r.2| < n ==> r.0.Held() == 0)
  {
    if st.Held() == 0 && writeopen then (st, if killed then Returns(-1) else Sleeps(0), [], false)
    else
      var m := Min(n, st.Held());
      (st.(taken := st.taken + m), Returns(m), st.stored[st.taken..st.taken + m], true)
  }

  /** The counters tell a full and an empty ring apart, also once they have wrapped. */
  lemma CountersTell(st: Stream)
    requires st.Valid()
    ensures (st.taken % 0x1_0000_0000 + PIPESIZE) % 0x1_0000_0000 == |st.stored| % 0x1_0000_0000 <==>
      st.Held() == PIPESIZE
    ensures st.taken % 0x1_0000_0000 == |st.stored| % 0x1_0000_0000 <==> st.Held() == 0
  {
    var m := 0x1_0000_0000;
    var q, r, h := st.taken / m, st.taken % m, st.Held();
    assert |st.stored| == q * m + r + h;
    if r + h >= m {
      ModOf(|st.stored|, q + 1, r + h - m);
    } else {
      ModOf(|st.stored|, q, r + h);
    }
  }

  lemma ModOf(x: nat, q: nat, r: nat)
    requires x == q * 0x1_0000_0000 + r && r < 0x1_0000_0000
    ensures x % 0x1_0000_0000 == r
  {
  }

  lemma RingIndex(k: nat)
    ensures k % 0x1_0000_0000 % PIPESIZE == k % PIPESIZE
  {
    var q := k / 0x1_0000_0000;
    assert k == PIPESIZE * (0x80_0000 * q) + k % 0x1_0000_0000;
    SameMod(0x80_0000 * q, k % 0x1_0000_0000);
  }

  lemma SameMod(a: nat, b: nat)
    ensures (512 * a + b) % 512 == b % 512
  {
    var q, r := b / 512, b % 512;
    assert 512 * a + b == 512 * (a + q) + r;
  }

  /** Positions of the ring less than its size apart have slots of their own. */
  lemma SlotsApart(j: nat, k: nat)
    requires j < k < j + PIPESIZE
    ensures j % PIPESIZE != k % PIPESIZE
  {
    assert j == 512 * (j / 512) + j % 512 && k == 512 * (k / 512) + k % 512;
  }

  class Ring {
    const data: array<Byte>
    var nread: Word
    var nwrite: Word
    ghost var st: Stream

    ghost predicate Valid()
      reads this, data
    {
      && data.Length == PIPESIZE && st.Valid()
      && nread == st.taken % 0x1_0000_0000 && nwrite == |st.stored| % 0x1_0000_0000
      && forall k :: st.taken <= k < |st.stored| ==> data[k % PIPESIZE] == st.stored[k]
    }

    constructor ()
      ensures Valid() && fresh(data) && st == Stream([], 0)
    {
      data, nread, nwrite, st := new Byte[PIPESIZE], 0, 0, Stream([], 0);
    }

    /** `p->data[p->nwrite++ % PIPESIZE] = b`, where the ring is not full. */
    method Store(b: Byte)
      requires Valid() && st.Held() < PIPESIZE
      modifies this, data
      ensures Valid() && st == old(st).(stored := old(st).stored + [b])
    {
      RingIndex(|st.stored|);
      forall k | st.taken <= k < |st.stored| ensures k % PIPESIZE != |st.stored| % PIPESIZE {
        SlotsApart(k, |st.stored|);
      }
      data[nwrite % PIPESIZE] := b;
      Counted(|st.stored|);
      nwrite := (nwrite + 1) % 0x1_0000_0000;
      st := st.(stored := st.stored + [b]);
    }

    /** `p->data[p->nread++ % PIPESIZE]`, where the ring is not empty. */
    method Fetch() returns (b: Byte)
      requires Valid() && st.Held() > 0
      modifies this
      ensures Valid() && st == old(st).(taken := old(st).taken + 1) && b == st.stored[old(st).taken]
    {
      RingIndex(st.taken);
      b := data[nread % PIPESIZE];
      Counted(st.taken);
      nread := (nread + 1) % 0x1_0000_0000;
      st := st.(taken := st.taken + 1);
    }

    /** pipewrite between two sleeps. */
    method Write(addr: seq<Byte>, i: nat, readopen: bool, killed: bool) returns (r: Outcome, woke: bool)
      requires Valid() && i <= |addr|
      modifies this, data
      ensures Valid() && (st, r, woke) == WriteSection(old(st), addr, i, readopen, killed)
    {
      var j := i;
      while j < |addr|
        invariant i <= j <= Min(|addr|, i + PIPESIZE - old(st).Held()) && Valid()
        invariant st == old(st).(stored := old(st).stored + addr[i..j])
      {
        CountersTell(st);
        if nwrite == (nread + PIPESIZE) % 0x1_0000_0000 {
          if !readopen || killed {
            return Returns(-1), false;
          }
          return Sleeps(j), true;
        }
        Store(addr[j]);
        assert addr[i..j] + [addr[j]] == addr[i..j + 1];
        j := j + 1;
      }
      return Returns(|addr|), true;
    }

    /** piperead between two sleeps. */
    method Read(n: nat, writeopen: bool, killed: bool) returns (r: Outcome, dst: seq<Byte>, woke: bool)
      requires Valid()
      modifies this
      ensures Valid() && (st, r, dst, woke) == ReadSection(old(st), n, writeopen, killed)
    {
      CountersTell(st);
      if nread == nwrite && writeopen {
        return if killed then Returns(-1) else Sleeps(0), [], false;
      }
      dst := [];
      var i := 0;
      while i < n
        invariant 0 <= i <= Min(n, old(st).Held()) && Valid()
        invariant st == old(st).(taken := old(st).taken + i) && dst == st.stored[old(st).taken..st.taken]
      {
        CountersTell(st);
        if nread == nwrite {
          break;
        }
        var b := Fetch();
        dst := dst + [b];
        i := i + 1;
      }
      return Returns(i), dst, true;
    }
  }

  lemma Counted(k: nat)
    ensures (k + 1) % 0x1_0000_0000 == (k % 0x1_0000_0000 + 1) % 0x1_0000_0000
  {
    var q, r := k / 0x1_0000_0000, k % 0x1_0000_0000;
    if r + 1 == 0x1_0000_0000 {
      ModOf(k + 1, q + 1, 0);
    } else {
      ModOf(k + 1, q, r + 1);
    }
  }
}
