/**
  Order ids (backend/internal/checkout/ioc/snowflake.go): 41 bits of milliseconds, 10 bits of node,
  12 bits of sequence. The bit fields do not overlap, so they are written here as a sum.
 */
module OrderIds {

  const MS_RANGE := 0x200_0000_0000
  const NODES := 1024
  const SEQS := 4096

  function Pack(ms: int, node: int, seqNo: int): int {
    ms * (NODES * SEQS) + node * SEQS + seqNo
  }

  function Encode(node: int, ms: int, seqNo: int): int {
    Pack(ms % MS_RANGE, node % NODES, seqNo)
  }

  /** The mutable part of a generator. */
  datatype Gen = Gen(seqNo: int, lastMs: int)

  /** One call: the clock when it starts, and when its wait for the next millisecond ends, if it waits. */
  datatype Call = Call(now: int, end: int)

  datatype Stamp = Stamp(ms: int, seqNo: int)

  predicate Overflows(g: Gen, c: Call) {
    c.now == g.lastMs && g.seqNo == SEQS - 1
  }

  function Next(g: Gen, c: Call): (Gen, Stamp) {
    if Overflows(g, c) then (Gen(0, g.lastMs), Stamp(c.end, 0))
    else
      var g' := if c.now == g.lastMs then Gen(g.seqNo + 1, g.lastMs) else Gen(0, c.now);
      (g', Stamp(c.now, g'.seqNo))
  }

  class Generator {
    const node: int
    /** The n-th reading of the clock, which never steps back and passes every value. */
    const clock: nat -> int
    ghost const passes: int -> nat

    var seqNo: int
    var lastMs: int
    var ticks: nat

    constructor (nodeId: int, clock: nat -> int, ghost passes: int -> nat)
      requires forall m, n :: m <= n ==> clock(m) <= clock(n)
      requires forall t :: clock(passes(t)) > t
      ensures Valid() && seqNo == lastMs == ticks == 0 && this.clock == clock
      ensures node == if nodeId <= 0 then 1 else nodeId
    {
      node := if nodeId <= 0 then 1 else nodeId;
      this.clock, this.passes := clock, passes;
      seqNo, lastMs, ticks := 0, 0, 0;
    }

    ghost predicate Valid()
      reads this
    {
      && 0 <= seqNo < SEQS
      && (forall m, n :: m <= n ==> clock(m) <= clock(n))
      && (forall t :: clock(passes(t)) > t)
    }

    /** GenerateOrderID. */
    method GenerateOrderId() returns (id: int, ghost call: Call)
      requires Valid()
      modifies this
      ensures Valid() && ticks > old(ticks) && call.now == clock(old(ticks)) && call.end == clock(ticks - 1)
      ensures call.now <= call.end && (Overflows(old(Gen(seqNo, lastMs)), call) ==> call.end > call.now)
      ensures !Overflows(old(Gen(seqNo, lastMs)), call) ==> call.end == call.now
      ensures var (g, stamp) := Next(old(Gen(seqNo, lastMs)), call);
              Gen(seqNo, lastMs) == g && id == Encode(node, stamp.ms, stamp.seqNo)
    {
      var now := clock(ticks);
      ghost var start := now;
      ticks := ticks + 1;
      if now == lastMs {
        seqNo := (seqNo + 1) % SEQS;
        if seqNo == 0 {
          while now <= lastMs
            invariant ticks > old(ticks) && now == clock(ticks - 1) && now >= start
            invariant seqNo == 0 && lastMs == old(lastMs)
            decreases passes(lastMs) + 1 - ticks
          {
            assert ticks <= passes(lastMs);
            now := clock(ticks);
            ticks := ticks + 1;
          }
        }
      } else {
        seqNo := 0;
        lastMs := now;
      }
      id := now % MS_RANGE * (NODES * SEQS) + node % NODES * SEQS + seqNo;
      call := Call(start, now);
    }

    /** A fresh generator called n times: the calls form a run, and their ids are those of the run. */
    method GenerateMany(n: nat) returns (ids: seq<int>, ghost calls: seq<Call>)
      requires Valid() && seqNo == lastMs == ticks == 0 && clock(0) > 0
      modifies this
      ensures Run(calls) && |ids| == |calls| == n
      ensures forall i :: 0 <= i < n ==> ids[i] == IdAt(node, calls, i)
    {
      ids, calls := [], [];
      for k := 0 to n
        invariant Valid() && |ids| == |calls| == k && Run(calls)
        invariant After(calls) == Gen(seqNo, lastMs)
        invariant forall i :: 0 <= i < k ==> 0 < calls[i].end <= clock(ticks)
        invariant forall i :: 0 <= i < k ==> ids[i] == IdAt(node, calls, i)
      {
        ghost var last := ticks;
        var id;
        ghost var call;
        id, call := GenerateOrderId();
        assert clock(0) <= clock(last) <= clock(ticks - 1) <= clock(ticks);
        RunAppended(calls, call);
        LastStep(calls, call);
        IdsAppended(node, calls, call, ids, id);
        ids, calls := ids + [id], calls + [call];
      }
    }
  }

  // ---------------------------------------------------------------- ids of one generator

  function After(calls: seq<Call>): Gen {
    if calls == [] then Gen(0, 0) else Next(After(calls[..|calls| - 1]), calls[|calls| - 1]).0
  }

  /** What call i of a run stamps its id with. */
  function StampAt(calls: seq<Call>, i: nat): Stamp
    requires i < |calls|
  {
    Next(After(calls[..i]), calls[i]).1
  }

  predicate OverflowAt(calls: seq<Call>, i: nat)
    requires i < |calls|
  {
    Overflows(After(calls[..i]), calls[i])
  }

  /** A run of calls on a clock that does not step back. */
  predicate Run(calls: seq<Call>) {
    && (forall i :: 0 <= i < |calls| ==> 0 < calls[i].now <= calls[i].end)
    && (forall i, j :: 0 <= i < j < |calls| ==> calls[i].end <= calls[j].now)
    && (forall i :: 0 <= i < |calls| ==>
          if OverflowAt(calls, i) then calls[i].now < calls[i].end else calls[i].now == calls[i].end)
  }

  /** The clock stays within the 41 bits. */
  predicate Fits(calls: seq<Call>) {
    forall i :: 0 <= i < |calls| ==> calls[i].end < MS_RANGE
  }

  lemma PrefixStep(calls: seq<Call>, call: Call, i: nat)
    requires i < |calls|
    ensures OverflowAt(calls + [call], i) == OverflowAt(calls, i)
    ensures StampAt(calls + [call], i) == StampAt(calls, i)
  {
    assert (calls + [call])[..i] == calls[..i];
  }

  lemma LastStep(calls: seq<Call>, call: Call)
    ensures After(calls + [call]) == Next(After(calls), call).0
    ensures StampAt(calls + [call], |calls|) == Next(After(calls), call).1
    ensures OverflowAt(calls + [call], |calls|) == Overflows(After(calls), call)
  {
    assert (calls + [call])[..|calls|] == calls;
  }

  lemma RunAppended(calls: seq<Call>, call: Call)
    requires Run(calls) && 0 < call.now <= call.end && forall i :: 0 <= i < |calls| ==> calls[i].end <= call.now
    requires if Overflows(After(calls), call) then call.now < call.end else call.now == call.end
    ensures Run(calls + [call])
  {
    var more := calls + [call];
    LastStep(calls, call);
    forall i | 0 <= i < |more|
      ensures if OverflowAt(more, i) then more[i].now < more[i].end else more[i].now == more[i].end
    {
      if i < |calls| {
        PrefixStep(calls, call, i);
      }
    }
  }

  /** One more call leaves the ids of the earlier ones as they were. */
  lemma IdsAppended(node: int, calls: seq<Call>, call: Call, ids: seq<int>, id: int)
    requires |ids| == |calls| && forall i :: 0 <= i < |calls| ==> ids[i] == IdAt(node, calls, i)
    requires id == Encode(node, Next(After(calls), call).1.ms, Next(After(calls), call).1.seqNo)
    ensures forall i :: 0 <= i <= |calls| ==> (ids + [id])[i] == IdAt(node, calls + [call], i)
  {
    LastStep(calls, call);
    forall i | 0 <= i < |calls|
      ensures ids[i] == IdAt(node, calls + [call], i)
    {
      PrefixStep(calls, call, i);
    }
  }

  predicate Before(x: Stamp, y: Stamp) {
    x.ms < y.ms || (x.ms == y.ms && x.seqNo < y.seqNo)
  }

  /** The three fields never run into each other. */
  lemma PackOrder(x: Stamp, a: int, y: Stamp, b: int)
    requires 0 <= a < NODES && 0 <= b < NODES && 0 <= x.seqNo < SEQS && 0 <= y.seqNo < SEQS
    ensures Pack(x.ms, a, x.seqNo) < Pack(y.ms, b, y.seqNo) <==>
            x.ms < y.ms || (x.ms == y.ms && (a < b || (a == b && x.seqNo < y.seqNo)))
  {
  }

  lemma EncodeOrder(node: int, x: Stamp, y: Stamp)
    requires 0 <= x.ms < MS_RANGE && 0 <= y.ms < MS_RANGE && 0 <= x.seqNo < SEQS && 0 <= y.seqNo < SEQS
    ensures Encode(node, x.ms, x.seqNo) < Encode(node, y.ms, y.seqNo) <==> Before(x, y)
    ensures 0 <= Encode(node, x.ms, x.seqNo) < 0x8000_0000_0000_0000
  {
    PackOrder(x, node % NODES, y, node % NODES);
    InRange(x.ms);
    InRange(y.ms);
  }

  lemma InRange(ms: int)
    requires 0 <= ms < MS_RANGE
    ensures ms % MS_RANGE == ms
  {
  }

  /** The clock alone: positive, and never back. */
  predicate Ticking(calls: seq<Call>) {
    && (forall i :: 0 <= i < |calls| ==> 0 < calls[i].now)
    && (forall i, j :: 0 <= i < j < |calls| ==> calls[i].now <= calls[j].now)
  }

  lemma {:induction false} GenInRange(calls: seq<Call>)
    requires Ticking(calls)
    ensures 0 <= After(calls).seqNo < SEQS
    ensures calls != [] ==> After(calls).lastMs <= calls[|calls| - 1].now
    ensures After(calls).lastMs >= 0
    decreases |calls|
  {
    if calls == [] {
    } else {
      GenInRange(calls[..|calls| - 1]);
    }
  }

  lemma RunTicks(calls: seq<Call>, n: nat)
    requires Run(calls) && n <= |calls|
    ensures Ticking(calls[..n])
  {
    forall i, j | 0 <= i < j < n
      ensures calls[..n][i].now <= calls[..n][j].now
    {
      assert calls[i].now <= calls[i].end <= calls[j].now;
    }
  }

  lemma RunPrefix(calls: seq<Call>, n: nat)
    requires Run(calls) && n <= |calls|
    ensures Run(calls[..n])
  {
    forall i | 0 <= i < n
      ensures calls[..n][..i] == calls[..i]
    {
    }
  }

  /** The trap: a call that had to wait is followed by a call that ticks the very millisecond the wait
      ended in. The wait does not record that millisecond, so both get sequence number 0 in it. */
  predicate Trap(calls: seq<Call>, i: nat)
    requires i + 1 < |calls|
  {
    OverflowAt(calls, i) && calls[i + 1].now == calls[i].end
  }

  lemma TwoCalls(g: Gen, c: Call, d: Call)
    requires 0 <= g.seqNo < SEQS && 0 <= g.lastMs <= c.now && c.end <= d.now
    requires if Overflows(g, c) then c.now < c.end else c.now == c.end
    requires if Overflows(Next(g, c).0, d) then d.now < d.end else d.now == d.end
    ensures Before(Next(g, c).1, Next(Next(g, c).0, d).1) <==> !(Overflows(g, c) && d.now == c.end)
    ensures Overflows(g, c) && d.now == c.end ==> Next(Next(g, c).0, d).1 == Next(g, c).1
  {
  }

  lemma Consecutive(calls: seq<Call>, i: nat)
    requires Run(calls) && i + 1 < |calls|
    ensures Before(StampAt(calls, i), StampAt(calls, i + 1)) <==> !Trap(calls, i)
    ensures Trap(calls, i) ==> StampAt(calls, i) == StampAt(calls, i + 1)
  {
    RunTicks(calls, i);
    GenInRange(calls[..i]);
    assert calls[..i + 1][..i] == calls[..i];
    assert After(calls[..i + 1]) == Next(After(calls[..i]), calls[i]).0;
    if i > 0 {
      assert calls[..i][i - 1] == calls[i - 1];
      assert calls[i - 1].end <= calls[i].now;
    }
    TwoCalls(After(calls[..i]), calls[i], calls[i + 1]);
  }

  function IdAt(node: int, calls: seq<Call>, i: nat): int
    requires i < |calls|
  {
    Encode(node, StampAt(calls, i).ms, StampAt(calls, i).seqNo)
  }

  lemma StampInRange(calls: seq<Call>, i: nat)
    requires Run(calls) && Fits(calls) && i < |calls|
    ensures 0 <= StampAt(calls, i).ms < MS_RANGE && 0 <= StampAt(calls, i).seqNo < SEQS
  {
    RunTicks(calls, i);
    GenInRange(calls[..i]);
  }

  lemma IdsFollow(node: int, calls: seq<Call>, i: nat)
    requires Run(calls) && Fits(calls) && i + 1 < |calls| && !Trap(calls, i)
    ensures IdAt(node, calls, i) < IdAt(node, calls, i + 1)
  {
    StampInRange(calls, i);
    StampInRange(calls, i + 1);
    Consecutive(calls, i);
    EncodeOrder(node, StampAt(calls, i), StampAt(calls, i + 1));
  }

  lemma {:induction false} Climb(node: int, calls: seq<Call>, i: nat, j: nat)
    requires Run(calls) && Fits(calls) && i < j < |calls|
    requires forall k :: 0 <= k < |calls| - 1 ==> !Trap(calls, k)
    ensures IdAt(node, calls, i) < IdAt(node, calls, j)
    decreases j
  {
    IdsFollow(node, calls, j - 1);
    if i < j - 1 {
      Climb(node, calls, i, j - 1);
    }
  }

  ghost predicate Increasing(node: int, calls: seq<Call>) {
    forall i, j :: 0 <= i < j < |calls| ==> IdAt(node, calls, i) < IdAt(node, calls, j)
  }

  ghost predicate NeverTwice(node: int, calls: seq<Call>) {
    forall i, j :: 0 <= i < j < |calls| ==> IdAt(node, calls, i) != IdAt(node, calls, j)
  }

  /** Uniqueness: the ids of a generator are strictly increasing, and even just distinct, if and only
      if no call falls into the trap. They always fit a non-negative int64. */
  lemma IncreasingIff(node: int, calls: seq<Call>)
    requires Run(calls) && Fits(calls)
    ensures Increasing(node, calls) <==> forall i :: 0 <= i < |calls| - 1 ==> !Trap(calls, i)
    ensures NeverTwice(node, calls) <==> forall i :: 0 <= i < |calls| - 1 ==> !Trap(calls, i)
    ensures forall i :: 0 <= i < |calls| ==> 0 <= IdAt(node, calls, i) < 0x8000_0000_0000_0000
  {
    if forall i :: 0 <= i < |calls| - 1 ==> !Trap(calls, i) {
      forall i, j | 0 <= i < j < |calls|
        ensures IdAt(node, calls, i) < IdAt(node, calls, j)
      {
        Climb(node, calls, i, j);
      }
    } else {
      var i :| 0 <= i < |calls| - 1 && Trap(calls, i);
      Consecutive(calls, i);
      assert IdAt(node, calls, i) == IdAt(node, calls, i + 1);
    }
    forall i | 0 <= i < |calls|
      ensures 0 <= IdAt(node, calls, i) < 0x8000_0000_0000_0000
    {
      StampInRange(calls, i);
      EncodeOrder(node, StampAt(calls, i), StampAt(calls, i));
    }
  }

  function Burst(n: nat): seq<Call> {
    seq(n, i => Call(1, 1))
  }

  lemma {:induction false} AfterBurst(n: nat)
    requires 0 < n <= SEQS
    ensures After(Burst(n)) == Gen(n - 1, 1)
  {
    var before := Burst(n - 1);
    assert Burst(n)[..n - 1] == before;
    if n == 1 {
      assert before == [];
    } else {
      AfterBurst(n - 1);
    }
  }

  /** 4096 calls in millisecond 1, a call that has to wait for 2, and one that reads 2. */
  function TrapRun(): seq<Call> {
    Burst(SEQS) + [Call(1, 2), Call(2, 2)]
  }

  lemma TrapRunIsRun()
    ensures Run(TrapRun()) && OverflowAt(TrapRun(), SEQS)
  {
    var calls := TrapRun();
    AfterBurst(SEQS);
    assert calls[..SEQS] == Burst(SEQS);
    forall i | 0 <= i < |calls|
      ensures OverflowAt(calls, i) <==> i == SEQS
    {
      if 0 < i < SEQS {
        assert calls[..i] == Burst(i);
        AfterBurst(i);
      } else if i == SEQS + 1 {
        assert calls[..i] == Burst(SEQS) + [Call(1, 2)] && calls[..i][..SEQS] == Burst(SEQS);
      }
    }
  }

  /** The trap is real: in this run two orders get the same id. */
  lemma SameIdTwice(node: int)
    ensures Run(TrapRun()) && Trap(TrapRun(), SEQS)
    ensures IdAt(node, TrapRun(), SEQS) == IdAt(node, TrapRun(), SEQS + 1)
  {
    TrapRunIsRun();
    Consecutive(TrapRun(), SEQS);
  }

  function CallsIn(calls: seq<Call>, ms: int): nat {
    if calls == [] then 0
    else CallsIn(calls[..|calls| - 1], ms) + if calls[|calls| - 1].now == ms then 1 else 0
  }

  lemma {:induction false} CallsInPrefix(calls: seq<Call>, n: nat, ms: int)
    requires n <= |calls|
    ensures CallsIn(calls[..n], ms) <= CallsIn(calls, ms)
    decreases |calls|
  {
    if n < |calls| {
      CallsInPrefix(calls[..|calls| - 1], n, ms);
      assert calls[..|calls| - 1][..n] == calls[..n];
    } else {
      assert calls[..n] == calls;
    }
  }

  /** The sequence number counts the calls of the current millisecond. */
  ghost predicate Counting(calls: seq<Call>) {
    calls != [] ==>
      && After(calls).lastMs == calls[|calls| - 1].now
      && After(calls).seqNo + 1 == CallsIn(calls, calls[|calls| - 1].now)
  }

  lemma CountOne(g: Gen, c: Call, before: nat)
    requires 0 <= g.seqNo < SEQS && before < SEQS
    requires before == if c.now == g.lastMs then g.seqNo + 1 else 0
    ensures !Overflows(g, c) && Next(g, c).0 == Gen(before, c.now)
  {
  }

  lemma NewMillisecond(calls: seq<Call>)
    requires Run(calls) && calls != []
    requires |calls| > 1 ==> calls[|calls| - 2].now < calls[|calls| - 1].now
    ensures CallsIn(calls[..|calls| - 1], calls[|calls| - 1].now) == 0
  {
    var n := |calls| - 1;
    forall i | 0 <= i < n
      ensures calls[..n][i].now < calls[n].now
    {
      assert i < n - 1 ==> calls[i].end <= calls[n - 1].now;
    }
    NoneYet(calls[..n], calls[n].now);
  }

  lemma CountsOn(calls: seq<Call>)
    requires Run(calls) && calls != [] && Counting(calls[..|calls| - 1])
    requires CallsIn(calls, calls[|calls| - 1].now) <= SEQS
    ensures Counting(calls) && !OverflowAt(calls, |calls| - 1)
  {
    var n := |calls| - 1;
    var past, c := calls[..n], calls[n];
    RunTicks(calls, n);
    GenInRange(past);
    if n == 0 || calls[n - 1].now != c.now {
      assert n > 0 ==> calls[n - 1].now <= calls[n - 1].end <= c.now;
      NewMillisecond(calls);
    } else {
      assert past[n - 1] == calls[n - 1];
    }
    CountOne(After(past), c, CallsIn(past, c.now));
  }

  lemma {:induction false} SeqCounts(calls: seq<Call>)
    requires Run(calls)
    requires forall ms :: CallsIn(calls, ms) <= SEQS
    ensures Counting(calls)
    ensures forall i :: 0 <= i < |calls| ==> !OverflowAt(calls, i)
    decreases |calls|
  {
    if calls == [] {
    } else {
      var n := |calls| - 1;
      RunPrefix(calls, n);
      forall ms
        ensures CallsIn(calls[..n], ms) <= SEQS
      {
        CallsInPrefix(calls, n, ms);
      }
      SeqCounts(calls[..n]);
      CountsOn(calls);
      OverflowsOfPrefix(calls, n);
    }
  }

  lemma OverflowsOfPrefix(calls: seq<Call>, n: nat)
    requires n <= |calls|
    ensures forall i :: 0 <= i < n ==> OverflowAt(calls, i) == OverflowAt(calls[..n], i)
  {
    forall i | 0 <= i < n
      ensures OverflowAt(calls, i) == OverflowAt(calls[..n], i)
    {
      assert calls[..n][..i] == calls[..i];
    }
  }

  lemma {:induction false} NoneYet(calls: seq<Call>, ms: int)
    requires forall i :: 0 <= i < |calls| ==> calls[i].now < ms
    ensures CallsIn(calls, ms) == 0
    decreases |calls|
  {
    if calls == [] {
    } else {
      NoneYet(calls[..|calls| - 1], ms);
    }
  }

  /** At most 4096 calls in any millisecond are enough. */
  lemma {:induction false} FewCallsIncreasing(node: int, calls: seq<Call>)
    requires Run(calls) && Fits(calls) && forall ms :: CallsIn(calls, ms) <= SEQS
    ensures Increasing(node, calls)
  {
    SeqCounts(calls);
    IncreasingIff(node, calls);
  }

  /** The three fields can be read back from an id: 41 bits of milliseconds above 10 bits of node above 12
      bits of sequence. */
  lemma IdFields(node: int, ms: int, seqNo: int)
    requires 0 <= seqNo < 0x1000
    ensures Encode(node, ms, seqNo) / 0x40_0000 == ms % 0x200_0000_0000
    ensures Encode(node, ms, seqNo) / 0x1000 % 0x400 == node % 0x400
    ensures Encode(node, ms, seqNo) % 0x1000 == seqNo
  {
    var m, k := ms % 0x200_0000_0000, node % 0x400;
    assert Encode(node, ms, seqNo) == (m * 0x400 + k) * 0x1000 + seqNo;
    assert Encode(node, ms, seqNo) / 0x1000 == m * 0x400 + k;
  }

  /** Two generators whose node ids differ in their low 10 bits never produce the same id, whatever
      their clocks do. */
  lemma NodesNeverCollide(node: int, other: int, x: Stamp, y: Stamp)
    requires node % NODES != other % NODES
    requires 0 <= x.seqNo < SEQS && 0 <= y.seqNo < SEQS
    ensures Encode(node, x.ms, x.seqNo) != Encode(other, y.ms, y.seqNo)
  {
    var x', y' := x.(ms := x.ms % MS_RANGE), y.(ms := y.ms % MS_RANGE);
    PackOrder(x', node % NODES, y', other % NODES);
    PackOrder(y', other % NODES, x', node % NODES);
  }
}
