/**
  What a collector does, over runs: a completed pass has visited every shard and looked at every entry it
  found there, and an entry goes exactly if its activity is unused and was last touched too long ago.
 */
module ConsumerPasses {
  import opened ActivityStates
  import opened ConsumerSystem
  import opened ConsumerLocks
  import opened ConsumerAccounts
  import opened ConsumerSafety
  import opened ConsumerRuns
  import opened ConsumerTheorems
  import opened ConsumerOrder
  import opened ConsumerWaiting

  /** What a pass has done so far: its time, the shards it has locked, the entries it found in them, and those
      it has decided on under their locks. */
  datatype Pass = Pass(at: int, visited: set<int>, found: set<int>, decided: set<int>)

  ghost function PassStep(c: Config, s: System, step: Step, k: nat, p: Pass): Pass
    requires GoodConfig(c) && Enabled(c, s, step)
  {
    if step.StartCollect? && step.k == k then p.(at := step.now)
    else if step == GcTakeShard(Collector(k)) then
      var shard := s.threads[Collector(k)].pc.shard;
      p.(visited := p.visited + {shard},
         found := p.found + set a | a in s.store.states && (a % 0x1_0000_0000_0000_0000) % c.shardCount == shard)
    else if step == GcDecide(Collector(k)) then
      p.(decided := p.decided + {s.threads[Collector(k)].pc.act})
    else p
  }

  ghost function PassAlong(c: Config, s: System, run: seq<Step>, k: nat, p: Pass): Pass
    requires GoodConfig(c) && IsRun(c, s, run)
    decreases |run|
  {
    if run == [] then p
    else PassAlong(c, Apply(c, s, run[0]), run[1..], k, PassStep(c, s, run[0], k, p))
  }

  const NOTHING := Pass(0, {}, {}, {})

  ghost predicate Before(p: Pass, shards: int) {
    forall i :: 0 <= i < shards ==> i in p.visited
  }

  /** The pass so far fits the place of the collector. */
  ghost predicate Keeps(c: Config, pc: PC, p: Pass) {
    match pc
    case GcWantShard(i, at) => 0 <= i < c.shardCount && at == p.at && Before(p, i) && p.found <= p.decided
    case GcScan(i, at, todo) => 0 <= i < c.shardCount && at == p.at && Before(p, i + 1) && p.found <= p.decided + todo
    case GcWantState(i, at, todo, _, _) =>
      0 <= i < c.shardCount && at == p.at && Before(p, i + 1) && p.found <= p.decided + todo
    case GcHaveState(i, at, todo, _, _) =>
      0 <= i < c.shardCount && at == p.at && Before(p, i + 1) && p.found <= p.decided + todo
    case GcEnd => Before(p, c.shardCount) && p.found <= p.decided
    case _ => true
  }

  ghost predicate PassKept(c: Config, s: System, k: nat, p: Pass) {
    if Collector(k) in s.threads then Keeps(c, s.threads[Collector(k)].pc, p)
    else p == NOTHING
  }

  /** Only its own steps move a collector. */
  lemma CollectorAside(c: Config, s: System, step: Step, k: nat)
    requires GoodConfig(c) && Enabled(c, s, step)
    requires step.Close? || step.ReleasePool? || Mover(step) != Collector(k)
    ensures Collector(k) in Apply(c, s, step).threads <==> Collector(k) in s.threads
    ensures Collector(k) in s.threads ==> Apply(c, s, step).threads[Collector(k)].pc == s.threads[Collector(k)].pc
  {
  }

  /** A step puts its own thread where its effect says. */
  lemma Landed(c: Config, s: System, step: Step)
    requires GoodConfig(c) && Enabled(c, s, step) && !step.Close? && !step.ReleasePool?
    ensures Mover(step) in Apply(c, s, step).threads
    ensures Apply(c, s, step).threads[Mover(step)].pc == EffectOf(c, s, step).pc
  {
  }

  lemma TakesShard(c: Config, s: System, k: nat, p: Pass)
    requires GoodConfig(c) && Enabled(c, s, GcTakeShard(Collector(k))) && Keeps(c, s.threads[Collector(k)].pc, p)
    ensures var step := GcTakeShard(Collector(k)); Keeps(c, EffectOf(c, s, step).pc, PassStep(c, s, step, k, p))
  {
    var shard := s.threads[Collector(k)].pc.shard;
    assert forall a :: ShardOf(c, a) == (a % 0x1_0000_0000_0000_0000) % c.shardCount;
    var todo := set a | a in s.store.states && ShardOf(c, a) == shard;
    assert todo == set a | a in s.store.states && (a % 0x1_0000_0000_0000_0000) % c.shardCount == shard;
    forall i | 0 <= i < shard + 1
      ensures i in p.visited + {shard}
    {
    }
  }

  lemma Decides(c: Config, s: System, k: nat, p: Pass)
    requires GoodConfig(c) && Enabled(c, s, GcDecide(Collector(k))) && Keeps(c, s.threads[Collector(k)].pc, p)
    ensures var step := GcDecide(Collector(k)); Keeps(c, EffectOf(c, s, step).pc, PassStep(c, s, step, k, p))
  {
  }

  lemma NextShard(c: Config, s: System, k: nat, p: Pass)
    requires GoodConfig(c) && Enabled(c, s, GcNextShard(Collector(k))) && Keeps(c, s.threads[Collector(k)].pc, p)
    ensures var step := GcNextShard(Collector(k)); Keeps(c, EffectOf(c, s, step).pc, PassStep(c, s, step, k, p))
  {
    assert s.threads[Collector(k)].pc.todo == {};
  }

  lemma CollectorMoves(c: Config, s: System, step: Step, k: nat, p: Pass)
    requires GoodConfig(c) && Enabled(c, s, step) && PassKept(c, s, k, p)
    requires GcStep(step) && Mover(step) == Collector(k)
    ensures Keeps(c, EffectOf(c, s, step).pc, PassStep(c, s, step, k, p))
  {
    match step
    case GcTakeShard(_) => TakesShard(c, s, k, p);
    case GcDecide(_) => Decides(c, s, k, p);
    case GcNextShard(_) => NextShard(c, s, k, p);
    case _ =>
  }

  lemma CollectorWaits(c: Config, s: System, step: Step, k: nat, p: Pass)
    requires GoodConfig(c) && Inv(c, s) && Enabled(c, s, step) && PassKept(c, s, k, p)
    requires !step.Close? && !step.ReleasePool? && Mover(step) == Collector(k) && !GcStep(step)
    ensures Keeps(c, EffectOf(c, s, step).pc, PassStep(c, s, step, k, p))
  {
    if Collector(k) in s.threads {
      assert PointsIntoStore(c, s.store, Collector(k), s.threads[Collector(k)].pc);
    }
  }

  lemma OthersPass(c: Config, s: System, step: Step, k: nat, p: Pass)
    requires GoodConfig(c) && Enabled(c, s, step)
    requires step.Close? || step.ReleasePool? || Mover(step) != Collector(k)
    ensures PassStep(c, s, step, k, p) == p
  {
  }

  lemma PassStepKeeps(c: Config, s: System, step: Step, k: nat, p: Pass)
    requires GoodConfig(c) && Inv(c, s) && Enabled(c, s, step) && PassKept(c, s, k, p)
    ensures PassKept(c, Apply(c, s, step), k, PassStep(c, s, step, k, p))
  {
    if step.Close? || step.ReleasePool? || Mover(step) != Collector(k) {
      OthersPass(c, s, step, k, p);
      CollectorAside(c, s, step, k);
    } else {
      Landed(c, s, step);
      if GcStep(step) {
        CollectorMoves(c, s, step, k, p);
      } else {
        CollectorWaits(c, s, step, k, p);
      }
    }
  }

  lemma {:induction false} PassAlongKeeps(c: Config, s: System, run: seq<Step>, k: nat, p: Pass)
    requires GoodConfig(c) && Inv(c, s) && IsRun(c, s, run) && PassKept(c, s, k, p)
    ensures PassKept(c, After(c, s, run), k, PassAlong(c, s, run, k, p))
    decreases |run|
  {
    if run == [] {
    } else {
      PassStepKeeps(c, s, run[0], k, p);
      InvPreserved(c, s, run[0]);
      PassAlongKeeps(c, Apply(c, s, run[0]), run[1..], k, PassStep(c, s, run[0], k, p));
    }
  }

  /** COMPLETE PASSES. A collector that has come to its end has locked every shard, and has decided, under
      its lock, on every entry that it found in a shard when it locked it. */
  lemma CompletePass(c: Config, run: seq<Step>, k: nat)
    requires GoodConfig(c) && IsRun(c, Initial(), run)
    requires var s := After(c, Initial(), run); Collector(k) in s.threads && s.threads[Collector(k)].pc.GcEnd?
    ensures var p := PassAlong(c, Initial(), run, k, NOTHING);
            (forall i :: 0 <= i < c.shardCount ==> i in p.visited) && p.found <= p.decided
  {
    InvInitially(c);
    PassAlongKeeps(c, Initial(), run, k, NOTHING);
  }

  // ---------------------------------------------------------------- when an entry was last touched

  /** A critical section touches its activity at its time, and so does the message that creates its state. */
  ghost function TouchStep(c: Config, s: System, step: Step, a: int, before: int): int
    requires GoodConfig(c) && Enabled(c, s, step)
  {
    if step.HandleCritical? && step.t.activityId == a then s.threads[Handler(step.t)].pc.op.now
    else if (step.RollbackDirectCritical? || step.RollbackBatchCritical? || step.DoneCritical?)
            && step.t.activityId == a then step.now
    else if step.Lookup? && ActivityOf(step.tid) == a && a !in s.store.states
            && s.threads[step.tid].pc.op.Handle? then s.threads[step.tid].pc.op.now
    else before
  }

  ghost function LastTouch(c: Config, s: System, run: seq<Step>, a: int, before: int): int
    requires GoodConfig(c) && IsRun(c, s, run)
    decreases |run|
  {
    if run == [] then before
    else LastTouch(c, Apply(c, s, run[0]), run[1..], a, TouchStep(c, s, run[0], a, before))
  }

  ghost predicate Touched(s: System, a: int, at: int) {
    a in s.store.states && s.store.states[a] in s.store.objs ==> s.store.objs[s.store.states[a]].lastTouch == at
  }

  lemma SlotTouched(s: System, s': System, b: int, a: int, slot: Slot, at: int)
    requires GoodStore(s.store) && b in s.store.states && s'.store == SetSlot(s.store, s.store.states[b], slot)
    requires Touched(s, a, at)
    ensures Touched(s', a, if a == b then slot.lastTouch else at)
  {
    SectionSlots(s.store, b, slot);
    assert a in s.store.states ==> SlotsOf(s'.store)[a] == if a == b then slot else SlotsOf(s.store)[a];
  }

  lemma SectionTime(c: Config, s: System, step: Step, a: int, at: int)
    requires GoodConfig(c) && Enabled(c, s, step) && IsSection(step)
    ensures TouchStep(c, s, step, a, at) == if a == step.t.activityId then SectionSlot(c, s, step).lastTouch else at
  {
  }

  lemma SectionTouches(c: Config, s: System, step: Step, a: int, at: int)
    requires GoodConfig(c) && Inv(c, s) && Enabled(c, s, step) && IsSection(step) && Touched(s, a, at)
    ensures Touched(Apply(c, s, step), a, TouchStep(c, s, step, a, at))
  {
    SectionCurrent(c, s, Mover(step));
    SectionStore(c, s, step);
    SectionTime(c, s, step, a, at);
    SlotTouched(s, Apply(c, s, step), step.t.activityId, a, SectionSlot(c, s, step), at);
  }

  lemma OtherTouches(c: Config, s: System, step: Step, a: int, at: int)
    requires GoodConfig(c) && Inv(c, s) && Enabled(c, s, step) && !IsSection(step) && Touched(s, a, at)
    ensures Touched(Apply(c, s, step), a, TouchStep(c, s, step, a, at))
  {
    if IsMove(step) {
      MovesChangeNothing(c, s, step);
    }
  }

  lemma {:induction false} TouchedAlong(c: Config, s: System, run: seq<Step>, a: int, at: int)
    requires GoodConfig(c) && Inv(c, s) && IsRun(c, s, run) && Touched(s, a, at)
    ensures Touched(After(c, s, run), a, LastTouch(c, s, run, a, at))
    decreases |run|
  {
    if run == [] {
    } else {
      if IsSection(run[0]) {
        SectionTouches(c, s, run[0], a, at);
      } else {
        OtherTouches(c, s, run[0], a, at);
      }
      InvPreserved(c, s, run[0]);
      TouchedAlong(c, Apply(c, s, run[0]), run[1..], a, TouchStep(c, s, run[0], a, at));
    }
  }

  /** EXPIRY. A collector that has both locks of an entry removes it exactly if no task of its activity holds
      a slot or waits, and the activity was last touched longer before the time of the pass than the TTL. No
      other entry goes. */
  lemma RemovedIff(c: Config, run: seq<Step>, k: nat)
    requires GoodConfig(c) && IsRun(c, Initial(), run) && Enabled(c, After(c, Initial(), run), GcDecide(Collector(k)))
    ensures var s := After(c, Initial(), run);
            var s' := Apply(c, s, GcDecide(Collector(k)));
            var a := s.threads[Collector(k)].pc.act;
            && a in s.store.states
            && (a !in s'.store.states <==>
                  && InflightOf(s, a) == 0 && MailboxOf(s, a) == []
                  && PassAlong(c, Initial(), run, k, NOTHING).at - LastTouch(c, Initial(), run, a, 0) > c.activityTTL)
            && forall b :: b != a ==> (b in s'.store.states <==> b in s.store.states)
  {
    var s := After(c, Initial(), run);
    var pc := s.threads[Collector(k)].pc;
    InvInitially(c);
    InvAlways(c, Initial(), run);
    assert PointsIntoStore(c, s.store, Collector(k), pc);
    PassAlongKeeps(c, Initial(), run, k, NOTHING);
    TouchedAlong(c, Initial(), run, pc.act, 0);
  }
}
