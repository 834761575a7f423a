/**
  The locking rule (consumer.go:18-25): shard lock first, state lock while the shard lock is held,
  never the other way round. What it buys: mutual exclusion, no stale state object, no deadlock.
 */
module ConsumerLocks {
  import opened ActivityStates
  import opened ConsumerSystem
  import opened Options

  /** The activity and state object a thread at `pc` has a pointer to. */
  function Pointer(tid: Tid, pc: PC): Option<(int, nat)> {
    match pc
    case WantState(_, o) => Some((ActivityOf(tid), o))
    case HaveBoth(_, o) => Some((ActivityOf(tid), o))
    case HaveState(_, o) => Some((ActivityOf(tid), o))
    case GcWantState(_, _, _, a, o) => Some((a, o))
    case GcHaveState(_, _, _, a, o) => Some((a, o))
    case _ => None
  }

  /** What a collector still has to look at. */
  function Todo(pc: PC): set<int> {
    match pc
    case GcScan(_, _, todo) => todo
    case GcWantState(_, _, todo, _, _) => todo
    case GcHaveState(_, _, todo, _, _) => todo
    case _ => {}
  }

  /** Each lock has at most one holder. */
  ghost predicate Exclusive(c: Config, s: System)
    requires GoodConfig(c)
  {
    ExclusiveShards(c, s) && ExclusiveStates(s)
  }

  ghost predicate ExclusiveShards(c: Config, s: System)
    requires GoodConfig(c)
  {
    forall x, y :: x in s.threads && y in s.threads && x != y && ShardHeld(c, x, s.threads[x].pc).Some? ==>
      ShardHeld(c, x, s.threads[x].pc) != ShardHeld(c, y, s.threads[y].pc)
  }

  ghost predicate ExclusiveStates(s: System) {
    forall x, y :: x in s.threads && y in s.threads && x != y && StateHeld(s.threads[x].pc).Some? ==>
      StateHeld(s.threads[x].pc) != StateHeld(s.threads[y].pc)
  }

  /** The mover's new shard lock, if any, was free or its own already. */
  ghost predicate ShardTaken(c: Config, s: System, tid: Tid, pc: PC)
    requires GoodConfig(c)
  {
    var h := ShardHeld(c, tid, pc);
    h.Some? ==> ShardFree(c, s, h.value) || (tid in s.threads && h == ShardHeld(c, tid, s.threads[tid].pc))
  }

  ghost predicate StateTaken(s: System, tid: Tid, pc: PC) {
    var h := StateHeld(pc);
    h.Some? ==> StateFree(s, h.value) || (tid in s.threads && h == StateHeld(s.threads[tid].pc))
  }

  lemma ShardsKept(c: Config, s: System, tid: Tid, e: Effect)
    requires GoodConfig(c) && ExclusiveShards(c, s) && ShardTaken(c, s, tid, e.pc)
    ensures ExclusiveShards(c, Commit(s, tid, e))
  {
  }

  lemma StatesKept(s: System, tid: Tid, e: Effect)
    requires ExclusiveStates(s) && StateTaken(s, tid, e.pc)
    ensures ExclusiveStates(Commit(s, tid, e))
  {
  }

  lemma ExclusiveKept(c: Config, s: System, tid: Tid, e: Effect)
    requires GoodConfig(c) && Exclusive(c, s) && ShardTaken(c, s, tid, e.pc) && StateTaken(s, tid, e.pc)
    ensures Exclusive(c, Commit(s, tid, e))
  {
    ShardsKept(c, s, tid, e);
    StatesKept(s, tid, e);
  }

  predicate GcStep(step: Step) {
    step.GcTakeShard? || step.GcPick? || step.GcTakeState? || step.GcDecide? || step.GcNextShard?
  }

  predicate LockStep(step: Step) {
    step.TakeShard? || step.Lookup? || step.TakeState? || step.DropShard? || step.AddMetric?
  }

  lemma LocksTakenByCollector(c: Config, s: System, step: Step)
    requires GoodConfig(c) && Enabled(c, s, step) && GcStep(step)
    ensures ShardTaken(c, s, step.tid, EffectOf(c, s, step).pc) && StateTaken(s, step.tid, EffectOf(c, s, step).pc)
  {
  }

  lemma LocksTakenByHelper(c: Config, s: System, step: Step)
    requires GoodConfig(c) && Enabled(c, s, step) && LockStep(step)
    ensures ShardTaken(c, s, step.tid, EffectOf(c, s, step).pc) && StateTaken(s, step.tid, EffectOf(c, s, step).pc)
  {
  }

  /** A step takes a lock only when it is free. */
  lemma LocksTakenWhenFree(c: Config, s: System, step: Step)
    requires GoodConfig(c) && Enabled(c, s, step) && !step.Close? && !step.ReleasePool?
    ensures ShardTaken(c, s, Mover(step), EffectOf(c, s, step).pc) &&
            StateTaken(s, Mover(step), EffectOf(c, s, step).pc)
  {
    if GcStep(step) {
      LocksTakenByCollector(c, s, step);
    } else if LockStep(step) {
      LocksTakenByHelper(c, s, step);
    } else {
      HoldsNothing(c, s, step);
    }
  }

  /** Every other step ends outside all locks. */
  lemma HoldsNothing(c: Config, s: System, step: Step)
    requires GoodConfig(c) && Enabled(c, s, step) && !step.Close? && !step.ReleasePool?
    requires !GcStep(step) && !LockStep(step)
    ensures var pc := EffectOf(c, s, step).pc; ShardHeld(c, Mover(step), pc).None? && StateHeld(pc).None?
  {
  }

  // ---------------------------------------------------------------- no stale pointers

  /** The entries a collector looks at belong to the shard it has locked. */
  predicate GcInOwnShard(c: Config, pc: PC)
    requires GoodConfig(c)
  {
    && (pc.GcWantState? || pc.GcHaveState? ==> ShardOf(c, pc.act) == pc.shard)
    && (pc.GcScan? || pc.GcWantState? || pc.GcHaveState? ==> forall a :: a in pc.todo ==> ShardOf(c, a) == pc.shard)
  }

  predicate PointsIntoStore(c: Config, st: Store, tid: Tid, pc: PC)
    requires GoodConfig(c)
  {
    var p := Pointer(tid, pc);
    && (p.Some? ==> p.value.0 in st.states && st.states[p.value.0] == p.value.1)
    && Todo(pc) <= st.states.Keys
    && GcInOwnShard(c, pc)
    && (tid.Collector? <==> pc.GcWantShard? || pc.GcScan? || pc.GcWantState? || pc.GcHaveState? || pc.GcEnd?)
  }

  ghost predicate GoodStore(st: Store) {
    && (forall a :: a in st.states ==> st.states[a] in st.objs)
    && (forall a, b :: a in st.states && b in st.states && a != b ==> st.states[a] != st.states[b])
    && (forall o :: o in st.objs ==> o < st.nextObj)
  }

  /** No thread points at a state object that the shard map has dropped or replaced. */
  ghost predicate Current(c: Config, s: System)
    requires GoodConfig(c)
  {
    && GoodStore(s.store)
    && (forall tid :: tid in s.threads ==> PointsIntoStore(c, s.store, tid, s.threads[tid].pc))
  }

  /** Nobody but `tid` looks at activity `a`. */
  ghost predicate OnlyUser(c: Config, s: System, tid: Tid, a: int)
    requires GoodConfig(c)
  {
    forall x :: x in s.threads && x != tid ==>
      (Pointer(x, s.threads[x].pc).Some? ==> Pointer(x, s.threads[x].pc).value.0 != a) && a !in Todo(s.threads[x].pc)
  }

  lemma CurrentKept(c: Config, s: System, tid: Tid, e: Effect)
    requires GoodConfig(c) && Current(c, s)
    requires GoodStore(e.store)
    requires forall a :: a in s.store.states ==>
               (a in e.store.states && e.store.states[a] == s.store.states[a]) || OnlyUser(c, s, tid, a)
    requires PointsIntoStore(c, e.store, tid, e.pc)
    ensures Current(c, Commit(s, tid, e))
  {
    var s' := Commit(s, tid, e);
    forall x | x in s'.threads
      ensures PointsIntoStore(c, e.store, x, s'.threads[x].pc)
    {
      if x != tid && s'.threads[x].pc != Queued {
        var pc := s.threads[x].pc;
        assert s'.threads[x].pc == pc && PointsIntoStore(c, s.store, x, pc);
        forall a | a in Todo(pc) ensures a in e.store.states { }
      }
    }
  }

  /** The collector that holds both locks of an entry is alone with it. */
  lemma CollectorAlone(c: Config, s: System, tid: Tid)
    requires GoodConfig(c) && Exclusive(c, s) && Current(c, s)
    requires tid in s.threads && s.threads[tid].pc.GcHaveState?
    ensures OnlyUser(c, s, tid, s.threads[tid].pc.act)
  {
    var pc := s.threads[tid].pc;
    forall x | x in s.threads && x != tid
      ensures Pointer(x, s.threads[x].pc).Some? ==> Pointer(x, s.threads[x].pc).value.0 != pc.act
      ensures pc.act !in Todo(s.threads[x].pc)
    {
      assert PointsIntoStore(c, s.store, tid, pc) && PointsIntoStore(c, s.store, x, s.threads[x].pc);
      assert ShardHeld(c, x, s.threads[x].pc) != ShardHeld(c, tid, pc) == Some(ShardOf(c, pc.act));
      assert StateHeld(s.threads[x].pc) != StateHeld(pc) == Some(pc.obj);
    }
  }

  /** Every step but the two that edit a shard map leaves the maps alone. */
  lemma MapsKept(c: Config, s: System, step: Step)
    requires GoodConfig(c) && Enabled(c, s, step) && !step.Close? && !step.ReleasePool?
    requires !step.Lookup? && !step.GcDecide?
    ensures var st := EffectOf(c, s, step).store;
            st.states == s.store.states && st.nextObj == s.store.nextObj && st.objs.Keys == s.store.objs.Keys
  {
  }

  lemma PointsKept(c: Config, s: System, step: Step)
    requires GoodConfig(c) && Enabled(c, s, step) && !step.Close? && !step.ReleasePool?
    requires !step.Lookup? && !step.GcDecide?
    requires Current(c, s)
    ensures PointsIntoStore(c, s.store, Mover(step), EffectOf(c, s, step).pc)
  {
    if GcStep(step) {
      GcPointsKept(c, s, step);
    }
  }

  lemma GcPointsKept(c: Config, s: System, step: Step)
    requires GoodConfig(c) && Enabled(c, s, step) && GcStep(step) && !step.GcDecide?
    requires Current(c, s)
    ensures PointsIntoStore(c, s.store, Mover(step), EffectOf(c, s, step).pc)
  {
  }

  lemma CollectKeepsCurrent(c: Config, s: System, tid: Tid)
    requires GoodConfig(c) && Enabled(c, s, GcDecide(tid)) && Exclusive(c, s) && Current(c, s)
    ensures Current(c, Commit(s, tid, DecideEffect(c, s, s.threads[tid].pc)))
  {
    assert PointsIntoStore(c, s.store, tid, s.threads[tid].pc);
    CollectorAlone(c, s, tid);
    CurrentKept(c, s, tid, DecideEffect(c, s, s.threads[tid].pc));
  }

  lemma LookupKeepsCurrent(c: Config, s: System, tid: Tid)
    requires GoodConfig(c) && Enabled(c, s, Lookup(tid)) && Current(c, s)
    ensures Current(c, Commit(s, tid, LookUp(s, ActivityOf(tid), s.threads[tid].pc.op)))
  {
    assert PointsIntoStore(c, s.store, tid, s.threads[tid].pc);
    CurrentKept(c, s, tid, LookUp(s, ActivityOf(tid), s.threads[tid].pc.op));
  }

  lemma CurrentPreserved(c: Config, s: System, step: Step)
    requires GoodConfig(c) && Enabled(c, s, step) && !step.Close? && !step.ReleasePool?
    requires Exclusive(c, s) && Current(c, s)
    ensures Current(c, Commit(s, Mover(step), EffectOf(c, s, step)))
  {
    if step.GcDecide? {
      CollectKeepsCurrent(c, s, step.tid);
    } else if step.Lookup? {
      LookupKeepsCurrent(c, s, step.tid);
    } else {
      MapsKept(c, s, step);
      PointsKept(c, s, step);
      CurrentKept(c, s, Mover(step), EffectOf(c, s, step));
    }
  }
}
