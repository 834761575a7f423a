/**
  The atomic counters (backend/pkg/activityconsumer/metrics.go). They are updated after the locks
  are dropped, so they lag; but counter plus outstanding updates always equals the true total.
 */
module ConsumerCounters {
  import opened Sums
  import opened ActivityStates
  import opened ConsumerSystem
  import opened ConsumerLocks
  import opened ConsumerAccounts
  import opened ConsumerSafety
  import opened ConsumerRuns
  import opened ConsumerTheorems
  import opened Options

  datatype Counter = TotalInflight | TotalBuffered | ActiveActivities

  function Amount(k: Counter, m: Metric): int {
    match (k, m)
    case (TotalInflight, Inflight(d)) => d
    case (TotalBuffered, Buffered(d)) => d
    case (ActiveActivities, Active(d)) => d
    case _ => 0
  }

  function Debt(k: Counter, owed: seq<Metric>): int {
    if owed == [] then 0 else Amount(k, owed[0]) + Debt(k, owed[1..])
  }

  function Reading(k: Counter, m: Metrics): int {
    match k
    case TotalInflight => m.inflight
    case TotalBuffered => m.buffered
    case ActiveActivities => m.active
  }

  /** What one activity's state contributes to a counter. */
  function Share(k: Counter, slot: Slot): int {
    match k
    case TotalInflight => slot.inflight
    case TotalBuffered => |slot.mailbox|
    case ActiveActivities => 1
  }

  function Debts(k: Counter, threads: map<Tid, Thread>): map<Tid, int> {
    map tid | tid in threads :: Debt(k, threads[tid].owed)
  }

  function Shares(k: Counter, slots: map<int, Slot>): map<int, int> {
    map a | a in slots :: Share(k, slots[a])
  }

  /** Counter reading plus updates still owed equals the sum over all activities. */
  ghost predicate Balanced(k: Counter, s: System)
    requires GoodStore(s.store)
  {
    Reading(k, s.metrics) + Total(Debts(k, s.threads)) == Total(Shares(k, SlotsOf(s.store)))
  }

  lemma SlotShare(k: Counter, slots: map<int, Slot>, a: int, slot: Slot)
    ensures Total(Shares(k, slots[a := slot])) ==
            Total(Shares(k, slots)) - (if a in slots then Share(k, slots[a]) else 0) + Share(k, slot)
  {
    assert Shares(k, slots[a := slot]) == Shares(k, slots)[a := Share(k, slot)];
    TotalUpdate(Shares(k, slots), a, Share(k, slot));
  }

  /** Committing an effect replaces the mover's debts; a spawned worker owes nothing. */
  lemma CommitDebts(k: Counter, s: System, tid: Tid, e: Effect)
    requires e.spawn.Some? ==> Worker(e.spawn.value) !in s.threads && (tid in s.threads || !tid.Worker?)
    ensures Total(Debts(k, Commit(s, tid, e).threads)) ==
            Total(Debts(k, s.threads)) + Debt(k, e.owed) -
            (if tid in s.threads then Debt(k, s.threads[tid].owed) else 0)
  {
    var d := Debts(k, s.threads);
    var d1 := if e.spawn.Some? then d[Worker(e.spawn.value) := 0] else d;
    assert Debts(k, Commit(s, tid, e).threads) == d1[tid := Debt(k, e.owed)];
    TotalUpdate(d1, tid, Debt(k, e.owed));
    if e.spawn.Some? {
      TotalUpdate(d, Worker(e.spawn.value), 0);
    }
  }

  // ---------------------------------------------------------------- what each step owes

  lemma DebtTwo(k: Counter, m: Metric, n: Metric)
    ensures Debt(k, [m, n]) == Amount(k, m) + Amount(k, n)
  {
    assert [m, n][1..] == [n] && [n][1..] == [];
    assert Debt(k, [n]) == Amount(k, n);
  }

  lemma DebtThree(k: Counter, m: Metric, n: Metric, p: Metric)
    ensures Debt(k, [m, n, p]) == Amount(k, m) + Amount(k, n) + Amount(k, p)
  {
    assert [m, n, p][1..] == [n, p];
    assert Debt(k, [m, n, p]) == Amount(k, m) + Debt(k, [n, p]);
    DebtTwo(k, n, p);
  }

  /** A critical section on `a` owes exactly the change it made to `a`'s slot. */
  ghost predicate Owes(k: Counter, s: System, e: Effect, o: nat)
    requires o in s.store.objs
  {
    && o in e.store.objs && e.store == SetSlot(s.store, o, e.store.objs[o]) && e.spawn.None?
    && Share(k, e.store.objs[o]) == Share(k, s.store.objs[o]) + Debt(k, e.owed)
  }

  lemma HandleOwes(c: Config, s: System, t: Task, now: int, o: nat, k: Counter)
    requires o in s.store.objs
    ensures Owes(k, s, HandleSection(c, s, t, now, o), o)
  {
  }

  lemma RollbackDirectOwes(s: System, t: Task, now: int, o: nat, k: Counter)
    requires o in s.store.objs && s.store.objs[o].inflight > 0
    ensures Owes(k, s, RollbackDirectSection(s, t, now, o), o)
  {
  }

  lemma RollbackBatchOwes(s: System, batch: seq<Task>, now: int, o: nat, k: Counter)
    requires o in s.store.objs && s.store.objs[o].inflight >= |batch|
    ensures Owes(k, s, RollbackBatchSection(s, batch, now, o), o)
  {
    DebtTwo(k, Inflight(-|batch|), Buffered(|batch|));
  }

  lemma DoneOwes(c: Config, s: System, t: Task, now: int, o: nat, k: Counter)
    requires o in s.store.objs && s.store.objs[o].inflight > 0
    ensures Owes(k, s, DoneSection(c, s, t, now, o), o)
  {
    var n := |Finish(s.store.objs[o], c.perActivityLimit, now).1|;
    DebtThree(k, Inflight(-1), Inflight(n), Buffered(-n));
  }

  lemma SectionOwes(c: Config, s: System, step: Step, k: Counter)
    requires GoodConfig(c) && Inv(c, s) && Enabled(c, s, step) && IsSection(step)
    ensures Owes(k, s, EffectOf(c, s, step), s.threads[Mover(step)].pc.obj)
  {
    var tid := Mover(step);
    var pc := s.threads[tid].pc;
    var slot := s.store.objs[pc.obj];
    SectionCurrent(c, s, tid);
    assert Fits(s.loc, tid, pc);
    if step.HandleCritical? {
      HandleOwes(c, s, step.t, pc.op.now, pc.obj, k);
    } else if step.RollbackBatchCritical? {
      RollbackBatchKeeps(c, slot, s.loc, ActivityOf(tid), pc.op.tasks, step.now);
      RollbackBatchOwes(s, pc.op.tasks, step.now, pc.obj, k);
    } else if step.DoneCritical? {
      ReleaseKeeps(c, slot, s.loc, step.t, Processed, step.now);
      DoneOwes(c, s, step.t, step.now, pc.obj, k);
    } else {
      ReleaseKeeps(c, slot, s.loc, step.t, Rejected, step.now);
      RollbackDirectOwes(s, step.t, step.now, pc.obj, k);
    }
  }

  lemma SectionBalanced(s: System, tid: Tid, e: Effect, a: int, k: Counter)
    requires GoodStore(s.store) && Balanced(k, s) && At(s, tid)
    requires a in s.store.states && Owes(k, s, e, s.store.states[a])
    ensures GoodStore(e.store) && Balanced(k, Commit(s, tid, e))
  {
    var slot := e.store.objs[s.store.states[a]];
    SectionSlots(s.store, a, slot);
    SlotShare(k, SlotsOf(s.store), a, slot);
    CommitDebts(k, s, tid, e);
  }

  lemma CreateSlots(st: Store, a: int, slot: Slot)
    requires GoodStore(st) && a !in st.states
    ensures var st' := Store(st.objs[st.nextObj := slot], st.nextObj + 1, st.states[a := st.nextObj]);
            GoodStore(st') && SlotsOf(st') == SlotsOf(st)[a := slot]
  {
    var st' := Store(st.objs[st.nextObj := slot], st.nextObj + 1, st.states[a := st.nextObj]);
    assert forall b :: b in st.states ==> st'.objs[st.states[b]] == st.objs[st.states[b]];
    assert SlotsOf(st').Keys == SlotsOf(st)[a := slot].Keys;
  }

  lemma LookupBalanced(s: System, tid: Tid, a: int, op: Op, k: Counter)
    requires GoodStore(s.store) && Balanced(k, s) && At(s, tid)
    ensures var e := LookUp(s, a, op); GoodStore(e.store) && Balanced(k, Commit(s, tid, e))
  {
    var e := LookUp(s, a, op);
    CommitDebts(k, s, tid, e);
    if a !in s.store.states && op.Handle? {
      var slot := Slot(0, [], op.now);
      CreateSlots(s.store, a, slot);
      SlotShare(k, SlotsOf(s.store), a, slot);
    }
  }

  lemma CollectBalanced(c: Config, s: System, tid: Tid, pc: PC, k: Counter)
    requires GoodStore(s.store) && Balanced(k, s) && At(s, tid)
    requires pc.GcHaveState? && pc.obj in s.store.objs
    ensures var e := DecideEffect(c, s, pc); GoodStore(e.store) && Balanced(k, Commit(s, tid, e))
  {
    var e := DecideEffect(c, s, pc);
    CommitDebts(k, s, tid, e);
    if e.owed != [] {
      assert Shares(k, SlotsOf(e.store)) == Shares(k, SlotsOf(s.store)) - {pc.act};
      TotalRemove(Shares(k, SlotsOf(s.store)), pc.act);
    }
  }

  /** The remaining steps neither touch a slot nor owe anything new. */
  lemma FreeSteps(c: Config, s: System, step: Step)
    requires GoodConfig(c) && Enabled(c, s, step) && !step.Close? && !step.ReleasePool? && !step.AddMetric?
    requires !IsSection(step) && !step.Lookup? && !step.GcDecide?
    ensures var e := EffectOf(c, s, step); e.owed == [] && e.store == s.store
    ensures Mover(step) in s.threads ==> s.threads[Mover(step)].owed == []
    ensures EffectOf(c, s, step).spawn.Some? ==> step.SubmitDirect? || step.SubmitNext?
  {
  }

  lemma FreeBalanced(c: Config, s: System, step: Step, k: Counter)
    requires GoodConfig(c) && Inv(c, s) && Enabled(c, s, step) && !step.Close? && !step.ReleasePool? && !step.AddMetric?
    requires !IsSection(step) && !step.Lookup? && !step.GcDecide?
    requires Balanced(k, s)
    ensures GoodStore(EffectOf(c, s, step).store) && Balanced(k, Commit(s, Mover(step), EffectOf(c, s, step)))
  {
    FreeSteps(c, s, step);
    if step.SubmitDirect? || step.SubmitNext? {
      SpawnIsNew(c, s, step);
    }
    CommitDebts(k, s, Mover(step), EffectOf(c, s, step));
  }

  lemma BalancedPreserved(c: Config, s: System, step: Step, k: Counter)
    requires GoodConfig(c) && Inv(c, s) && Enabled(c, s, step) && Balanced(k, s)
    ensures var s' := Apply(c, s, step); GoodStore(s'.store) && Balanced(k, s')
  {
    if IsSection(step) {
      SectionCurrent(c, s, Mover(step));
      SectionOwes(c, s, step, k);
      SectionBalanced(s, Mover(step), EffectOf(c, s, step), ActivityOf(Mover(step)), k);
    } else if step.Lookup? || step.GcDecide? || step.AddMetric? {
      MapEditBalanced(c, s, step, k);
    } else if !step.Close? && !step.ReleasePool? {
      FreeBalanced(c, s, step, k);
    }
  }

  lemma MapEditBalanced(c: Config, s: System, step: Step, k: Counter)
    requires GoodConfig(c) && GoodStore(s.store) && Enabled(c, s, step) && Balanced(k, s)
    requires step.Lookup? || step.GcDecide? || step.AddMetric?
    ensures var s' := Apply(c, s, step); GoodStore(s'.store) && Balanced(k, s')
  {
    if step.Lookup? {
      LookupBalanced(s, step.tid, ActivityOf(step.tid), s.threads[step.tid].pc.op, k);
    } else if step.GcDecide? {
      CollectBalanced(c, s, step.tid, s.threads[step.tid].pc, k);
    } else {
      CommitDebts(k, s, step.tid, EffectOf(c, s, step));
    }
  }

  lemma {:induction false} BalancedAlways(c: Config, s: System, run: seq<Step>, k: Counter)
    requires GoodConfig(c) && Inv(c, s) && IsRun(c, s, run) && Balanced(k, s)
    ensures var s' := After(c, s, run); GoodStore(s'.store) && Balanced(k, s')
    decreases |run|
  {
    if run == [] {
    } else {
      BalancedPreserved(c, s, run[0], k);
      InvPreserved(c, s, run[0]);
      BalancedAlways(c, Apply(c, s, run[0]), run[1..], k);
    }
  }

  /** COUNTER AGREEMENT. In every reachable state each counter plus the updates still owed by
      threads past their unlock equals the sum over all activities. */
  lemma CounterAgreement(c: Config, s: System, k: Counter)
    requires GoodConfig(c) && Reachable(c, s)
    ensures GoodStore(s.store) && Balanced(k, s)
  {
    var run: seq<Step> :| IsRun(c, Initial(), run) && After(c, Initial(), run) == s;
    InvInitially(c);
    assert Debts(k, map[]) == map[] && Shares(k, SlotsOf(Initial().store)) == map[];
    BalancedAlways(c, Initial(), run, k);
  }

  // ---------------------------------------------------------------- the activity counter

  /** No thread outside a shard lock owes an activity update. */
  ghost predicate ActiveUnderShard(c: Config, s: System)
    requires GoodConfig(c)
  {
    forall tid, m :: tid in s.threads && m in s.threads[tid].owed && m.Active? ==>
      ShardHeld(c, tid, s.threads[tid].pc).Some?
  }

  lemma OwedUnderShard(c: Config, s: System, step: Step)
    requires GoodConfig(c) && Enabled(c, s, step) && !step.Close? && !step.ReleasePool? && ActiveUnderShard(c, s)
    ensures var e := EffectOf(c, s, step);
            forall m :: m in e.owed && m.Active? ==> ShardHeld(c, Mover(step), e.pc).Some?
  {
  }

  lemma ActiveUnderShardPreserved(c: Config, s: System, step: Step)
    requires GoodConfig(c) && Enabled(c, s, step) && ActiveUnderShard(c, s)
    ensures ActiveUnderShard(c, Apply(c, s, step))
  {
    if !step.Close? && !step.ReleasePool? {
      OwedUnderShard(c, s, step);
    }
  }

  lemma {:induction false} ActiveUnderShardAlways(c: Config, s: System, run: seq<Step>)
    requires GoodConfig(c) && IsRun(c, s, run) && ActiveUnderShard(c, s)
    ensures ActiveUnderShard(c, After(c, s, run))
    decreases |run|
  {
    if run == [] {
    } else {
      ActiveUnderShardPreserved(c, s, run[0]);
      ActiveUnderShardAlways(c, Apply(c, s, run[0]), run[1..]);
    }
  }

  lemma {:induction false} NoActiveDebt(owed: seq<Metric>)
    requires forall m :: m in owed ==> !m.Active?
    ensures Debt(ActiveActivities, owed) == 0
  {
    if owed == [] {
    } else {
      NoActiveDebt(owed[1..]);
    }
  }

  lemma {:induction false} OnePerEntry(slots: map<int, Slot>)
    ensures Total(Shares(ActiveActivities, slots)) == |slots|
    decreases |slots|
  {
    var m := Shares(ActiveActivities, slots);
    if slots == map[] {
      assert m == map[];
    } else {
      var a := SomeKey(slots);
      TotalRemove(m, a);
      OnePerEntry(slots - {a});
      assert m - {a} == Shares(ActiveActivities, slots - {a});
    }
  }

  /** `activeActivities` equals the number of shard-map entries whenever no shard lock is held. */
  lemma ActiveCountsEntries(c: Config, s: System)
    requires GoodConfig(c) && Reachable(c, s)
    requires forall i: int :: ShardFree(c, s, i)
    ensures s.metrics.active == |s.store.states|
  {
    var run: seq<Step> :| IsRun(c, Initial(), run) && After(c, Initial(), run) == s;
    CounterAgreement(c, s, ActiveActivities);
    ActiveUnderShardAlways(c, Initial(), run);
    forall tid | tid in s.threads
      ensures Debts(ActiveActivities, s.threads)[tid] == 0
    {
      var h := ShardHeld(c, tid, s.threads[tid].pc);
      forall i: int ensures h != Some(i) { assert ShardFree(c, s, i); }
      NoActiveDebt(s.threads[tid].owed);
    }
    TotalZero(Debts(ActiveActivities, s.threads));
    OnePerEntry(SlotsOf(s.store));
    assert SlotsOf(s.store).Keys == s.store.states.Keys;
  }
}
