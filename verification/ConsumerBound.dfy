/**
  No livelock: whatever the pool refuses and however threads interleave, the handlers, workers and
  readers of a run make only so many steps for each message. Every one of their steps lowers a measure
  that nothing but a new message or a new reader raises.
 */
module ConsumerBound {
  import opened Sums
  import opened ActivityStates
  import opened ConsumerSystem
  import opened ConsumerLocks
  import opened ConsumerAccounts
  import opened ConsumerSafety
  import opened ConsumerRuns
  import opened Options

  /** Steps a worker has before it from the moment the pool accepts it. */
  function WorkerCost(c: Config): int {
    20 + c.perActivityLimit
  }

  /** Steps from a critical section on, what it passes on included. */
  function OpCost(c: Config, op: Op): int {
    match op
    case Handle(_) => 10 + WorkerCost(c)
    case RollbackDirect => 2
    case RollbackBatch(_) => 3
    case Done => 13 + c.perActivityLimit
    case Peek => 1
  }

  function Weight(c: Config, pc: PC): int {
    match pc
    case WantShard(op) => OpCost(c, op) + 5
    case HaveShard(op) => OpCost(c, op) + 4
    case WantState(op, _) => OpCost(c, op) + 2
    case HaveBoth(op, _) => OpCost(c, op) + 1
    case HaveState(op, _) => OpCost(c, op)
    case Reserved => 8
    case Queued => WorkerCost(c)
    case Running => WorkerCost(c) - 1
    case Submitting(batch) => 9 + |batch|
    case _ => 0
  }

  /** Collectors are not counted. */
  function Cost(c: Config, tid: Tid, th: Thread): int {
    if tid.Collector? then 0 else Weight(c, th.pc) + |th.owed|
  }

  function Costs(c: Config, threads: map<Tid, Thread>): map<Tid, int> {
    map tid | tid in threads :: Cost(c, tid, threads[tid])
  }

  /** Accepted, and not yet with the pool: its worker is still to come. */
  predicate Waits(l: Loc) {
    l.InMailbox? || l.InBatch? || l.HeldDirect?
  }

  function Ahead(c: Config, l: Loc): int {
    if Waits(l) then WorkerCost(c) else 0
  }

  function Aheads(c: Config, loc: map<Task, Loc>): map<Task, int> {
    map t | t in loc :: Ahead(c, loc[t])
  }

  ghost function Measure(c: Config, s: System): int {
    Total(Costs(c, s.threads)) + Total(Aheads(c, s.loc))
  }

  lemma MeasureNonNegative(c: Config, s: System)
    requires GoodConfig(c)
    ensures Measure(c, s) >= 0
  {
    TotalNonNegative(Costs(c, s.threads));
    TotalNonNegative(Aheads(c, s.loc));
  }

  // ---------------------------------------------------------------- what one step changes

  lemma CommitCosts(c: Config, s: System, tid: Tid, e: Effect)
    requires e.spawn.Some? ==> Worker(e.spawn.value) !in s.threads && Worker(e.spawn.value) != tid
    ensures Total(Costs(c, Commit(s, tid, e).threads)) ==
            Total(Costs(c, s.threads)) - (if tid in s.threads then Cost(c, tid, s.threads[tid]) else 0)
            + Cost(c, tid, Thread(e.pc, e.owed)) + (if e.spawn.Some? then WorkerCost(c) else 0)
  {
    var d := Costs(c, s.threads);
    var d1 := if e.spawn.Some? then d[Worker(e.spawn.value) := WorkerCost(c)] else d;
    assert Costs(c, Commit(s, tid, e).threads) == d1[tid := Cost(c, tid, Thread(e.pc, e.owed))];
    TotalUpdate(d1, tid, Cost(c, tid, Thread(e.pc, e.owed)));
    if e.spawn.Some? {
      TotalUpdate(d, Worker(e.spawn.value), WorkerCost(c));
    }
  }

  lemma MoveAhead(c: Config, loc: map<Task, Loc>, t: Task, l: Loc)
    ensures Total(Aheads(c, loc[t := l])) ==
            Total(Aheads(c, loc)) - (if t in loc then Ahead(c, loc[t]) else 0) + Ahead(c, l)
  {
    TotalUpdate(Aheads(c, loc), t, Ahead(c, l));
    assert Aheads(c, loc[t := l]) == Aheads(c, loc)[t := Ahead(c, l)];
  }

  /** Waiting tasks that keep waiting, elsewhere. */
  lemma MoveAllAhead(c: Config, loc: map<Task, Loc>, tasks: seq<Task>, to: Loc)
    requires Waits(to) && forall t :: t in tasks ==> t in loc && Waits(loc[t])
    ensures Total(Aheads(c, MoveAll(loc, tasks, to))) == Total(Aheads(c, loc))
  {
    assert Aheads(c, MoveAll(loc, tasks, to)) == Aheads(c, loc);
  }

  /** The effect costs the mover more than it gives anybody. */
  ghost predicate Lowers(c: Config, s: System, tid: Tid, e: Effect) {
    && tid in s.threads && !tid.Collector?
    && Weight(c, e.pc) + |e.owed| + (if e.spawn.Some? then WorkerCost(c) else 0) + Total(Aheads(c, e.loc))
       < Weight(c, s.threads[tid].pc) + |s.threads[tid].owed| + Total(Aheads(c, s.loc))
  }

  predicate HelperMove(step: Step) {
    step.AddMetric? || step.TakeShard? || step.Lookup? || step.TakeState? || step.DropShard? || step.PeekCritical? ||
    step.Run? || step.ProcessEnd?
  }

  lemma HelperLowers(c: Config, s: System, step: Step)
    requires GoodConfig(c) && Enabled(c, s, step) && HelperMove(step) && !Mover(step).Collector?
    ensures Lowers(c, s, Mover(step), EffectOf(c, s, step))
  {
  }

  /** Thread `tid` is in the critical section `op` on object `o`. */
  ghost predicate Inside(s: System, tid: Tid, op: Op, o: nat) {
    && tid in s.threads && s.threads[tid] == Thread(HaveState(op, o), []) && o in s.store.objs
  }

  lemma HandleLowers(c: Config, s: System, t: Task, now: int, o: nat)
    requires GoodConfig(c) && Inside(s, Handler(t), Handle(now), o) && t !in s.loc
    ensures Lowers(c, s, Handler(t), HandleSection(c, s, t, now, o))
  {
    MoveAhead(c, s.loc, t, HandleSection(c, s, t, now, o).loc[t]);
  }

  lemma RollbackDirectLowers(c: Config, s: System, t: Task, now: int, o: nat)
    requires Inside(s, Handler(t), RollbackDirect, o) && t in s.loc && s.loc[t].HeldDirect? && c.perActivityLimit > 0
    ensures Lowers(c, s, Handler(t), RollbackDirectSection(s, t, now, o))
  {
    MoveAhead(c, s.loc, t, Rejected);
  }

  lemma RollbackBatchLowers(c: Config, s: System, u: Task, batch: seq<Task>, now: int, o: nat)
    requires Inside(s, Worker(u), RollbackBatch(batch), o) && CarriesOwn(s.loc, u, batch)
    ensures Lowers(c, s, Worker(u), RollbackBatchSection(s, batch, now, o))
  {
    MoveAllAhead(c, s.loc, batch, InMailbox);
  }

  /** A batch that a worker may drain: waiting tasks, no more of them than the limit. */
  ghost predicate Drainable(c: Config, loc: map<Task, Loc>, u: Task, next: seq<Task>) {
    |next| <= c.perActivityLimit && forall t :: t in next ==> t != u && t in loc && loc[t].InMailbox?
  }

  lemma DrainsDrainable(c: Config, s: System, u: Task, now: int, o: nat)
    requires GoodConfig(c) && o in s.store.objs && u in s.loc && s.loc[u].InPool?
    requires Agrees(c, s.store.objs[o], s.loc, u.activityId)
    ensures Drainable(c, s.loc, u, Finish(s.store.objs[o], c.perActivityLimit, now).1)
  {
    DoneDrains(c, s, u, now, o);
    BatchWithinLimit(c, s.store.objs[o], now);
  }

  lemma DoneLowers(c: Config, s: System, u: Task, now: int, o: nat)
    requires Inside(s, Worker(u), Op.Done, o) && u in s.loc && s.loc[u].InPool?
    requires Drainable(c, s.loc, u, Finish(s.store.objs[o], c.perActivityLimit, now).1)
    ensures Lowers(c, s, Worker(u), DoneSection(c, s, u, now, o))
  {
    DoneAhead(c, s.loc, u, Finish(s.store.objs[o], c.perActivityLimit, now).1);
  }

  lemma DoneAhead(c: Config, loc: map<Task, Loc>, u: Task, next: seq<Task>)
    requires u in loc && loc[u].InPool? && forall t :: t in next ==> t != u && t in loc && loc[t].InMailbox?
    ensures Total(Aheads(c, MoveAll(loc[u := Processed], next, InBatch(u)))) == Total(Aheads(c, loc))
  {
    MoveAhead(c, loc, u, Processed);
    MoveAllAhead(c, loc[u := Processed], next, InBatch(u));
  }

  lemma BatchWithinLimit(c: Config, slot: Slot, now: int)
    requires slot.inflight >= 0 && c.perActivityLimit > 0
    ensures |Finish(slot, c.perActivityLimit, now).1| <= c.perActivityLimit
  {
  }

  lemma SubmitDirectLowers(c: Config, s: System, t: Task, accept: bool)
    requires Handler(t) in s.threads && s.threads[Handler(t)] == Thread(Reserved, [])
    requires t in s.loc && s.loc[t].HeldDirect?
    ensures Lowers(c, s, Handler(t), SubmitDirectEffect(s, t, accept))
  {
    MoveAhead(c, s.loc, t, InPool);
  }

  lemma SubmitNextLowers(c: Config, s: System, u: Task, batch: seq<Task>, accept: bool)
    requires Worker(u) in s.threads && s.threads[Worker(u)] == Thread(Submitting(batch), []) && batch != []
    requires CarriesOwn(s.loc, u, batch)
    ensures Lowers(c, s, Worker(u), SubmitNextEffect(s, batch, accept))
  {
    assert batch[0] in batch;
    MoveAhead(c, s.loc, batch[0], InPool);
  }

  // ---------------------------------------------------------------- every step

  /** A step of a handler, a worker or a reader that has begun. */
  predicate Own(step: Step) {
    !step.Close? && !step.ReleasePool? && !step.StartHandle? && !step.StartPeek? && !step.StartCollect? &&
      !Mover(step).Collector?
  }

  lemma SectionLowers(c: Config, s: System, step: Step)
    requires GoodConfig(c) && Inv(c, s) && Enabled(c, s, step) && IsSection(step)
    ensures Lowers(c, s, Mover(step), EffectOf(c, s, step))
  {
    var tid := Mover(step);
    var th := s.threads[tid];
    SectionCurrent(c, s, tid);
    assert Fits(s.loc, tid, th.pc);
    assert th == Thread(HaveState(th.pc.op, th.pc.obj), []);
    match step
    case HandleCritical(t) => HandleLowers(c, s, t, th.pc.op.now, th.pc.obj);
    case RollbackDirectCritical(t, now) => RollbackDirectLowers(c, s, t, now, th.pc.obj);
    case RollbackBatchCritical(t, now) => RollbackBatchLowers(c, s, t, th.pc.op.tasks, now, th.pc.obj);
    case DoneCritical(t, now) =>
      DrainsDrainable(c, s, t, now, th.pc.obj);
      DoneLowers(c, s, t, now, th.pc.obj);
  }

  lemma SubmitLowers(c: Config, s: System, step: Step)
    requires GoodConfig(c) && Homes(s) && Enabled(c, s, step) && (step.SubmitDirect? || step.SubmitNext?)
    ensures Lowers(c, s, Mover(step), EffectOf(c, s, step))
  {
    var tid := Mover(step);
    assert Fits(s.loc, tid, s.threads[tid].pc);
    if step.SubmitDirect? {
      SubmitDirectLowers(c, s, step.t, step.accept);
    } else {
      SubmitNextLowers(c, s, step.t, s.threads[tid].pc.batch, step.accept);
    }
  }

  lemma OwnLowers(c: Config, s: System, step: Step)
    requires GoodConfig(c) && Inv(c, s) && Enabled(c, s, step) && Own(step)
    ensures Lowers(c, s, Mover(step), EffectOf(c, s, step))
  {
    if IsSection(step) {
      SectionLowers(c, s, step);
    } else if step.SubmitDirect? || step.SubmitNext? {
      SubmitLowers(c, s, step);
    } else {
      NoCollectorHere(c, s, step);
      HelperLowers(c, s, step);
    }
  }

  /** The collector's own steps are made by collectors only. */
  lemma NoCollectorHere(c: Config, s: System, step: Step)
    requires GoodConfig(c) && Inv(c, s) && Enabled(c, s, step) && Own(step)
    ensures !GcStep(step)
  {
    assert Fits(s.loc, Mover(step), s.threads[Mover(step)].pc);
  }

  lemma OwnStep(c: Config, s: System, step: Step)
    requires GoodConfig(c) && Inv(c, s) && Enabled(c, s, step) && Own(step)
    ensures Measure(c, Apply(c, s, step)) < Measure(c, s)
  {
    OwnLowers(c, s, step);
    if step.SubmitDirect? || step.SubmitNext? {
      SpawnIsNew(c, s, step);
    } else {
      OnlySubmitsSpawn(c, s, step);
    }
    CommitCosts(c, s, Mover(step), EffectOf(c, s, step));
  }

  lemma OnlySubmitsSpawn(c: Config, s: System, step: Step)
    requires GoodConfig(c) && Enabled(c, s, step) && !step.Close? && !step.ReleasePool?
    requires !step.SubmitDirect? && !step.SubmitNext?
    ensures EffectOf(c, s, step).spawn.None?
  {
  }

  /** What a collector does costs nobody anything. */
  lemma CollectorStep(c: Config, s: System, step: Step)
    requires GoodConfig(c) && Inv(c, s) && Enabled(c, s, step)
    requires !step.Close? && !step.ReleasePool? && Mover(step).Collector?
    ensures Measure(c, Apply(c, s, step)) == Measure(c, s)
  {
    OnlySubmitsSpawn(c, s, step);
    CommitCosts(c, s, Mover(step), EffectOf(c, s, step));
    if step.Lookup? {
      assert Fits(s.loc, step.tid, s.threads[step.tid].pc);
    }
    CollectorMovesNoTask(c, s, step);
  }

  lemma CollectorMovesNoTask(c: Config, s: System, step: Step)
    requires GoodConfig(c) && Enabled(c, s, step) && !step.Close? && !step.ReleasePool? && Mover(step).Collector?
    ensures EffectOf(c, s, step).loc == s.loc
  {
  }

  /** What the start of a call adds. */
  function Added(c: Config, step: Step): int {
    if step.StartHandle? then 15 + WorkerCost(c) else if step.StartPeek? then 6 else 0
  }

  lemma StartHandleStep(c: Config, s: System, t: Task, now: int)
    requires GoodConfig(c) && Homes(s) && Enabled(c, s, StartHandle(t, now))
    ensures Measure(c, Commit(s, Handler(t), EnterHandle(s, t, now))) <= Measure(c, s) + 15 + WorkerCost(c)
  {
    var e := EnterHandle(s, t, now);
    assert e.spawn.None? && e.owed == [] && Weight(c, e.pc) <= 15 + WorkerCost(c);
    CommitCosts(c, s, Handler(t), e);
    FreshMessage(s, t);
    MoveAhead(c, s.loc, t, Rejected);
  }

  lemma StartPeekStep(c: Config, s: System, tid: Tid)
    requires tid.Reader? && tid !in s.threads
    ensures Measure(c, Commit(s, tid, JustGo(s, WantShard(Peek)))) == Measure(c, s) + 6
  {
    CommitCosts(c, s, tid, JustGo(s, WantShard(Peek)));
  }

  // ---------------------------------------------------------------- every run

  function OwnSteps(run: seq<Step>): nat {
    if run == [] then 0 else (if Own(run[0]) then 1 else 0) + OwnSteps(run[1..])
  }

  function AddedBy(c: Config, run: seq<Step>): int {
    if run == [] then 0 else Added(c, run[0]) + AddedBy(c, run[1..])
  }

  lemma AnyStep(c: Config, s: System, step: Step)
    requires GoodConfig(c) && Inv(c, s) && Enabled(c, s, step)
    ensures Measure(c, Apply(c, s, step)) + (if Own(step) then 1 else 0) <= Measure(c, s) + Added(c, step)
  {
    if Own(step) {
      OwnStep(c, s, step);
    } else if step.StartHandle? {
      StartHandleStep(c, s, step.t, step.now);
    } else if step.StartPeek? {
      StartPeekStep(c, s, Reader(step.k, step.a));
    } else if !step.Close? && !step.ReleasePool? {
      CollectorStep(c, s, step);
    }
  }

  lemma {:induction false} RunBound(c: Config, s: System, run: seq<Step>)
    requires GoodConfig(c) && Inv(c, s) && IsRun(c, s, run)
    ensures OwnSteps(run) + Measure(c, After(c, s, run)) <= Measure(c, s) + AddedBy(c, run)
    decreases |run|
  {
    if run == [] {
    } else {
      AnyStep(c, s, run[0]);
      InvPreserved(c, s, run[0]);
      RunBound(c, Apply(c, s, run[0]), run[1..]);
    }
  }

  function Handles(run: seq<Step>): nat {
    if run == [] then 0 else (if run[0].StartHandle? then 1 else 0) + Handles(run[1..])
  }

  function Peeks(run: seq<Step>): nat {
    if run == [] then 0 else (if run[0].StartPeek? then 1 else 0) + Peeks(run[1..])
  }

  lemma {:induction false} AddedByCounts(c: Config, run: seq<Step>)
    ensures AddedBy(c, run) == (35 + c.perActivityLimit) * Handles(run) + 6 * Peeks(run)
  {
    if run == [] {
    } else {
      AddedByCounts(c, run[1..]);
      Distribute(35 + c.perActivityLimit, if run[0].StartHandle? then 1 else 0, Handles(run[1..]));
    }
  }

  lemma Distribute(k: int, x: int, y: int)
    ensures k * (x + y) == k * x + k * y
  {
  }

  /** NO LIVELOCK. In every run, handlers, workers and readers together make at most 35 plus the
      activity limit steps for each message and six for each mailbox reading, whatever the pool
      refuses and whatever collectors do. */
  lemma {:induction false} NoLivelock(c: Config, run: seq<Step>)
    requires GoodConfig(c) && IsRun(c, Initial(), run)
    ensures OwnSteps(run) <= (35 + c.perActivityLimit) * Handles(run) + 6 * Peeks(run)
  {
    InvInitially(c);
    RunBound(c, Initial(), run);
    AddedByCounts(c, run);
    MeasureNonNegative(c, After(c, Initial(), run));
    assert Costs(c, map[]) == map[] && Aheads(c, map[]) == map[];
  }
}
