/**
  The consumer as a system of interleaved threads (backend/pkg/activityconsumer/consumer.go, gc.go).

  Every thread moves one lock operation, one critical section, one metric update or one pool
  submission at a time, in any order the scheduler likes:
    - a handler is one HandleMessage call;
    - a worker is one task accepted by the pool: it runs the task, then onTaskDone, then submits
      the batch it drained;
    - a reader is one ActivityMailboxLen call;
    - a collector is one runGC pass; any number of them may run.
  The pool may refuse any submission and refuses all of them once it is released.
 */
module ConsumerSystem {
  import opened ActivityStates
  import opened Options

  /** An addition to one of the atomic counters. */
  datatype Metric = Inflight(d: int) | Buffered(d: int) | Active(d: int)

  /** What a thread locks an activity state for. */
  datatype Op = Handle(now: int) | RollbackDirect | RollbackBatch(tasks: seq<Task>) | Done | Peek

  datatype PC =
    // the lock helpers: shard lock first, then state lock, then the shard lock is dropped
    | WantShard(op: Op)
    | HaveShard(op: Op)
    | WantState(op: Op, obj: nat)
    | HaveBoth(op: Op, obj: nat)
    | HaveState(op: Op, obj: nat)
    | Panicked
    // handler
    | Reserved
    | Return(ok: bool)
    // worker
    | Queued
    | Running
    | Submitting(batch: seq<Task>)
    | Finished
    // reader
    | PeekEnd
    // collector
    | GcWantShard(shard: int, at: int)
    | GcScan(shard: int, at: int, todo: set<int>)
    | GcWantState(shard: int, at: int, todo: set<int>, act: int, obj: nat)
    | GcHaveState(shard: int, at: int, todo: set<int>, act: int, obj: nat)
    | GcEnd

  datatype Tid = Handler(task: Task) | Worker(task: Task) | Reader(k: nat, activityId: int) | Collector(k: nat)

  /** `owed` are the counter updates the thread still has to make before its next move. */
  datatype Thread = Thread(pc: PC, owed: seq<Metric>)

  /** The state objects ever allocated, and the shard maps from activity id to state object. */
  datatype Store = Store(objs: map<nat, Slot>, nextObj: nat, states: map<int, nat>)

  /** Where a task is. A history variable: no step looks at it. */
  datatype Loc =
    | InMailbox
    | InBatch(drainer: Task) // drained by that worker, slot reserved, not yet submitted
    | HeldDirect             // its handler reserved a slot and has not yet submitted it
    | InPool                 // accepted by the pool, its slot not yet given back
    | Processed              // its worker gave the slot back
    | Rejected               // HandleMessage returns an error

  /** History variables; the three logs are per activity, in critical-section order. */
  datatype History = History(
    accepted: map<int, seq<Task>>,   // direct or enqueued
    reserved: map<int, seq<Task>>,   // given a slot
    started: map<int, seq<Task>>,    // process called
    refusals: nat)                   // submissions refused by the pool

  datatype Metrics = Metrics(inflight: int, buffered: int, active: int)

  datatype System = System(
    threads: map<Tid, Thread>,
    store: Store,
    loc: map<Task, Loc>,
    hist: History,
    metrics: Metrics,
    closed: bool,
    poolClosed: bool)

  function Initial(): System {
    System(map[], Store(map[], 0, map[]), map[], History(map[], map[], map[], 0), Metrics(0, 0, 0), false, false)
  }

  /** uint64(activityID) % len(shards): two's complement, so negative ids wrap. */
  function ShardOf(c: Config, a: int): int
    requires c.shardCount > 0
  {
    (a % 0x1_0000_0000_0000_0000) % c.shardCount
  }

  function ActivityOf(tid: Tid): int {
    match tid
    case Handler(t) => t.activityId
    case Worker(t) => t.activityId
    case Reader(_, a) => a
    case Collector(_) => 0
  }

  /** The operation a thread is locking for, if it is inside a lock helper. */
  function OpOf(pc: PC): Option<Op> {
    match pc
    case WantShard(op) => Some(op)
    case HaveShard(op) => Some(op)
    case WantState(op, _) => Some(op)
    case HaveBoth(op, _) => Some(op)
    case HaveState(op, _) => Some(op)
    case _ => None
  }

  // ---------------------------------------------------------------- locks

  /** The shard lock a thread at `pc` holds. */
  function ShardHeld(c: Config, tid: Tid, pc: PC): Option<int>
    requires GoodConfig(c)
  {
    match pc
    case HaveShard(_) => Some(ShardOf(c, ActivityOf(tid)))
    case WantState(_, _) => Some(ShardOf(c, ActivityOf(tid)))
    case HaveBoth(_, _) => Some(ShardOf(c, ActivityOf(tid)))
    case GcScan(i, _, _) => Some(i)
    case GcWantState(i, _, _, _, _) => Some(i)
    case GcHaveState(i, _, _, _, _) => Some(i)
    case _ => None
  }

  /** The state lock a thread at `pc` holds. */
  function StateHeld(pc: PC): Option<nat> {
    match pc
    case HaveBoth(_, o) => Some(o)
    case HaveState(_, o) => Some(o)
    case GcHaveState(_, _, _, _, o) => Some(o)
    case _ => None
  }

  ghost predicate ShardFree(c: Config, s: System, i: int)
    requires GoodConfig(c)
  {
    forall tid :: tid in s.threads ==> ShardHeld(c, tid, s.threads[tid].pc) != Some(i)
  }

  ghost predicate StateFree(s: System, o: nat) {
    forall tid :: tid in s.threads ==> StateHeld(s.threads[tid].pc) != Some(o)
  }

  // ---------------------------------------------------------------- one step of one thread

  /** A step of thread `tid` gives it a new place and new debts, may bring a worker to life, and
      changes the shared state. */
  datatype Effect = Effect(pc: PC, owed: seq<Metric>, spawn: Option<Task>, store: Store, loc: map<Task, Loc>,
      hist: History)

  function Commit(s: System, tid: Tid, e: Effect): System {
    var threads := if e.spawn.Some? then s.threads[Worker(e.spawn.value) := Thread(Queued, [])] else s.threads;
    s.(threads := threads[tid := Thread(e.pc, e.owed)], store := e.store, loc := e.loc, hist := e.hist)
  }

  function JustGo(s: System, pc: PC): Effect {
    Effect(pc, [], None, s.store, s.loc, s.hist)
  }

  /** HandleMessage before its first lock. */
  function EnterHandle(s: System, t: Task, now: int): Effect {
    if s.closed then JustGo(s, Return(false)).(loc := s.loc[t := Rejected])
    else JustGo(s, WantShard(Handle(now)))
  }

  /** lockOrCreateState, lockStateIfPresent and lockExistingState between their two locks. */
  function LookUp(s: System, a: int, op: Op): Effect {
    var st := s.store;
    if a in st.states then
      JustGo(s, WantState(op, st.states[a]))
    else if op.Handle? then
      JustGo(s, WantState(op, st.nextObj)).(
        owed := [Active(1)],
        store := Store(st.objs[st.nextObj := Slot(0, [], op.now)], st.nextObj + 1, st.states[a := st.nextObj]))
    else
      JustGo(s, if op.Peek? then PeekEnd else Panicked)
  }

  function SetSlot(st: Store, o: nat, slot: Slot): Store {
    st.(objs := st.objs[o := slot])
  }

  /** The switch of HandleMessage. */
  function HandleSection(c: Config, s: System, t: Task, now: int, o: nat): Effect
    requires o in s.store.objs
  {
    var (slot, d) := Admit(s.store.objs[o], c, t, now);
    var e := JustGo(s, Return(false)).(store := SetSlot(s.store, o, slot));
    match d
    case Direct =>
      e.(pc := Reserved, owed := [Inflight(1)], loc := s.loc[t := HeldDirect],
         hist := Reserve(Accept(s.hist, t), t.activityId, [t]))
    case Enqueued =>
      e.(pc := Return(true), owed := [Buffered(1)], loc := s.loc[t := InMailbox], hist := Accept(s.hist, t))
    case Busy => e.(loc := s.loc[t := Rejected])
    case MailboxFull => e.(loc := s.loc[t := Rejected])
  }

  function RollbackDirectSection(s: System, t: Task, now: int, o: nat): Effect
    requires o in s.store.objs
  {
    Effect(Return(false), [Inflight(-1)], None,
           SetSlot(s.store, o, ReleaseOne(s.store.objs[o], now)), s.loc[t := Rejected], s.hist)
  }

  function RollbackBatchSection(s: System, batch: seq<Task>, now: int, o: nat): Effect
    requires o in s.store.objs
  {
    Effect(Finished, [Inflight(-|batch|), Buffered(|batch|)], None,
           SetSlot(s.store, o, ReleaseBatch(s.store.objs[o], batch, now)),
           MoveAll(s.loc, batch, InMailbox), s.hist)
  }

  function DoneSection(c: Config, s: System, t: Task, now: int, o: nat): Effect
    requires o in s.store.objs
  {
    var (slot, next) := Finish(s.store.objs[o], c.perActivityLimit, now);
    Effect(AfterSubmit(next),
           if next == [] then [Inflight(-1)] else [Inflight(-1), Inflight(|next|), Buffered(-|next|)],
           None,
           SetSlot(s.store, o, slot),
           MoveAll(s.loc[t := Processed], next, InBatch(t)),
           Reserve(s.hist, t.activityId, next))
  }

  function SubmitDirectEffect(s: System, t: Task, accept: bool): Effect {
    if accept then
      JustGo(s, Return(true)).(spawn := Some(t), loc := s.loc[t := InPool])
    else
      JustGo(s, WantShard(RollbackDirect)).(hist := CountRefusal(s.hist))
  }

  function SubmitNextEffect(s: System, batch: seq<Task>, accept: bool): Effect
    requires batch != []
  {
    if accept then
      JustGo(s, AfterSubmit(batch[1..])).(spawn := Some(batch[0]), loc := s.loc[batch[0] := InPool])
    else
      JustGo(s, WantShard(RollbackBatch(batch))).(hist := CountRefusal(s.hist))
  }

  function RunEffect(s: System, t: Task): Effect {
    JustGo(s, Running).(hist := s.hist.(started := Append(s.hist.started, t.activityId, [t])))
  }

  /** runGC's choice under both locks; the lookup re-checks that the entry is still this object. */
  function DecideEffect(c: Config, s: System, pc: PC): Effect
    requires pc.GcHaveState? && pc.obj in s.store.objs
  {
    var st := s.store;
    var e := JustGo(s, GcScan(pc.shard, pc.at, pc.todo - {pc.act}));
    if IsIdle(st.objs[pc.obj], pc.at, c.activityTTL) && pc.act in st.states && st.states[pc.act] == pc.obj then
      e.(owed := [Active(-1)], store := st.(states := st.states - {pc.act}))
    else e
  }

  function AfterSubmit(rest: seq<Task>): PC {
    if rest == [] then Finished else Submitting(rest)
  }

  function MoveAll(loc: map<Task, Loc>, tasks: seq<Task>, to: Loc): map<Task, Loc> {
    map t | t in loc.Keys + (set x | x in tasks) :: if t in tasks then to else loc[t]
  }

  function Bump(m: Metrics, d: Metric): Metrics {
    match d
    case Inflight(n) => m.(inflight := m.inflight + n)
    case Buffered(n) => m.(buffered := m.buffered + n)
    case Active(n) => m.(active := m.active + n)
  }

  function Log(m: map<int, seq<Task>>, a: int): seq<Task> {
    if a in m then m[a] else []
  }

  function Append(m: map<int, seq<Task>>, a: int, tasks: seq<Task>): map<int, seq<Task>> {
    m[a := Log(m, a) + tasks]
  }

  function Accept(h: History, t: Task): History {
    h.(accepted := Append(h.accepted, t.activityId, [t]))
  }

  function Reserve(h: History, a: int, tasks: seq<Task>): History {
    h.(reserved := Append(h.reserved, a, tasks))
  }

  function CountRefusal(h: History): History {
    h.(refusals := h.refusals + 1)
  }

  // ---------------------------------------------------------------- the step relation

  datatype Step =
    | StartHandle(t: Task, now: int)
    | StartPeek(k: nat, a: int)
    | StartCollect(k: nat, now: int)
    | Close
    | ReleasePool
    | AddMetric(tid: Tid)
    | TakeShard(tid: Tid)
    | Lookup(tid: Tid)
    | TakeState(tid: Tid)
    | DropShard(tid: Tid)
    | HandleCritical(t: Task)
    | RollbackDirectCritical(t: Task, now: int)
    | RollbackBatchCritical(t: Task, now: int)
    | DoneCritical(t: Task, now: int)
    | PeekCritical(tid: Tid)
    | SubmitDirect(t: Task, accept: bool)
    | SubmitNext(t: Task, accept: bool)
    | Run(t: Task)
    | ProcessEnd(t: Task)
    | GcTakeShard(tid: Tid)
    | GcPick(tid: Tid, a: int)
    | GcTakeState(tid: Tid)
    | GcDecide(tid: Tid)
    | GcNextShard(tid: Tid)

  predicate At(s: System, tid: Tid) {
    tid in s.threads && s.threads[tid].owed == []
  }

  predicate InSection(s: System, tid: Tid) {
    At(s, tid) && s.threads[tid].pc.HaveState? && s.threads[tid].pc.obj in s.store.objs
  }

  ghost predicate Enabled(c: Config, s: System, step: Step)
    requires GoodConfig(c)
  {
    match step
    case StartHandle(t, _) => Handler(t) !in s.threads
    case StartPeek(k, a) => Reader(k, a) !in s.threads
    case StartCollect(k, _) => Collector(k) !in s.threads
    case Close => true
    case ReleasePool => s.closed
    case AddMetric(tid) => tid in s.threads && s.threads[tid].owed != []
    case TakeShard(tid) =>
      At(s, tid) && s.threads[tid].pc.WantShard? && ShardFree(c, s, ShardOf(c, ActivityOf(tid)))
    case Lookup(tid) => At(s, tid) && s.threads[tid].pc.HaveShard?
    case TakeState(tid) => At(s, tid) && s.threads[tid].pc.WantState? && StateFree(s, s.threads[tid].pc.obj)
    case DropShard(tid) => At(s, tid) && s.threads[tid].pc.HaveBoth?
    case HandleCritical(t) => InSection(s, Handler(t)) && s.threads[Handler(t)].pc.op.Handle?
    case RollbackDirectCritical(t, _) => InSection(s, Handler(t)) && s.threads[Handler(t)].pc.op.RollbackDirect?
    case RollbackBatchCritical(t, _) => InSection(s, Worker(t)) && s.threads[Worker(t)].pc.op.RollbackBatch?
    case DoneCritical(t, _) => InSection(s, Worker(t)) && s.threads[Worker(t)].pc.op.Done?
    case PeekCritical(tid) => InSection(s, tid) && s.threads[tid].pc.op.Peek?
    case SubmitDirect(t, accept) =>
      At(s, Handler(t)) && s.threads[Handler(t)].pc.Reserved? && (accept ==> !s.poolClosed)
    case SubmitNext(t, accept) =>
      At(s, Worker(t)) && s.threads[Worker(t)].pc.Submitting? && s.threads[Worker(t)].pc.batch != [] &&
      (accept ==> !s.poolClosed)
    case Run(t) => At(s, Worker(t)) && s.threads[Worker(t)].pc.Queued?
    case ProcessEnd(t) => At(s, Worker(t)) && s.threads[Worker(t)].pc.Running?
    case GcTakeShard(tid) => At(s, tid) && s.threads[tid].pc.GcWantShard? && ShardFree(c, s, s.threads[tid].pc.shard)
    case GcPick(tid, a) =>
      At(s, tid) && s.threads[tid].pc.GcScan? && a in s.threads[tid].pc.todo && a in s.store.states
    case GcTakeState(tid) => At(s, tid) && s.threads[tid].pc.GcWantState? && StateFree(s, s.threads[tid].pc.obj)
    case GcDecide(tid) => At(s, tid) && s.threads[tid].pc.GcHaveState? && s.threads[tid].pc.obj in s.store.objs
    case GcNextShard(tid) => At(s, tid) && s.threads[tid].pc.GcScan? && s.threads[tid].pc.todo == {}
  }

  /** The thread that makes a step, if the step is not an external event. */
  function Mover(step: Step): Tid
    requires !step.Close? && !step.ReleasePool?
  {
    match step
    case StartHandle(t, _) => Handler(t)
    case StartPeek(k, a) => Reader(k, a)
    case StartCollect(k, _) => Collector(k)
    case HandleCritical(t) => Handler(t)
    case RollbackDirectCritical(t, _) => Handler(t)
    case SubmitDirect(t, _) => Handler(t)
    case RollbackBatchCritical(t, _) => Worker(t)
    case DoneCritical(t, _) => Worker(t)
    case SubmitNext(t, _) => Worker(t)
    case Run(t) => Worker(t)
    case ProcessEnd(t) => Worker(t)
    case AddMetric(tid) => tid
    case TakeShard(tid) => tid
    case Lookup(tid) => tid
    case TakeState(tid) => tid
    case DropShard(tid) => tid
    case PeekCritical(tid) => tid
    case GcTakeShard(tid) => tid
    case GcPick(tid, _) => tid
    case GcTakeState(tid) => tid
    case GcDecide(tid) => tid
    case GcNextShard(tid) => tid
  }

  ghost function EffectOf(c: Config, s: System, step: Step): Effect
    requires GoodConfig(c) && Enabled(c, s, step)
    requires !step.Close? && !step.ReleasePool?
  {
    match step
    case StartHandle(t, now) => EnterHandle(s, t, now)
    case StartPeek(k, a) => JustGo(s, WantShard(Peek))
    case StartCollect(k, now) => JustGo(s, GcWantShard(0, now))
    case AddMetric(tid) => JustGo(s, s.threads[tid].pc).(owed := s.threads[tid].owed[1..])
    case TakeShard(tid) => JustGo(s, HaveShard(s.threads[tid].pc.op))
    case Lookup(tid) => LookUp(s, ActivityOf(tid), s.threads[tid].pc.op)
    case TakeState(tid) => JustGo(s, HaveBoth(s.threads[tid].pc.op, s.threads[tid].pc.obj))
    case DropShard(tid) => JustGo(s, HaveState(s.threads[tid].pc.op, s.threads[tid].pc.obj))
    case HandleCritical(t) =>
      HandleSection(c, s, t, s.threads[Handler(t)].pc.op.now, s.threads[Handler(t)].pc.obj)
    case RollbackDirectCritical(t, now) => RollbackDirectSection(s, t, now, s.threads[Handler(t)].pc.obj)
    case RollbackBatchCritical(t, now) =>
      RollbackBatchSection(s, s.threads[Worker(t)].pc.op.tasks, now, s.threads[Worker(t)].pc.obj)
    case DoneCritical(t, now) => DoneSection(c, s, t, now, s.threads[Worker(t)].pc.obj)
    case PeekCritical(tid) => JustGo(s, PeekEnd)
    case SubmitDirect(t, accept) => SubmitDirectEffect(s, t, accept)
    case SubmitNext(t, accept) => SubmitNextEffect(s, s.threads[Worker(t)].pc.batch, accept)
    case Run(t) => RunEffect(s, t)
    case ProcessEnd(t) => JustGo(s, WantShard(Done))
    case GcTakeShard(tid) =>
      var pc := s.threads[tid].pc;
      JustGo(s, GcScan(pc.shard, pc.at, set a | a in s.store.states && ShardOf(c, a) == pc.shard))
    case GcPick(tid, a) =>
      var pc := s.threads[tid].pc;
      JustGo(s, GcWantState(pc.shard, pc.at, pc.todo, a, s.store.states[a]))
    case GcTakeState(tid) =>
      var pc := s.threads[tid].pc;
      JustGo(s, GcHaveState(pc.shard, pc.at, pc.todo, pc.act, pc.obj))
    case GcDecide(tid) => DecideEffect(c, s, s.threads[tid].pc)
    case GcNextShard(tid) =>
      var pc := s.threads[tid].pc;
      JustGo(s, if pc.shard + 1 < c.shardCount then GcWantShard(pc.shard + 1, pc.at) else GcEnd)
  }

  ghost function Apply(c: Config, s: System, step: Step): System
    requires GoodConfig(c) && Enabled(c, s, step)
  {
    if step.Close? then s.(closed := true)
    else if step.ReleasePool? then s.(poolClosed := true)
    else if step.AddMetric? then
      Commit(s, step.tid, EffectOf(c, s, step)).(metrics := Bump(s.metrics, s.threads[step.tid].owed[0]))
    else Commit(s, Mover(step), EffectOf(c, s, step))
  }

  // ---------------------------------------------------------------- runs

  ghost predicate IsRun(c: Config, s: System, run: seq<Step>)
    requires GoodConfig(c)
    decreases |run|
  {
    run == [] || (Enabled(c, s, run[0]) && IsRun(c, Apply(c, s, run[0]), run[1..]))
  }

  ghost function After(c: Config, s: System, run: seq<Step>): System
    requires GoodConfig(c) && IsRun(c, s, run)
    decreases |run|
  {
    if run == [] then s else After(c, Apply(c, s, run[0]), run[1..])
  }
}
