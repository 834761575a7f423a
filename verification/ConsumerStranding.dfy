/**
  A reachable stranding: a run in which the pool refuses one submission, every thread comes to its end,
  and an accepted message is left waiting beside free slots.
 */
module ConsumerStranding {
  import opened ActivityStates
  import opened ConsumerSystem
  import opened ConsumerTheorems
  import opened ConsumerProgress
  import opened Options

  // ---------------------------------------------------------------- building a run

  lemma {:induction false} RunAppend(c: Config, s: System, run: seq<Step>, step: Step)
    requires GoodConfig(c) && IsRun(c, s, run) && Enabled(c, After(c, s, run), step)
    ensures IsRun(c, s, run + [step]) && After(c, s, run + [step]) == Apply(c, After(c, s, run), step)
    decreases |run|
  {
    if run == [] {
      assert ([] + [step])[1..] == [];
    } else {
      RunAppend(c, Apply(c, s, run[0]), run[1..], step);
      assert (run + [step])[1..] == run[1..] + [step];
    }
  }

  lemma Next(c: Config, s: System, step: Step)
    requires GoodConfig(c) && Reachable(c, s) && Enabled(c, s, step)
    ensures Reachable(c, Apply(c, s, step))
  {
    var run: seq<Step> :| IsRun(c, Initial(), run) && After(c, Initial(), run) == s;
    RunAppend(c, Initial(), run, step);
  }

  /** The shared state apart from counters and history. */
  ghost predicate Is(s: System, threads: map<Tid, Thread>, store: Store, loc: map<Task, Loc>) {
    s.threads == threads && s.store == store && s.loc == loc && !s.closed && !s.poolClosed
  }

  /** No thread but this one holds a lock. */
  ghost predicate Alone(c: Config, threads: map<Tid, Thread>, tid: Tid)
    requires GoodConfig(c)
  {
    tid in threads && forall x :: x in threads && x != tid ==>
      ShardHeld(c, x, threads[x].pc).None? && StateHeld(threads[x].pc).None?
  }

  lemma {:induction false} Pay(c: Config, s: System, tid: Tid) returns (s': System)
    requires GoodConfig(c) && Reachable(c, s) && tid in s.threads && !s.closed && !s.poolClosed
    ensures Reachable(c, s') && Is(s', s.threads[tid := Thread(s.threads[tid].pc, [])], s.store, s.loc)
    decreases |s.threads[tid].owed|
  {
    if s.threads[tid].owed == [] {
      s' := s;
      assert s.threads[tid := Thread(s.threads[tid].pc, [])] == s.threads;
    } else {
      Next(c, s, AddMetric(tid));
      var s1 := Apply(c, s, AddMetric(tid));
      s' := Pay(c, s1, tid);
      assert s1.threads[tid := Thread(s.threads[tid].pc, [])] == s.threads[tid := Thread(s.threads[tid].pc, [])];
    }
  }

  /** A thread takes the shard lock and finds or creates the state. */
  lemma TakeAndLookUp(c: Config, s: System, tid: Tid, op: Op) returns (s': System)
    requires GoodConfig(c) && Reachable(c, s) && Alone(c, s.threads, tid) && s.threads[tid] == Thread(WantShard(op), [])
    requires !s.closed && !s.poolClosed && (op.Handle? || ActivityOf(tid) in s.store.states)
    ensures Reachable(c, s')
    ensures var e := LookUp(s, ActivityOf(tid), op); Is(s', s.threads[tid := Thread(e.pc, [])], e.store, s.loc)
  {
    Next(c, s, TakeShard(tid));
    var s1 := Apply(c, s, TakeShard(tid));
    Next(c, s1, Lookup(tid));
    var s2 := Apply(c, s1, Lookup(tid));
    var e := LookUp(s, ActivityOf(tid), op);
    assert s2.threads[tid := Thread(e.pc, [])] == s.threads[tid := Thread(e.pc, [])];
    s' := Pay(c, s2, tid);
  }

  /** It takes the state lock and lets go of the shard lock. */
  lemma TakeStateLock(c: Config, s: System, tid: Tid, op: Op, o: nat) returns (s': System)
    requires GoodConfig(c) && Reachable(c, s) && Alone(c, s.threads, tid) &&
             s.threads[tid] == Thread(WantState(op, o), [])
    requires !s.closed && !s.poolClosed
    ensures Reachable(c, s') && Is(s', s.threads[tid := Thread(HaveState(op, o), [])], s.store, s.loc)
  {
    Next(c, s, TakeState(tid));
    var s1 := Apply(c, s, TakeState(tid));
    Next(c, s1, DropShard(tid));
    s' := Apply(c, s1, DropShard(tid));
    assert s1.threads[tid := Thread(HaveState(op, o), [])] == s.threads[tid := Thread(HaveState(op, o), [])];
  }

  lemma Lock(c: Config, s: System, tid: Tid, op: Op, a: int) returns (s': System)
    requires GoodConfig(c) && Reachable(c, s) && Alone(c, s.threads, tid) && s.threads[tid] == Thread(WantShard(op), [])
    requires !s.closed && !s.poolClosed && a == ActivityOf(tid) && (op.Handle? || a in s.store.states)
    ensures var o := if a in s.store.states then s.store.states[a] else s.store.nextObj;
            && Reachable(c, s')
            && Is(s', s.threads[tid := Thread(HaveState(op, o), [])], LookUp(s, a, op).store, s.loc)
  {
    var s1 := TakeAndLookUp(c, s, tid, op);
    var o := if a in s.store.states then s.store.states[a] else s.store.nextObj;
    s' := TakeStateLock(c, s1, tid, op, o);
    assert s1.threads[tid := Thread(HaveState(op, o), [])] == s.threads[tid := Thread(HaveState(op, o), [])];
  }

  // ---------------------------------------------------------------- the story

  function One(a: int, slot: Slot): Store {
    Store(map[0 := slot], 1, map[a := 0])
  }

  const GONE := Thread(Return(true), [])

  lemma Fresh(c: Config)
    requires GoodConfig(c)
    ensures Reachable(c, Initial())
  {
    assert IsRun(c, Initial(), []) && After(c, Initial(), []) == Initial();
  }

  /** The first message gets the only slot, */
  lemma FirstAdmitted(c: Config, x: Task) returns (s: System)
    requires GoodConfig(c) && c.perActivityLimit == 1
    ensures Reachable(c, s)
    ensures Is(s, map[Handler(x) := Thread(Reserved, [])], One(x.activityId, Slot(1, [], 0)), map[x := HeldDirect])
  {
    Fresh(c);
    Next(c, Initial(), StartHandle(x, 0));
    var s1 := Lock(c, Apply(c, Initial(), StartHandle(x, 0)), Handler(x), Handle(0), x.activityId);
    assert s1.store == One(x.activityId, Slot(0, [], 0));
    Next(c, s1, HandleCritical(x));
    var s2 := Apply(c, s1, HandleCritical(x));
    assert s2.store == One(x.activityId, Slot(1, [], 0));
    s := Pay(c, s2, Handler(x));
    assert s.threads == map[Handler(x) := Thread(Reserved, [])];
  }

  /** and the pool takes it. */
  lemma FirstSubmitted(c: Config, x: Task) returns (s: System)
    requires GoodConfig(c) && c.perActivityLimit == 1
    ensures Reachable(c, s)
    ensures Is(s, map[Handler(x) := GONE, Worker(x) := Thread(Queued, [])], One(x.activityId, Slot(1, [], 0)),
            map[x := InPool])
  {
    var s0 := FirstAdmitted(c, x);
    Next(c, s0, SubmitDirect(x, true));
    s := Apply(c, s0, SubmitDirect(x, true));
    assert s.threads == map[Handler(x) := GONE, Worker(x) := Thread(Queued, [])];
  }

  /** Threads x and y belong to messages of one activity. */
  predicate Pair(c: Config, x: Task, y: Task) {
    GoodConfig(c) && c.perActivityLimit == 1 && c.perActivityMailboxSize >= 1 && x != y && x.activityId == y.activityId
  }

  function Threads(x: Task, y: Task, pc: PC): map<Tid, Thread> {
    map[Handler(x) := GONE, Worker(x) := Thread(pc, []), Handler(y) := GONE]
  }

  /** The second finds no slot, */
  lemma SecondLocks(c: Config, x: Task, y: Task) returns (s: System)
    requires Pair(c, x, y)
    ensures Reachable(c, s)
    ensures Is(s, Threads(x, y, Queued)[Handler(y) := Thread(HaveState(Handle(0), 0), [])],
               One(x.activityId, Slot(1, [], 0)), map[x := InPool])
  {
    var s0 := FirstSubmitted(c, x);
    Next(c, s0, StartHandle(y, 0));
    var s1 := Apply(c, s0, StartHandle(y, 0));
    s := Lock(c, s1, Handler(y), Handle(0), y.activityId);
    assert s.threads == Threads(x, y, Queued)[Handler(y) := Thread(HaveState(Handle(0), 0), [])];
  }

  /** and waits in the mailbox. */
  lemma SecondWaits(c: Config, x: Task, y: Task) returns (s: System)
    requires Pair(c, x, y)
    ensures Reachable(c, s)
    ensures Is(s, Threads(x, y, Queued), One(x.activityId, Slot(1, [y], 0)), map[x := InPool, y := InMailbox])
  {
    var s0 := SecondLocks(c, x, y);
    Next(c, s0, HandleCritical(y));
    var s1 := Apply(c, s0, HandleCritical(y));
    assert [] + [y] == [y] && s1.store == One(x.activityId, Slot(1, [y], 0));
    s := Pay(c, s1, Handler(y));
    assert s.threads == Threads(x, y, Queued);
  }

  /** The first is processed, */
  lemma FirstProcessed(c: Config, x: Task, y: Task) returns (s: System)
    requires Pair(c, x, y)
    ensures Reachable(c, s)
    ensures Is(s, Threads(x, y, WantShard(Op.Done)), One(x.activityId, Slot(1, [y], 0)),
            map[x := InPool, y := InMailbox])
  {
    var s0 := SecondWaits(c, x, y);
    Next(c, s0, Run(x));
    var s1 := Apply(c, s0, Run(x));
    Next(c, s1, ProcessEnd(x));
    s := Apply(c, s1, ProcessEnd(x));
    assert s.threads == Threads(x, y, WantShard(Op.Done));
  }

  /** takes the locks of onTaskDone, */
  lemma FirstLocks(c: Config, x: Task, y: Task) returns (s: System)
    requires Pair(c, x, y)
    ensures Reachable(c, s)
    ensures Is(s, Threads(x, y, HaveState(Op.Done, 0)), One(x.activityId, Slot(1, [y], 0)),
            map[x := InPool, y := InMailbox])
  {
    var s0 := FirstProcessed(c, x, y);
    s := Lock(c, s0, Worker(x), Op.Done, x.activityId);
    assert s.threads == Threads(x, y, HaveState(Op.Done, 0));
  }

  lemma DrainsSecond(y: Task)
    ensures Finish(Slot(1, [y], 0), 1, 0) == (Slot(1, [], 0), [y])
  {
    assert [y][..1] == [y] && [y][1..] == [];
  }

  /** drains the second under them, */
  lemma FirstDrainsLocked(c: Config, x: Task, y: Task) returns (s: System)
    requires Pair(c, x, y)
    ensures Reachable(c, s) && Worker(x) in s.threads && s.threads[Worker(x)].pc == Submitting([y])
    ensures Is(s, Threads(x, y, Queued)[Worker(x) := s.threads[Worker(x)]], One(x.activityId, Slot(1, [], 0)),
               map[x := Processed, y := InBatch(x)])
  {
    var s0 := FirstLocks(c, x, y);
    Next(c, s0, DoneCritical(x, 0));
    s := Apply(c, s0, DoneCritical(x, 0));
    DoneEffect(c, s0, x, y);
  }

  lemma DoneEffect(c: Config, s: System, x: Task, y: Task)
    requires Pair(c, x, y) && s.store == One(x.activityId, Slot(1, [y], 0)) && s.loc == map[x := InPool, y := InMailbox]
    ensures var e := DoneSection(c, s, x, 0, 0);
            && e.pc == Submitting([y]) && e.spawn.None?
            && e.store == One(x.activityId, Slot(1, [], 0)) && e.loc == map[x := Processed, y := InBatch(x)]
  {
    DrainsSecond(y);
    MovesSecond(x, y);
    assert s.store.objs[0] == Slot(1, [y], 0);
    assert SetSlot(s.store, 0, Slot(1, [], 0)) == One(x.activityId, Slot(1, [], 0));
  }

  lemma MovesSecond(x: Task, y: Task)
    requires x != y
    ensures MoveAll(map[x := InPool, y := InMailbox][x := Processed], [y], InBatch(x)) ==
            map[x := Processed, y := InBatch(x)]
  {
    assert y in [y] && x !in [y];
  }

  /** and adds to the counters. */
  lemma FirstDrains(c: Config, x: Task, y: Task) returns (s: System)
    requires Pair(c, x, y)
    ensures Reachable(c, s)
    ensures Is(s, Threads(x, y, Submitting([y])), One(x.activityId, Slot(1, [], 0)),
            map[x := Processed, y := InBatch(x)])
  {
    var s0 := FirstDrainsLocked(c, x, y);
    s := Pay(c, s0, Worker(x));
    assert s.threads == Threads(x, y, Submitting([y]));
  }

  /** The pool refuses it, */
  lemma SecondRefused(c: Config, x: Task, y: Task) returns (s: System)
    requires Pair(c, x, y)
    ensures Reachable(c, s)
    ensures Is(s, Threads(x, y, WantShard(RollbackBatch([y]))), One(x.activityId, Slot(1, [], 0)),
               map[x := Processed, y := InBatch(x)])
  {
    var s0 := FirstDrains(c, x, y);
    Next(c, s0, SubmitNext(x, false));
    s := Apply(c, s0, SubmitNext(x, false));
    assert s.threads == Threads(x, y, WantShard(RollbackBatch([y])));
  }

  /** the worker takes the locks of the rollback, */
  lemma RollbackLocks(c: Config, x: Task, y: Task) returns (s: System)
    requires Pair(c, x, y)
    ensures Reachable(c, s)
    ensures Is(s, Threads(x, y, HaveState(RollbackBatch([y]), 0)), One(x.activityId, Slot(1, [], 0)),
               map[x := Processed, y := InBatch(x)])
  {
    var s0 := SecondRefused(c, x, y);
    s := Lock(c, s0, Worker(x), RollbackBatch([y]), x.activityId);
    assert s.threads == Threads(x, y, HaveState(RollbackBatch([y]), 0));
  }

  /** and it goes back to the mailbox. */
  lemma SecondReturned(c: Config, x: Task, y: Task) returns (s: System)
    requires Pair(c, x, y)
    ensures Reachable(c, s)
    ensures Is(s, Threads(x, y, Finished), One(x.activityId, Slot(0, [y], 0)), map[x := Processed, y := InMailbox])
  {
    var s0 := RollbackLocks(c, x, y);
    Next(c, s0, RollbackBatchCritical(x, 0));
    var s1 := Apply(c, s0, RollbackBatchCritical(x, 0));
    assert [y] + [] == [y] && s1.store == One(x.activityId, Slot(0, [y], 0));
    assert s1.loc == map[x := Processed, y := InMailbox];
    s := Pay(c, s1, Worker(x));
    assert s.threads == Threads(x, y, Finished);
  }

  /** STRANDING. With limit one the pool accepts a first message and refuses the second when its turn
      comes. All threads have ended, no slot is taken, and the second message, accepted with nil, waits. */
  lemma StrandingReachable(c: Config, x: Task, y: Task) returns (s: System)
    requires Pair(c, x, y)
    ensures Reachable(c, s) && Returned(s, y, true)
    ensures forall tid :: tid in s.threads ==> ConsumerProgress.Ended(s, tid)
    ensures InflightOf(s, y.activityId) == 0 && MailboxOf(s, y.activityId) == [y] && !Completed(s, y)
  {
    s := SecondReturned(c, x, y);
  }
}
