/** Safety of the consumer over every run, stated on what the program itself can see. */
module ConsumerTheorems {
  import opened ActivityStates
  import opened Collections
  import opened ConsumerSystem
  import opened ConsumerLocks
  import opened ConsumerAccounts
  import opened ConsumerSafety
  import opened ConsumerRuns
  import opened Options

  /** A state that some interleaving reaches from the freshly built consumer. */
  ghost predicate Reachable(c: Config, s: System)
    requires GoodConfig(c)
  {
    exists run: seq<Step> :: IsRun(c, Initial(), run) && After(c, Initial(), run) == s
  }

  lemma ReachableInv(c: Config, s: System)
    requires GoodConfig(c) && Reachable(c, s)
    ensures Inv(c, s)
  {
    var run: seq<Step> :| IsRun(c, Initial(), run) && After(c, Initial(), run) == s;
    InvInitially(c);
    InvAlways(c, Initial(), run);
  }

  // ---------------------------------------------------------------- where a message is

  /** The mailbox of an activity; an activity without a state has none. */
  function MailboxOf(s: System, a: int): seq<Task> {
    if a in s.store.states && s.store.states[a] in s.store.objs then s.store.objs[s.store.states[a]].mailbox else []
  }

  function InflightOf(s: System, a: int): int {
    if a in s.store.states && s.store.states[a] in s.store.objs then s.store.objs[s.store.states[a]].inflight else 0
  }

  /** Its handler has reserved a slot and not yet got rid of it. */
  predicate HeldByHandler(s: System, t: Task) {
    Handler(t) in s.threads &&
    (s.threads[Handler(t)].pc.Reserved? || OpOf(s.threads[Handler(t)].pc) == Some(RollbackDirect))
  }

  /** Worker `u` drained it and has neither submitted nor returned it. */
  predicate CarriedBy(s: System, t: Task, u: Task) {
    Worker(u) in s.threads && t in Carried(s.threads[Worker(u)].pc)
  }

  /** The pool has it and onTaskDone has not released its slot. */
  predicate InWork(s: System, t: Task) {
    Worker(t) in s.threads &&
    (var pc := s.threads[Worker(t)].pc; pc.Queued? || pc.Running? || OpOf(pc) == Some(Done))
  }

  predicate Completed(s: System, t: Task) {
    Worker(t) in s.threads && !InWork(s, t)
  }

  /** HandleMessage for `t` has decided to return nil, or an error. */
  predicate Returned(s: System, t: Task, ok: bool) {
    Handler(t) in s.threads && s.threads[Handler(t)].pc == Return(ok)
  }

  lemma MailboxIsReal(c: Config, s: System, t: Task)
    requires GoodConfig(c) && Inv(c, s)
    ensures t in MailboxOf(s, t.activityId) <==> t in s.loc && s.loc[t].InMailbox?
  {
    assert Agrees(c, SlotAt(SlotsOf(s.store), t.activityId), s.loc, t.activityId);
    assert MailboxOf(s, t.activityId) == SlotAt(SlotsOf(s.store), t.activityId).mailbox;
  }

  lemma BatchIsReal(c: Config, s: System, t: Task, u: Task)
    requires GoodConfig(c) && Inv(c, s)
    ensures CarriedBy(s, t, u) <==> t in s.loc && s.loc[t] == InBatch(u)
  {
    assert Worker(u) in s.threads ==> Fits(s.loc, Worker(u), s.threads[Worker(u)].pc);
    assert t in s.loc ==> Owned(s.threads, s.loc, t);
  }

  /** The history variable tells the truth about the program's own containers. */
  lemma LocIsReal(c: Config, s: System, t: Task)
    requires GoodConfig(c) && Inv(c, s)
    ensures t in MailboxOf(s, t.activityId) <==> t in s.loc && s.loc[t].InMailbox?
    ensures HeldByHandler(s, t) <==> t in s.loc && s.loc[t].HeldDirect?
    ensures InWork(s, t) <==> t in s.loc && s.loc[t].InPool?
    ensures Completed(s, t) <==> t in s.loc && s.loc[t].Processed?
    ensures forall u: Task :: CarriedBy(s, t, u) <==> t in s.loc && s.loc[t] == InBatch(u)
  {
    MailboxIsReal(c, s, t);
    forall u: Task { BatchIsReal(c, s, t, u); }
    assert Handler(t) in s.threads ==> Fits(s.loc, Handler(t), s.threads[Handler(t)].pc);
    assert Worker(t) in s.threads ==> Fits(s.loc, Worker(t), s.threads[Worker(t)].pc);
    assert t in s.loc ==> Owned(s.threads, s.loc, t);
  }

  /** A mailbox holds only its own activity's messages, each once. */
  lemma MailboxOwn(c: Config, s: System, a: int)
    requires GoodConfig(c) && Inv(c, s)
    ensures Distinct(MailboxOf(s, a)) && forall t :: t in MailboxOf(s, a) ==> t.activityId == a
  {
    assert Agrees(c, SlotAt(SlotsOf(s.store), a), s.loc, a);
    assert MailboxOf(s, a) == SlotAt(SlotsOf(s.store), a).mailbox;
  }

  /** Where the program keeps a message that it answers for. */
  datatype Place = Mailbox(activityId: int) | Batch(worker: Task) | Pool | Ended

  predicate IsIn(s: System, t: Task, p: Place) {
    match p
    case Mailbox(a) => t in MailboxOf(s, a)
    case Batch(u) => CarriedBy(s, t, u)
    case Pool => InWork(s, t)
    case Ended => Completed(s, t)
  }

  predicate Placed(l: Loc) {
    l.InMailbox? || l.InBatch? || l.InPool? || l.Processed?
  }

  function PlaceOf(l: Loc, t: Task): Place
    requires Placed(l)
  {
    match l
    case InMailbox => Mailbox(t.activityId)
    case InBatch(u) => Batch(u)
    case InPool => Pool
    case Processed => Ended
  }

  lemma OnlyPlace(c: Config, s: System, t: Task, p: Place)
    requires GoodConfig(c) && Inv(c, s)
    ensures IsIn(s, t, p) <==> t in s.loc && Placed(s.loc[t]) && p == PlaceOf(s.loc[t], t)
  {
    LocIsReal(c, s, t);
    if p.Mailbox? {
      MailboxOwn(c, s, p.activityId);
    }
  }

  /** CONSERVATION. In every reachable state a message accepted with nil is in exactly one place: its
      activity's mailbox, the batch of one worker, the pool, or completed. A message whose
      HandleMessage returns an error is in none, and so is never processed. */
  lemma MessageConservation(c: Config, s: System, t: Task)
    requires GoodConfig(c) && Reachable(c, s)
    ensures Returned(s, t, true) ==> exists p: Place :: IsIn(s, t, p) && forall q: Place :: IsIn(s, t, q) ==> q == p
    ensures forall p: Place, q: Place :: IsIn(s, t, p) && IsIn(s, t, q) ==> p == q
    ensures Returned(s, t, false) || Handler(t) !in s.threads ==>
            !HeldByHandler(s, t) && forall p: Place :: !IsIn(s, t, p)
  {
    ReachableInv(c, s);
    assert Handler(t) in s.threads ==> Fits(s.loc, Handler(t), s.threads[Handler(t)].pc);
    assert t in s.loc ==> Owned(s.threads, s.loc, t);
    forall p: Place { OnlyPlace(c, s, t, p); }
    if Returned(s, t, true) {
      assert IsIn(s, t, PlaceOf(s.loc[t], t));
    }
  }

  /** Nor is a message twice in one place. */
  lemma NoCopies(c: Config, s: System, t: Task)
    requires GoodConfig(c) && Reachable(c, s)
    ensures Distinct(MailboxOf(s, t.activityId))
    ensures Worker(t) in s.threads ==> Distinct(Carried(s.threads[Worker(t)].pc))
  {
    ReachableInv(c, s);
    MailboxOwn(c, s, t.activityId);
    assert Worker(t) in s.threads ==> Fits(s.loc, Worker(t), s.threads[Worker(t)].pc);
  }

  /** Nothing is lost at rest: once every thread has come to its end, each accepted message has
      been completed or waits in its mailbox. */
  lemma RestConservation(c: Config, s: System, t: Task)
    requires GoodConfig(c) && Reachable(c, s) && Returned(s, t, true)
    requires forall u: Task :: Worker(u) in s.threads ==> s.threads[Worker(u)].pc.Finished?
    ensures Completed(s, t) <==> t !in MailboxOf(s, t.activityId)
  {
    ReachableInv(c, s);
    LocIsReal(c, s, t);
    assert Handler(t) in s.threads && Fits(s.loc, Handler(t), s.threads[Handler(t)].pc);
    assert t in s.loc && Owned(s.threads, s.loc, t);
    assert forall u: Task :: !CarriedBy(s, t, u);
  }

  /** The panic of lockExistingState is unreachable. */
  lemma NoPanic(c: Config, s: System)
    requires GoodConfig(c) && Reachable(c, s)
    ensures forall tid :: tid in s.threads ==> !s.threads[tid].pc.Panicked?
  {
    ReachableInv(c, s);
    forall tid | tid in s.threads
      ensures !s.threads[tid].pc.Panicked?
    {
      assert Fits(s.loc, tid, s.threads[tid].pc);
    }
  }

  // ---------------------------------------------------------------- slots

  /** The tasks of `a` that occupy one of its slots, read off the threads. */
  ghost predicate Occupies(s: System, t: Task, a: int) {
    t.activityId == a && (HeldByHandler(s, t) || InWork(s, t) || exists u: Task :: CarriedBy(s, t, u))
  }

  /** SLOT ACCOUNTING. `inflight` is exactly the number of tasks held by a handler, carried in a
      drained batch or in work, and never exceeds the limit. Mailbox and drained tasks together are
      bounded even when the pool refuses. */
  lemma SlotAccounting(c: Config, s: System, a: int)
    requires GoodConfig(c) && Reachable(c, s)
    ensures forall t: Task :: t in Holding(s.loc, a) <==> Occupies(s, t, a)
    ensures 0 <= InflightOf(s, a) == |Holding(s.loc, a)| <= c.perActivityLimit
    ensures forall t: Task :: t in Batched(s.loc, a) <==> t.activityId == a && exists u: Task :: CarriedBy(s, t, u)
    ensures |MailboxOf(s, a)| + |Batched(s.loc, a)| <= c.perActivityMailboxSize + c.perActivityLimit
  {
    ReachableInv(c, s);
    assert Agrees(c, SlotAt(SlotsOf(s.store), a), s.loc, a);
    forall t: Task
      ensures t in Holding(s.loc, a) <==> Occupies(s, t, a)
      ensures t in Batched(s.loc, a) <==> t.activityId == a && exists u: Task :: CarriedBy(s, t, u)
    {
      LocIsReal(c, s, t);
      if t in s.loc && s.loc[t].InBatch? {
        assert CarriedBy(s, t, s.loc[t].drainer);
      }
    }
  }

  /** The clamps in both rollbacks and in onTaskDone never fire. */
  lemma ClampsNeverFire(c: Config, s: System, step: Step)
    requires GoodConfig(c) && Reachable(c, s) && Enabled(c, s, step)
    ensures step.RollbackDirectCritical? ==> InflightOf(s, step.t.activityId) > 0
    ensures step.DoneCritical? ==> InflightOf(s, step.t.activityId) > 0
    ensures step.RollbackBatchCritical? ==>
              InflightOf(s, step.t.activityId) >= |s.threads[Worker(step.t)].pc.op.tasks|
    ensures step.RollbackDirectCritical? || step.DoneCritical? || step.RollbackBatchCritical? ||
            step.HandleCritical? ==>
              var a := ActivityOf(Mover(step));
              a in s.store.states && s.store.states[a] == s.threads[Mover(step)].pc.obj
  {
    ReachableInv(c, s);
    if step.RollbackDirectCritical? || step.DoneCritical? || step.RollbackBatchCritical? || step.HandleCritical? {
      var tid := Mover(step);
      var a := ActivityOf(tid);
      var slot := s.store.objs[s.threads[tid].pc.obj];
      SectionCurrent(c, s, tid);
      assert Fits(s.loc, tid, s.threads[tid].pc);
      if step.RollbackBatchCritical? {
        RollbackBatchKeeps(c, slot, s.loc, a, s.threads[tid].pc.op.tasks, 0);
      } else if !step.HandleCritical? {
        ReleaseKeeps(c, slot, s.loc, step.t, if step.DoneCritical? then Processed else Rejected, 0);
      }
    }
  }

  // ---------------------------------------------------------------- the collector

  /** Somebody holds a slot of `a` or waits in its mailbox. */
  predicate Busy(s: System, a: int) {
    InflightOf(s, a) > 0 || MailboxOf(s, a) != []
  }

  lemma CollectPins(c: Config, s: System, tid: Tid, a: int)
    requires GoodConfig(c) && Inv(c, s) && Enabled(c, s, GcDecide(tid)) && Busy(s, a)
    ensures var st := DecideEffect(c, s, s.threads[tid].pc).store;
            a in st.states && st.states[a] == s.store.states[a]
  {
    assert PointsIntoStore(c, s.store, tid, s.threads[tid].pc);
  }

  lemma BusyPinned(c: Config, s: System, step: Step, a: int)
    requires GoodConfig(c) && Inv(c, s) && Enabled(c, s, step) && Busy(s, a)
    ensures a in s.store.states
    ensures a in Apply(c, s, step).store.states && Apply(c, s, step).store.states[a] == s.store.states[a]
  {
    if step.GcDecide? {
      CollectPins(c, s, step.tid, a);
    } else if !step.Lookup? && !step.Close? && !step.ReleasePool? {
      MapsKept(c, s, step);
    }
  }

  /** At every state along the run somebody needs `a`. */
  ghost predicate BusyAlong(c: Config, s: System, run: seq<Step>, a: int)
    requires GoodConfig(c) && IsRun(c, s, run)
    decreases |run|
  {
    Busy(s, a) && (run != [] ==> BusyAlong(c, Apply(c, s, run[0]), run[1..], a))
  }

  /** COLLECTOR SAFETY. While any slot or mailbox entry of an activity is outstanding, its state
      object stays in its shard map and is never replaced, whatever collectors do. */
  lemma {:induction false} StatePinned(c: Config, s: System, run: seq<Step>, a: int)
    requires GoodConfig(c) && Reachable(c, s) && IsRun(c, s, run) && BusyAlong(c, s, run, a)
    ensures var s' := After(c, s, run);
            a in s.store.states && a in s'.store.states && s'.store.states[a] == s.store.states[a]
  {
    ReachableInv(c, s);
    PinnedAlong(c, s, run, a);
  }

  lemma {:induction false} PinnedAlong(c: Config, s: System, run: seq<Step>, a: int)
    requires GoodConfig(c) && Inv(c, s) && IsRun(c, s, run) && BusyAlong(c, s, run, a)
    ensures var s' := After(c, s, run);
            a in s.store.states && a in s'.store.states && s'.store.states[a] == s.store.states[a]
    decreases |run|
  {
    if run == [] {
      assert a in s.store.states;
    } else {
      BusyPinned(c, s, run[0], a);
      InvPreserved(c, s, run[0]);
      PinnedAlong(c, Apply(c, s, run[0]), run[1..], a);
    }
  }

  /** An activity with no slot taken and an empty mailbox has no task anywhere. */
  lemma NotBusyMeansUnused(c: Config, s: System, t: Task)
    requires GoodConfig(c) && Reachable(c, s) && !Busy(s, t.activityId)
    ensures t !in MailboxOf(s, t.activityId) && !HeldByHandler(s, t) && !InWork(s, t)
    ensures forall u: Task :: !CarriedBy(s, t, u)
  {
    SlotAccounting(c, s, t.activityId);
    assert !Occupies(s, t, t.activityId) by {
      assert Holding(s.loc, t.activityId) == {};
    }
  }

  /** A collector removes an entry only when its activity has no task anywhere. */
  lemma CollectedIsUnused(c: Config, s: System, tid: Tid, t: Task)
    requires GoodConfig(c) && Reachable(c, s) && Enabled(c, s, GcDecide(tid))
    requires t.activityId in s.store.states && t.activityId !in Apply(c, s, GcDecide(tid)).store.states
    ensures t !in MailboxOf(s, t.activityId) && !HeldByHandler(s, t) && !InWork(s, t)
    ensures forall u: Task :: !CarriedBy(s, t, u)
  {
    NotBusyMeansUnused(c, s, t);
  }
}
