/**
  Order of processing. A refused submission reorders and may strand messages (see
  ActivityStates.RefusalStrands), so first-in first-out and work conservation are stated for runs
  in which the pool has refused nothing so far. At-most-once processing needs no such condition.
 */
module ConsumerOrder {
  import opened ActivityStates
  import opened Collections
  import opened ConsumerSystem
  import opened ConsumerLocks
  import opened ConsumerAccounts
  import opened ConsumerSafety
  import opened ConsumerRuns
  import opened ConsumerTheorems

  // ---------------------------------------------------------------- started at most once

  /** process has been called for `t`. */
  predicate Begun(s: System, t: Task) {
    Worker(t) in s.threads && !s.threads[Worker(t)].pc.Queued?
  }

  ghost predicate StartLog(s: System, a: int) {
    var log := Log(s.hist.started, a);
    Distinct(log) && forall t: Task :: t in log <==> t.activityId == a && Begun(s, t)
  }

  ghost predicate StartLogs(s: System) {
    forall a: int :: StartLog(s, a)
  }

  lemma BegunCommit(s: System, tid: Tid, e: Effect, t: Task)
    requires e.spawn.Some? ==> Worker(e.spawn.value) !in s.threads && Worker(e.spawn.value) != tid
    requires tid.Worker? ==> tid in s.threads && (e.pc.Queued? <==> s.threads[tid].pc.Queued?)
    ensures Begun(Commit(s, tid, e), t) <==> Begun(s, t)
  {
  }

  lemma NeverQueuedAgain(c: Config, s: System, step: Step)
    requires GoodConfig(c) && Enabled(c, s, step) && !step.Run? && !step.Close? && !step.ReleasePool? && !IsMove(step)
    ensures Mover(step).Worker? ==> Mover(step) in s.threads && !s.threads[Mover(step)].pc.Queued?
    ensures !EffectOf(c, s, step).pc.Queued?
    ensures EffectOf(c, s, step).spawn.Some? ==> step.SubmitDirect? || step.SubmitNext?
  {
  }

  lemma BegunKept(c: Config, s: System, step: Step, t: Task)
    requires GoodConfig(c) && Homes(s) && Enabled(c, s, step) && !step.Run?
    ensures Begun(Apply(c, s, step), t) <==> Begun(s, t)
  {
    if !step.Close? && !step.ReleasePool? {
      if IsMove(step) {
        MovesChangeNothing(c, s, step);
      } else {
        NeverQueuedAgain(c, s, step);
        if step.SubmitDirect? || step.SubmitNext? {
          SpawnIsNew(c, s, step);
        }
      }
      BegunCommit(s, Mover(step), EffectOf(c, s, step), t);
    }
  }

  /** Which logs a step may extend. */
  lemma LogsKept(c: Config, s: System, step: Step)
    requires GoodConfig(c) && Enabled(c, s, step)
    ensures var h := Apply(c, s, step).hist;
            && (!step.Run? ==> h.started == s.hist.started)
            && (!IsSection(step) ==> h.accepted == s.hist.accepted && h.reserved == s.hist.reserved)
            && h.refusals >= s.hist.refusals
  {
    if IsMove(step) {
      MovesChangeNothing(c, s, step);
    }
  }

  lemma StartLogsPreserved(c: Config, s: System, step: Step)
    requires GoodConfig(c) && Homes(s) && StartLogs(s) && Enabled(c, s, step)
    ensures StartLogs(Apply(c, s, step))
  {
    var s' := Apply(c, s, step);
    forall a: int
      ensures StartLog(s', a)
    {
      assert StartLog(s, a);
      if step.Run? {
        assert forall t: Task :: Begun(s', t) <==> Begun(s, t) || t == step.t;
      } else {
        LogsKept(c, s, step);
        forall t: Task { BegunKept(c, s, step, t); }
      }
    }
  }

  lemma {:induction false} StartLogsAlways(c: Config, s: System, run: seq<Step>)
    requires GoodConfig(c) && Inv(c, s) && IsRun(c, s, run) && StartLogs(s)
    ensures StartLogs(After(c, s, run))
    decreases |run|
  {
    if run == [] {
    } else {
      StartLogsPreserved(c, s, run[0]);
      InvPreserved(c, s, run[0]);
      StartLogsAlways(c, Apply(c, s, run[0]), run[1..]);
    }
  }

  /** AT MOST ONCE. process is called at most once per message, never for a message whose
      HandleMessage returned an error, and exactly once for each completed one. */
  lemma ProcessedAtMostOnce(c: Config, s: System, t: Task, a: int)
    requires GoodConfig(c) && Reachable(c, s)
    ensures Distinct(Log(s.hist.started, a))
    ensures t in Log(s.hist.started, a) ==> t.activityId == a && !Returned(s, t, false)
    ensures Completed(s, t) ==> t in Log(s.hist.started, t.activityId)
  {
    var run: seq<Step> :| IsRun(c, Initial(), run) && After(c, Initial(), run) == s;
    InvInitially(c);
    StartLogsAlways(c, Initial(), run);
    assert StartLog(s, a) && StartLog(s, t.activityId);
    MessageConservation(c, s, t);
    assert Worker(t) in s.threads ==> IsIn(s, t, Pool) || IsIn(s, t, Ended);
  }

  lemma HeadCommitted(s: System, t: Task, batch: seq<Task>)
    requires batch != [] && Worker(t) in s.threads && Worker(batch[0]) !in s.threads
    ensures var s' := Commit(s, Worker(t), SubmitNextEffect(s, batch, true));
            && Worker(batch[0]) in s'.threads && s'.threads[Worker(batch[0])] == Thread(Queued, [])
            && Worker(t) in s'.threads && Carried(s'.threads[Worker(t)].pc) == batch[1..]
  {
    assert Worker(t) != Worker(batch[0]);
  }

  /** A worker hands its batch to the pool from the front: what is accepted becomes a worker of its own. */
  lemma SubmitsInOrder(c: Config, s: System, t: Task)
    requires GoodConfig(c) && Inv(c, s) && Enabled(c, s, SubmitNext(t, true))
    ensures var batch, s' := s.threads[Worker(t)].pc.batch, Apply(c, s, SubmitNext(t, true));
            && batch != [] && Worker(batch[0]) !in s.threads
            && Worker(batch[0]) in s'.threads && s'.threads[Worker(batch[0])] == Thread(Queued, [])
            && Worker(t) in s'.threads && Carried(s'.threads[Worker(t)].pc) == batch[1..]
  {
    SpawnIsNew(c, s, SubmitNext(t, true));
    HeadCommitted(s, t, s.threads[Worker(t)].pc.batch);
  }

  // ---------------------------------------------------------------- first in, first out

  /** Reserved order followed by the mailbox is acceptance order, and nobody waits beside a free slot. */
  ghost predicate Fifo(c: Config, slots: map<int, Slot>, hist: History, a: int) {
    var slot := SlotAt(slots, a);
    && Log(hist.accepted, a) == Log(hist.reserved, a) + slot.mailbox
    && EmptyOrFull(slot, c.perActivityLimit)
    && |slot.mailbox| <= c.perActivityMailboxSize
  }

  ghost predicate NoRollbacks(s: System) {
    forall tid :: tid in s.threads && OpOf(s.threads[tid].pc).Some? ==>
      !OpOf(s.threads[tid].pc).value.RollbackDirect? && !OpOf(s.threads[tid].pc).value.RollbackBatch?
  }

  ghost predicate Orderly(c: Config, s: System)
    requires GoodStore(s.store)
  {
    s.hist.refusals == 0 ==> NoRollbacks(s) && forall a: int :: Fifo(c, SlotsOf(s.store), s.hist, a)
  }

  /** Without a refusal nobody heads for a rollback. */
  lemma NoRollbackStarts(c: Config, s: System, step: Step)
    requires GoodConfig(c) && Enabled(c, s, step) && NoRollbacks(s) && !step.Close? && !step.ReleasePool?
    requires EffectOf(c, s, step).hist.refusals == 0
    ensures var op := OpOf(EffectOf(c, s, step).pc); op.Some? ==> !op.value.RollbackDirect? && !op.value.RollbackBatch?
  {
  }

  lemma NoRollbacksKept(c: Config, s: System, step: Step)
    requires GoodConfig(c) && Enabled(c, s, step) && NoRollbacks(s) && Apply(c, s, step).hist.refusals == 0
    ensures NoRollbacks(Apply(c, s, step))
    ensures !step.RollbackDirectCritical? && !step.RollbackBatchCritical?
  {
    if !step.Close? && !step.ReleasePool? {
      NoRollbackStarts(c, s, step);
    }
  }

  lemma HandleFifo(c: Config, s: System, t: Task, now: int)
    requires GoodConfig(c) && GoodStore(s.store) && t.activityId in s.store.states
    requires Fifo(c, SlotsOf(s.store), s.hist, t.activityId)
    ensures var o := s.store.states[t.activityId];
            Fifo(c, SlotsOf(s.store)[t.activityId := Admit(s.store.objs[o], c, t, now).0],
                 HandleSection(c, s, t, now, o).hist, t.activityId)
  {
  }

  lemma DoneFifo(c: Config, s: System, t: Task, now: int)
    requires GoodConfig(c) && GoodStore(s.store) && t.activityId in s.store.states
    requires Fifo(c, SlotsOf(s.store), s.hist, t.activityId)
    ensures var o := s.store.states[t.activityId];
            Fifo(c, SlotsOf(s.store)[t.activityId := Finish(s.store.objs[o], c.perActivityLimit, now).0],
                 DoneSection(c, s, t, now, o).hist, t.activityId)
  {
    var slot := s.store.objs[s.store.states[t.activityId]];
    var (slot', next) := Finish(slot, c.perActivityLimit, now);
    assert slot.mailbox == next + slot'.mailbox;
    FinishRecovers(slot, c.perActivityLimit, now);
  }

  /** One activity's log and slot change; the others keep theirs. */
  lemma SectionFifo(c: Config, s: System, e: Effect, b: int, a: int, slot: Slot)
    requires GoodStore(s.store) && b in s.store.states
    requires e.store == SetSlot(s.store, s.store.states[b], slot)
    requires forall d: int :: d != b ==>
               Log(e.hist.accepted, d) == Log(s.hist.accepted, d) && Log(e.hist.reserved, d) == Log(s.hist.reserved, d)
    requires Fifo(c, SlotsOf(s.store)[b := slot], e.hist, b)
    requires Fifo(c, SlotsOf(s.store), s.hist, a)
    ensures GoodStore(e.store) && Fifo(c, SlotsOf(e.store), e.hist, a)
  {
    SectionSlots(s.store, b, slot);
  }

  lemma HandleFifoFor(c: Config, s: System, t: Task, now: int, a: int)
    requires GoodConfig(c) && GoodStore(s.store) && t.activityId in s.store.states
    requires Fifo(c, SlotsOf(s.store), s.hist, t.activityId) && Fifo(c, SlotsOf(s.store), s.hist, a)
    ensures var e := HandleSection(c, s, t, now, s.store.states[t.activityId]);
            GoodStore(e.store) && Fifo(c, SlotsOf(e.store), e.hist, a)
  {
    var o := s.store.states[t.activityId];
    HandleFifo(c, s, t, now);
    SectionFifo(c, s, HandleSection(c, s, t, now, o), t.activityId, a, Admit(s.store.objs[o], c, t, now).0);
  }

  lemma HandleKeepsFifo(c: Config, s: System, step: Step, a: int)
    requires GoodConfig(c) && Inv(c, s) && Enabled(c, s, step) && step.HandleCritical?
    requires forall b: int :: Fifo(c, SlotsOf(s.store), s.hist, b)
    ensures var e := EffectOf(c, s, step); GoodStore(e.store) && Fifo(c, SlotsOf(e.store), e.hist, a)
  {
    var tid := Handler(step.t);
    SectionCurrent(c, s, tid);
    HandleFifoFor(c, s, step.t, s.threads[tid].pc.op.now, a);
  }

  lemma DoneKeepsFifo(c: Config, s: System, step: Step, a: int)
    requires GoodConfig(c) && Inv(c, s) && Enabled(c, s, step) && step.DoneCritical?
    requires forall b: int :: Fifo(c, SlotsOf(s.store), s.hist, b)
    ensures var e := EffectOf(c, s, step); GoodStore(e.store) && Fifo(c, SlotsOf(e.store), e.hist, a)
  {
    var tid := Worker(step.t);
    var o := s.threads[tid].pc.obj;
    SectionCurrent(c, s, tid);
    DoneFifo(c, s, step.t, step.now);
    SectionFifo(c, s, DoneSection(c, s, step.t, step.now, o), step.t.activityId, a,
                Finish(s.store.objs[o], c.perActivityLimit, step.now).0);
  }

  /** Steps outside critical sections change no mailbox and no log but `started`. */
  lemma OtherFifo(c: Config, s: System, step: Step, a: int)
    requires GoodConfig(c) && Inv(c, s) && Enabled(c, s, step)
    requires !IsSection(step)
    requires Fifo(c, SlotsOf(s.store), s.hist, a)
    ensures var s' := Apply(c, s, step); GoodStore(s'.store) && Fifo(c, SlotsOf(s'.store), s'.hist, a)
  {
    var s' := Apply(c, s, step);
    if !step.Close? && !step.ReleasePool? {
      CurrentPreserved(c, s, step);
    }
    LogsKept(c, s, step);
    OtherSlots(c, s, step, a);
  }

  lemma OtherSlots(c: Config, s: System, step: Step, a: int)
    requires GoodConfig(c) && GoodStore(s.store) && Enabled(c, s, step)
    requires !IsSection(step)
    requires GoodStore(Apply(c, s, step).store)
    ensures var x, y := SlotAt(SlotsOf(s.store), a), SlotAt(SlotsOf(Apply(c, s, step).store), a);
            x.mailbox == y.mailbox && x.inflight == y.inflight
  {
    if IsMove(step) {
      MovesChangeNothing(c, s, step);
    }
  }

  lemma OrderlyPreserved(c: Config, s: System, step: Step)
    requires GoodConfig(c) && Inv(c, s) && Enabled(c, s, step) && Orderly(c, s)
    ensures var s' := Apply(c, s, step); GoodStore(s'.store) && Orderly(c, s')
  {
    InvPreserved(c, s, step);
    var s' := Apply(c, s, step);
    LogsKept(c, s, step);
    if s'.hist.refusals == 0 {
      NoRollbacksKept(c, s, step);
      forall a: int
        ensures Fifo(c, SlotsOf(s'.store), s'.hist, a)
      {
        assert Fifo(c, SlotsOf(s.store), s.hist, a);
        if step.HandleCritical? {
          HandleKeepsFifo(c, s, step, a);
        } else if step.DoneCritical? {
          DoneKeepsFifo(c, s, step, a);
        } else {
          OtherFifo(c, s, step, a);
        }
      }
    }
  }

  lemma {:induction false} OrderlyAlways(c: Config, s: System, run: seq<Step>)
    requires GoodConfig(c) && Inv(c, s) && IsRun(c, s, run) && Orderly(c, s)
    ensures var s' := After(c, s, run); GoodStore(s'.store) && Orderly(c, s')
    decreases |run|
  {
    if run == [] {
    } else {
      OrderlyPreserved(c, s, run[0]);
      InvPreserved(c, s, run[0]);
      OrderlyAlways(c, Apply(c, s, run[0]), run[1..]);
    }
  }

  /** WORK CONSERVATION AND FIFO. While the pool has refused nothing: a non-empty mailbox means
      every slot of the activity is taken (so no direct dispatch overtakes the mailbox), messages
      get their slots in acceptance order, and the mailbox stays within its configured size. */
  lemma WorkConservingFifo(c: Config, s: System, a: int)
    requires GoodConfig(c) && Reachable(c, s) && s.hist.refusals == 0
    ensures MailboxOf(s, a) != [] ==> InflightOf(s, a) == c.perActivityLimit
    ensures Log(s.hist.accepted, a) == Log(s.hist.reserved, a) + MailboxOf(s, a)
    ensures |MailboxOf(s, a)| <= c.perActivityMailboxSize
  {
    var run: seq<Step> :| IsRun(c, Initial(), run) && After(c, Initial(), run) == s;
    InvInitially(c);
    assert Orderly(c, Initial());
    OrderlyAlways(c, Initial(), run);
    assert Fifo(c, SlotsOf(s.store), s.hist, a);
    SlotAccounting(c, s, a);
  }
}
