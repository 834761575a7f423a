/** Every step of every thread keeps the invariant, so every run does; and what that means. */
module ConsumerRuns {
  import opened ActivityStates
  import opened ConsumerSystem
  import opened ConsumerLocks
  import opened ConsumerAccounts
  import opened ConsumerSafety
  import opened Options

  // ---------------------------------------------------------------- steps that move no task

  lemma QuietKept(s: System, tid: Tid, e: Effect)
    requires Homes(s) && e.loc == s.loc && e.spawn.None? && Fits(s.loc, tid, e.pc)
    requires Carried(e.pc) == if tid in s.threads then Carried(s.threads[tid].pc) else []
    requires tid.Handler? ==> tid in s.threads || tid.task !in s.loc
    requires tid.Worker? ==> tid in s.threads
    ensures Homes(Commit(s, tid, e))
  {
    forall t | t in e.loc
      ensures MayMove(s, tid, e, t) && Delivered(s, tid, e, t)
    {
      assert Owned(s.threads, s.loc, t);
    }
    HomesKept(s, tid, e);
  }

  /** A message nobody has handled yet has no location. */
  lemma FreshMessage(s: System, t: Task)
    requires Homes(s) && Handler(t) !in s.threads
    ensures t !in s.loc
  {
    assert t in s.loc ==> Owned(s.threads, s.loc, t);
  }

  lemma StartHandleKept(s: System, t: Task, now: int)
    requires Homes(s) && Handler(t) !in s.threads
    ensures Homes(Commit(s, Handler(t), EnterHandle(s, t, now)))
  {
    FreshMessage(s, t);
    var e := EnterHandle(s, t, now);
    if s.closed {
      HomesKept(s, Handler(t), e);
    } else {
      QuietKept(s, Handler(t), e);
    }
  }

  /** A worker or rollback that looks its state up finds it: the panic of lockExistingState is
      unreachable. */
  lemma NeverMissing(c: Config, s: System, tid: Tid)
    requires GoodConfig(c) && Homes(s) && GoodStore(s.store) && AllAgree(c, s.store, s.loc)
    requires tid in s.threads && OpOf(s.threads[tid].pc).Some?
    requires var op := OpOf(s.threads[tid].pc).value; op.Done? || op.RollbackDirect? || op.RollbackBatch?
    ensures ActivityOf(tid) in s.store.states
  {
    var pc, a := s.threads[tid].pc, ActivityOf(tid);
    assert Fits(s.loc, tid, pc);
    var t := if OpOf(pc).value.RollbackBatch? then Carried(pc)[0] else tid.task;
    assert t in s.loc && Holds(s.loc[t]) && t.activityId == a;
    assert Agrees(c, SlotAt(SlotsOf(s.store), a), s.loc, a);
    assert t in Holding(s.loc, a);
  }

  lemma LookUpFits(c: Config, s: System, tid: Tid)
    requires GoodConfig(c) && Inv(c, s) && Enabled(c, s, Lookup(tid))
    ensures var e := LookUp(s, ActivityOf(tid), s.threads[tid].pc.op);
            Fits(s.loc, tid, e.pc) && Carried(e.pc) == Carried(s.threads[tid].pc)
  {
    var pc := s.threads[tid].pc;
    assert Fits(s.loc, tid, pc);
    if pc.op.Done? || pc.op.RollbackDirect? || pc.op.RollbackBatch? {
      NeverMissing(c, s, tid);
    }
  }

  lemma LookupKept(c: Config, s: System, tid: Tid)
    requires GoodConfig(c) && Inv(c, s) && Enabled(c, s, Lookup(tid))
    ensures Homes(Commit(s, tid, EffectOf(c, s, Lookup(tid))))
  {
    LookUpFits(c, s, tid);
    QuietKept(s, tid, LookUp(s, ActivityOf(tid), s.threads[tid].pc.op));
  }

  lemma LockMovesKept(c: Config, s: System, step: Step)
    requires GoodConfig(c) && Homes(s) && Enabled(c, s, step)
    requires step.TakeShard? || step.TakeState? || step.DropShard? || step.PeekCritical? || step.AddMetric?
    ensures Homes(Commit(s, Mover(step), EffectOf(c, s, step)))
  {
    var tid, e := Mover(step), EffectOf(c, s, step);
    assert Fits(s.loc, tid, s.threads[tid].pc);
    QuietKept(s, tid, e);
  }

  lemma WorkMovesKept(c: Config, s: System, step: Step)
    requires GoodConfig(c) && Homes(s) && Enabled(c, s, step)
    requires step.Run? || step.ProcessEnd? || step.StartPeek? || step.StartCollect?
    ensures Homes(Commit(s, Mover(step), EffectOf(c, s, step)))
  {
    var tid, e := Mover(step), EffectOf(c, s, step);
    assert tid in s.threads ==> Fits(s.loc, tid, s.threads[tid].pc);
    QuietKept(s, tid, e);
  }

  lemma GcMovesKept(c: Config, s: System, step: Step)
    requires GoodConfig(c) && Homes(s) && Enabled(c, s, step) && GcStep(step)
    ensures Homes(Commit(s, Mover(step), EffectOf(c, s, step)))
  {
    var tid, e := Mover(step), EffectOf(c, s, step);
    assert Fits(s.loc, tid, s.threads[tid].pc);
    QuietKept(s, tid, e);
  }

  // ---------------------------------------------------------------- all steps

  lemma HandlerSectionsKept(c: Config, s: System, step: Step)
    requires GoodConfig(c) && Homes(s) && Enabled(c, s, step) && (step.HandleCritical? || step.RollbackDirectCritical?)
    ensures Homes(Commit(s, Mover(step), EffectOf(c, s, step)))
  {
    var pc := s.threads[Handler(step.t)].pc;
    if step.HandleCritical? {
      HandleLawful(c, s, step.t, pc.op.now, pc.obj);
    } else {
      RollbackDirectLawful(s, step.t, step.now, pc.obj);
    }
    HomesKept(s, Handler(step.t), EffectOf(c, s, step));
  }

  lemma WorkerSectionsKept(c: Config, s: System, step: Step)
    requires GoodConfig(c) && Inv(c, s) && Enabled(c, s, step) && (step.RollbackBatchCritical? || step.DoneCritical?)
    ensures Homes(Commit(s, Mover(step), EffectOf(c, s, step)))
  {
    var pc := s.threads[Worker(step.t)].pc;
    if step.RollbackBatchCritical? {
      RollbackBatchLawful(s, step.t, pc.op.tasks, step.now, pc.obj);
    } else {
      SectionCurrent(c, s, Worker(step.t));
      DoneLawful(c, s, step.t, step.now, pc.obj);
    }
    HomesKept(s, Worker(step.t), EffectOf(c, s, step));
  }

  lemma SubmitsKept(c: Config, s: System, step: Step)
    requires GoodConfig(c) && Homes(s) && Enabled(c, s, step) && (step.SubmitDirect? || step.SubmitNext?)
    ensures Homes(Commit(s, Mover(step), EffectOf(c, s, step)))
  {
    if step.SubmitDirect? {
      SubmitDirectLawful(s, step.t, step.accept);
    } else {
      SubmitNextLawful(s, step.t, s.threads[Worker(step.t)].pc.batch, step.accept);
    }
    HomesKept(s, Mover(step), EffectOf(c, s, step));
  }

  lemma SpawnIsNew(c: Config, s: System, step: Step)
    requires GoodConfig(c) && Homes(s) && Enabled(c, s, step) && (step.SubmitDirect? || step.SubmitNext?)
    ensures var e := EffectOf(c, s, step);
            e.spawn.Some? ==> Worker(e.spawn.value) !in s.threads && Worker(e.spawn.value) != Mover(step)
  {
    if step.SubmitDirect? {
      SubmitDirectLawful(s, step.t, step.accept);
    } else {
      SubmitNextLawful(s, step.t, s.threads[Worker(step.t)].pc.batch, step.accept);
    }
  }

  lemma HomesPreserved(c: Config, s: System, step: Step)
    requires GoodConfig(c) && Inv(c, s) && Enabled(c, s, step) && !step.Close? && !step.ReleasePool?
    ensures Homes(Commit(s, Mover(step), EffectOf(c, s, step)))
  {
    if step.StartHandle? {
      StartHandleKept(s, step.t, step.now);
    } else if step.Lookup? {
      LookupKept(c, s, step.tid);
    } else if step.HandleCritical? || step.RollbackDirectCritical? {
      HandlerSectionsKept(c, s, step);
    } else if step.RollbackBatchCritical? || step.DoneCritical? {
      WorkerSectionsKept(c, s, step);
    } else if step.SubmitDirect? || step.SubmitNext? {
      SubmitsKept(c, s, step);
    } else if GcStep(step) {
      GcMovesKept(c, s, step);
    } else if step.Run? || step.ProcessEnd? || step.StartPeek? || step.StartCollect? {
      WorkMovesKept(c, s, step);
    } else {
      LockMovesKept(c, s, step);
    }
  }

  lemma SectionAgrees(c: Config, s: System, step: Step)
    requires GoodConfig(c) && Inv(c, s) && Enabled(c, s, step)
    requires step.HandleCritical? || step.RollbackDirectCritical? || step.RollbackBatchCritical? || step.DoneCritical?
    ensures var e := EffectOf(c, s, step); GoodStore(e.store) && AllAgree(c, e.store, e.loc)
  {
    var tid := Mover(step);
    SectionCurrent(c, s, tid);
    assert Fits(s.loc, tid, s.threads[tid].pc);
    if step.HandleCritical? {
      HandleAgrees(c, s, step.t, s.threads[tid].pc.op.now);
    } else if step.RollbackDirectCritical? {
      LeaveAgrees(c, s, step.t, Rejected, step.now);
    } else if step.RollbackBatchCritical? {
      RollbackBatchAgrees(c, s, step.t, s.threads[tid].pc.op.tasks, step.now);
    } else {
      DoneAgrees(c, s, step.t, step.now);
    }
  }

  lemma LookupAgrees(c: Config, s: System, a: int, op: Op)
    requires GoodConfig(c) && GoodStore(s.store) && AllAgree(c, s.store, s.loc)
    ensures var e := LookUp(s, a, op); GoodStore(e.store) && AllAgree(c, e.store, e.loc)
  {
    UnusedAgrees(c, s, LookUp(s, a, op), a);
  }

  lemma CollectAgrees(c: Config, s: System, pc: PC)
    requires GoodConfig(c) && GoodStore(s.store) && AllAgree(c, s.store, s.loc)
    requires pc.GcHaveState? && pc.obj in s.store.objs
    ensures var e := DecideEffect(c, s, pc); GoodStore(e.store) && AllAgree(c, e.store, e.loc)
  {
    UnusedAgrees(c, s, DecideEffect(c, s, pc), pc.act);
  }

  lemma OtherAgrees(c: Config, s: System, step: Step)
    requires GoodConfig(c) && Inv(c, s) && Enabled(c, s, step)
    requires step.StartHandle? || step.SubmitDirect? || step.SubmitNext?
    ensures var e := EffectOf(c, s, step); GoodStore(e.store) && AllAgree(c, e.store, e.loc)
  {
    if step.StartHandle? {
      FreshMessage(s, step.t);
      RejectAgrees(c, s, step.t);
    } else if step.SubmitDirect? {
      SubmitDirectLawful(s, step.t, step.accept);
      SubmitAgrees(c, s, step.t);
    } else {
      var batch := s.threads[Worker(step.t)].pc.batch;
      SubmitNextLawful(s, step.t, batch, step.accept);
      SubmitAgrees(c, s, batch[0]);
    }
  }

  predicate IsSection(step: Step) {
    step.HandleCritical? || step.RollbackDirectCritical? || step.RollbackBatchCritical? || step.DoneCritical?
  }

  /** Steps that only move a thread. */
  predicate IsMove(step: Step) {
    step.AddMetric? || step.TakeShard? || step.TakeState? || step.DropShard? || step.PeekCritical? ||
    step.ProcessEnd? || step.StartPeek? || step.StartCollect? || (GcStep(step) && !step.GcDecide?)
  }

  lemma MovesChangeNothing(c: Config, s: System, step: Step)
    requires GoodConfig(c) && Enabled(c, s, step) && IsMove(step)
    ensures var e := EffectOf(c, s, step);
            e.store == s.store && e.loc == s.loc && e.hist == s.hist && e.spawn.None? &&
              !e.pc.Queued? == !PcIs(s, Mover(step), Queued)
  {
    if GcStep(step) {
      GcChangesNothing(c, s, step);
    }
  }

  lemma GcChangesNothing(c: Config, s: System, step: Step)
    requires GoodConfig(c) && Enabled(c, s, step) && GcStep(step) && !step.GcDecide?
    ensures var e := EffectOf(c, s, step);
            e.store == s.store && e.loc == s.loc && e.hist == s.hist && e.spawn.None? && !e.pc.Queued?
  {
  }

  predicate PcIs(s: System, tid: Tid, pc: PC) {
    tid in s.threads && s.threads[tid].pc == pc
  }

  lemma AgreementPreserved(c: Config, s: System, step: Step)
    requires GoodConfig(c) && Inv(c, s) && Enabled(c, s, step) && !step.Close? && !step.ReleasePool?
    ensures var e := EffectOf(c, s, step); GoodStore(e.store) && AllAgree(c, e.store, e.loc)
  {
    if step.HandleCritical? || step.RollbackDirectCritical? || step.RollbackBatchCritical? || step.DoneCritical? {
      SectionAgrees(c, s, step);
    } else if step.Lookup? {
      LookupAgrees(c, s, ActivityOf(step.tid), s.threads[step.tid].pc.op);
    } else if step.GcDecide? {
      CollectAgrees(c, s, s.threads[step.tid].pc);
    } else if step.StartHandle? || step.SubmitDirect? || step.SubmitNext? {
      OtherAgrees(c, s, step);
    } else {
      if IsMove(step) {
        MovesChangeNothing(c, s, step);
      }
    }
  }

  lemma InvPreserved(c: Config, s: System, step: Step)
    requires GoodConfig(c) && Inv(c, s) && Enabled(c, s, step)
    ensures Inv(c, Apply(c, s, step))
  {
    if !step.Close? && !step.ReleasePool? {
      var tid, e := Mover(step), EffectOf(c, s, step);
      LocksTakenWhenFree(c, s, step);
      ExclusiveKept(c, s, tid, e);
      CurrentPreserved(c, s, step);
      HomesPreserved(c, s, step);
      AgreementPreserved(c, s, step);
      assert Inv(c, Commit(s, tid, e));
    }
  }

  lemma InvInitially(c: Config)
    requires GoodConfig(c)
    ensures Inv(c, Initial())
  {
    forall a: int
      ensures Agrees(c, SlotAt(SlotsOf(Initial().store), a), Initial().loc, a)
    {
      assert Holding(map[], a) == {} && Batched(map[], a) == {};
    }
  }

  lemma {:induction false} InvAlways(c: Config, s: System, run: seq<Step>)
    requires GoodConfig(c) && Inv(c, s) && IsRun(c, s, run)
    ensures Inv(c, After(c, s, run))
    decreases |run|
  {
    if run == [] {
    } else {
      InvPreserved(c, s, run[0]);
      InvAlways(c, Apply(c, s, run[0]), run[1..]);
    }
  }
}
